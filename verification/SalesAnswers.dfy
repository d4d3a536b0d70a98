/**
 What the allocation calls answer, refusal by refusal, and what their failing exits leave, in any state.
 */
module SalesAnswers {
  import opened Sequences
  import opened Options
  import opened SalesModel
  import opened SalesLaws
  import opened SalesRuns
  import opened SalesQueue

  /** The declared transitions, one by one. */
  lemma DeclaredTransitions(current: Status, next: Status)
    ensures CanTransitionTo(current, next) <==>
              (current, next) in {(Pending, Processing), (Pending, Cancelled), (Processing, Delivering),
                                  (Processing, Cancelled), (Delivering, Completed)}
  {
  }

  // ---------------------------------------------------------------- rebuilding and showing

  /** The rows under which a pending order is listed. */
  function PendingRows(orders: map<nat, Order>, rows: seq<nat>): set<nat> {
    set i: nat | i < |rows| && IsPending(orders, rows[i])
  }

  /** One more row adds the entry of its order at the end, if that is pending. */
  lemma {:induction false} PendingAppend(orders: map<nat, Order>, rows: seq<nat>, id: nat)
    ensures PendingEntries(orders, []) == []
    ensures PendingEntries(orders, rows + [id])
         == PendingEntries(orders, rows)
            + (if IsPending(orders, id)
               then [Entry(id, orders[id].client, orders[id].requiredDate, orders[id].createdAt)] else [])
  {
    if rows == [] {
      EmptySums([id]);
    } else {
      TailOfSum(rows, [id]);
      PendingAppend(orders, rows[1..], id);
    }
  }

  lemma PendingRowsGrow(orders: map<nat, Order>, rows: seq<nat>, id: nat)
    ensures |PendingRows(orders, rows + [id])| == |PendingRows(orders, rows)| + (if IsPending(orders, id) then 1 else 0)
  {
    assert forall i :: 0 <= i < |rows| ==> (rows + [id])[i] == rows[i];
    assert PendingRows(orders, rows + [id])
        == PendingRows(orders, rows) + (if IsPending(orders, id) then {|rows|} else {});
  }

  lemma {:induction false} PendingEntriesAreCounted(orders: map<nat, Order>, rows: seq<nat>)
    ensures |PendingEntries(orders, rows)| == |PendingRows(orders, rows)|
  {
    if rows != [] {
      var n := |rows| - 1;
      PendingEntriesAreCounted(orders, rows[..n]);
      PendingAppend(orders, rows[..n], rows[n]);
      PendingRowsGrow(orders, rows[..n], rows[n]);
      assert rows == rows[..n] + [rows[n]];
    }
  }

  /** A rebuild goes through exactly if the orders can be read and no enqueue fails before the last pending one. */
  lemma RebuildAnswers(s: Sales, f: RebuildFault)
    ensures RebuildOk(s, f) <==> f.NoFault? || (f.EnqueueFails? && f.at >= |PendingRows(s.orders, s.rows)|)
    ensures RebuildOk(s, f) ==> Rebuilt(s, f) == Rebuilt(s, NoFault)
    ensures f.ReadFails? ==> Rebuilt(s, f) == s
  {
    PendingEntriesAreCounted(s.orders, s.rows);
  }

  /** Showing or working off a queue rebuilds it only if it is empty, and a failed listing or rebuild ends the call: it
      allocates nothing. */
  lemma QueueAnswers(s: Sales, listFails: bool, rf: RebuildFault, fs: seq<AllocFaults>)
    ensures Drains(s, listFails, rf) <==>
              && !listFails
              && (s.queue != [] || rf.NoFault? || (rf.EnqueueFails? && rf.at >= |PendingRows(s.orders, s.rows)|))
    ensures listFails || s.queue != [] ==> AfterShow(s, listFails, rf) == s
    ensures !listFails && s.queue == [] ==> AfterShow(s, listFails, rf) == Rebuilt(s, rf)
    ensures !Drains(s, listFails, rf) ==>
              AfterProcess(s, listFails, rf, fs) == s.(queue := AfterShow(s, listFails, rf).queue)
    ensures Drains(s, listFails, rf) ==>
              AfterProcess(s, listFails, rf, fs) == Processed(AfterShow(s, listFails, rf), fs)
  {
    RebuildAnswers(s, rf);
  }

  // ---------------------------------------------------------------- one allocation

  /** An order is allocated exactly if it exists, every counter can be read and covers its item, it has no reservation
      yet, and no write fails; it is short exactly if a counter that can be read does not cover its item. */
  lemma AllocAnswers(s: Sales, id: nat, f: AllocFaults)
    ensures AllocOutcome(s, id, f) == Allocated <==>
              && id != 0 && id in s.orders && !f.lookupFails
              && (f.atpFailsAt.Some? ==> f.atpFailsAt.value >= |s.orders[id].items|)
              && (forall j :: 0 <= j < |s.orders[id].items| ==> Covers(s.atp, s.orders[id].items[j]))
              && !f.reserveFails && !f.createFails && !f.updateFails && !f.clientFails
              && !HasReservation(s.reservations, id)
    ensures AllocOutcome(s, id, f) == Insufficient <==>
              && id != 0 && id in s.orders && !f.lookupFails
              && exists j :: 0 <= j < |s.orders[id].items| && !Covers(s.atp, s.orders[id].items[j])
                             && (f.atpFailsAt.Some? ==> j < f.atpFailsAt.value)
  {
    if id in s.orders {
      CheckAnswers(s.atp, s.orders[id].items, 0, f.atpFailsAt);
    }
  }

  /** For items with distinct keys the pipeline's own look at the counters passes exactly if it overdraws none. */
  lemma ReservableIff(atp: map<string, int>, items: seq<ReservationItem>)
    requires WellFormed(items)
    ensures Reservable(atp, items) <==> forall k :: HasKey(items, k) ==> Get(Decremented(atp, items), k) >= 0
  {
    forall k
      ensures HasKey(items, k) ==>
                (Get(Decremented(atp, items), k) >= 0
                 <==> forall i :: 0 <= i < |items| && Key(items[i].sku) == k ==> Get(atp, k) >= items[i].qty)
    {
      DecrementedBy(atp, items, k);
      forall i | 0 <= i < |items| && Key(items[i].sku) == k
        ensures QtyOf(items, k) == items[i].qty
      {
        QtyOfAtKey(items, i);
      }
    }
    forall i | 0 <= i < |items|
      ensures HasKey(items, Key(items[i].sku))
    {
    }
  }

  ghost predicate OneReservationEach(rs: seq<Reservation>) {
    forall i, j :: 0 <= i < j < |rs| ==> rs[i].orderId != rs[j].orderId
  }

  lemma {:induction false} WithoutKeepsSome(rs: seq<Reservation>, id: nat)
    ensures forall r :: r in WithoutReservation(rs, id) <==> r in rs && r.orderId != id
    ensures OneReservationEach(rs) ==> OneReservationEach(WithoutReservation(rs, id))
  {
    if rs != [] {
      assert forall i :: 0 <= i < |rs[1..]| ==> rs[1..][i] == rs[i + 1];
      WithoutKeepsSome(rs[1..], id);
      assert rs == [rs[0]] + rs[1..];
      var rest := WithoutReservation(rs[1..], id);
      if OneReservationEach(rs) {
        forall j | 0 <= j < |rest|
          ensures rest[j].orderId != rs[0].orderId
        {
          assert rest[j] in rest && rest[j] in rs[1..];
        }
      }
    }
  }

  /** Whatever fails, in any state, only the order's own records change. */
  lemma AllocTouchesItsOwn(s: Sales, id: nat, f: AllocFaults)
    ensures var s' := AfterAlloc(s, id, f);
            && s'.orders.Keys == s.orders.Keys
            && (forall x :: x in s.orders && x != id ==> s'.orders[x] == s.orders[x])
            && (forall x :: x != id ==> (x in s'.held <==> x in s.held) && (x in s.held ==> s'.held[x] == s.held[x]))
  {
  }

  lemma AllocReservations(s: Sales, id: nat, f: AllocFaults)
    ensures var rs := AfterAlloc(s, id, f).reservations;
            || rs == s.reservations
            || (&& id in s.orders && !HasReservation(s.reservations, id)
                && var booked := s.reservations + [Reservation(id, Wanted(s.orders[id].items))];
                   rs == booked || rs == WithoutReservation(booked, id))
  {
  }

  lemma OneMoreStaysOne(rs: seq<Reservation>, r: Reservation)
    requires OneReservationEach(rs) && !HasReservation(rs, r.orderId)
    ensures OneReservationEach(rs + [r])
    ensures forall x: Reservation :: x.orderId != r.orderId ==> (x in rs + [r] <==> x in rs)
  {
    assert forall i :: 0 <= i < |rs| ==> rs[i].orderId != r.orderId;
  }

  /** And no order gets a second reservation, nor does another order's change. */
  lemma AllocKeepsOneReservation(s: Sales, id: nat, f: AllocFaults)
    requires OneReservationEach(s.reservations)
    ensures var rs := AfterAlloc(s, id, f).reservations;
            OneReservationEach(rs) && forall r: Reservation :: r.orderId != id ==> (r in rs <==> r in s.reservations)
  {
    AllocReservations(s, id, f);
    if id in s.orders && !HasReservation(s.reservations, id) {
      var r := Reservation(id, Wanted(s.orders[id].items));
      OneMoreStaysOne(s.reservations, r);
      WithoutKeepsSome(s.reservations + [r], id);
    }
  }

  // ---------------------------------------------------------------- one head, one drain

  /** The head leaves the queue, unless it cannot be taken off, or is short and put back where it was. A head that is
      rejected, or cannot be put back, waits for the next rebuild. */
  lemma HeadLeavesUnless(s: Sales, f: AllocFaults)
    requires s.queue != [] && Sorted(s.queue) && DistinctOrders(s.queue)
    ensures AfterHead(s, f).queue
         == if f.dequeue == PopFails || (HeadOutcome(s, f) == Insufficient && !f.requeueFails) then s.queue
            else s.queue[1..]
    ensures f.dequeue != Dequeues ==> HeadOutcome(s, f) == Rejected
    ensures HeadOutcome(s, f) == Insufficient ==> AfterHead(s, f) == s.(queue := AfterHead(s, f).queue)
  {
    AllocKeepsQueue(Popped(s), s.queue[0].orderId, f);
    ReinsertFirst(s.queue);
    if HeadOutcome(s, f) == Insufficient {
      AllocAnswers(Popped(s), s.queue[0].orderId, f);
    }
  }

  /** A drain answers success exactly if every queued order was handed out. */
  lemma {:induction false} DrainAnswers(s: Sales, fs: seq<AllocFaults>)
    ensures |Manifests(s, fs)| <= |s.queue|
    ensures DrainOutcome(s, fs) == Allocated <==> |Manifests(s, fs)| == |s.queue|
    decreases |s.queue|
  {
    if s.queue != [] && HeadOutcome(s, FaultsAt(fs)) == Allocated {
      AllocatedHeadLeaves(s, FaultsAt(fs));
      DrainAnswers(AfterHead(s, FaultsAt(fs)), Rest(fs));
    }
  }
}
