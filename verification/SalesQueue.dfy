/**
 What the allocation queue offers: a rebuild queues exactly the pending orders, oldest first, and working the queue
 off leaves no order pending but those from the first one on that the counters do not cover.
 */
module SalesQueue {
  import opened Options
  import opened SalesModel
  import opened SalesLaws
  import opened SalesRuns

  predicate IsPending(orders: map<nat, Order>, id: nat) {
    id in orders && orders[id].status == Pending
  }

  /** The entry under which an order waits. */
  predicate Presents(e: Entry, id: nat, o: Order) {
    e.orderId == id && e.client == o.client && e.requiredDate == o.requiredDate && e.ingestedAt == o.createdAt
  }

  // ---------------------------------------------------------------- a rebuild

  lemma {:induction false} PendingEntriesIff(orders: map<nat, Order>, rows: seq<nat>, e: Entry)
    ensures e in PendingEntries(orders, rows)
       <==> e.orderId in rows && IsPending(orders, e.orderId) && Presents(e, e.orderId, orders[e.orderId])
  {
    if rows != [] {
      PendingEntriesIff(orders, rows[1..], e);
      assert rows == [rows[0]] + rows[1..];
    }
  }

  /** Where an order has one entry, enqueueing the entries makes the queue hold each of them. */
  lemma {:induction false} EnqueueAllHolds(q: seq<Entry>, es: seq<Entry>, x: Entry)
    requires Sorted(q) && DistinctOrders(q)
    requires forall a, b :: a in es && b in es && a.orderId == b.orderId ==> a == b
    ensures x in EnqueueAll(q, es) <==> x in es || (x in q && forall e :: e in es ==> e.orderId != x.orderId)
    decreases |es|
  {
    if es != [] {
      EnqueueShape(q, es[0]);
      assert es == [es[0]] + es[1..];
      EnqueueAllHolds(Enqueue(q, es[0]), es[1..], x);
    }
  }

  /** A rebuild that goes through queues an order exactly if it is listed and pending, under its own client, date and
      time, and orders by time and, among equal times, by id. */
  lemma RebuildQueuesThePending(s: Sales, e: Entry)
    ensures var q := Rebuilt(s, NoFault).queue;
            && (e in q <==> e.orderId in s.rows && IsPending(s.orders, e.orderId)
                            && Presents(e, e.orderId, s.orders[e.orderId]))
            && (forall i, j :: 0 <= i < j < |q| ==>
                  q[i].ingestedAt < q[j].ingestedAt
                  || (q[i].ingestedAt == q[j].ingestedAt && q[i].orderId < q[j].orderId))
    ensures Rebuilt(s, NoFault) == s.(queue := Rebuilt(s, NoFault).queue)
  {
    var es := PendingEntries(s.orders, s.rows);
    PendingEntriesAre(s.orders, s.rows);
    PendingEntriesIff(s.orders, s.rows, e);
    EnqueueAllHolds([], es, e);
    EnqueueAllShape([], es);
  }

  lemma QueuedIff(s: Sales, id: nat)
    ensures Queued(Rebuilt(s, NoFault).queue, id) <==> id in s.rows && IsPending(s.orders, id)
  {
    if id in s.rows && IsPending(s.orders, id) {
      RebuildQueuesThePending(s, EntryOf(id, s.orders[id]));
    }
    if Queued(Rebuilt(s, NoFault).queue, id) {
      var e :| e in Rebuilt(s, NoFault).queue && e.orderId == id;
      RebuildQueuesThePending(s, e);
    }
  }

  /** A rebuild that breaks off has queued the pending orders of the rows it got to, and no others. */
  lemma {:induction false} PendingPrefix(orders: map<nat, Order>, rows: seq<nat>, k: nat) returns (n: nat)
    ensures n <= |rows|
    ensures var es := PendingEntries(orders, rows);
            (if k < |es| then es[..k] else es) == PendingEntries(orders, rows[..n])
    ensures k <= |PendingEntries(orders, rows)| ==> |PendingEntries(orders, rows[..n])| == k
  {
    if rows == [] || k == 0 {
      n := 0;
    } else {
      var first := if rows[0] in orders && orders[rows[0]].status == Pending then 1 else 0;
      n := PendingPrefix(orders, rows[1..], k - first);
      n := n + 1;
      assert rows[..n][0] == rows[0] && rows[..n][1..] == rows[1..][..n - 1];
    }
  }

  lemma BrokenRebuildQueuesAPrefix(s: Sales, at: nat) returns (n: nat)
    ensures n <= |s.rows|
    ensures forall e :: e in Rebuilt(s, EnqueueFails(at)).queue <==>
              && e.orderId in s.rows[..n] && IsPending(s.orders, e.orderId)
              && Presents(e, e.orderId, s.orders[e.orderId])
  {
    n := PendingPrefix(s.orders, s.rows, at);
    var es := PendingEntries(s.orders, s.rows[..n]);
    PendingEntriesAre(s.orders, s.rows[..n]);
    forall e
      ensures e in Rebuilt(s, EnqueueFails(at)).queue <==> e in es
      ensures e in es <==> e.orderId in s.rows[..n] && IsPending(s.orders, e.orderId)
                           && Presents(e, e.orderId, s.orders[e.orderId])
    {
      PendingEntriesIff(s.orders, s.rows[..n], e);
      EnqueueAllHolds([], es, e);
    }
  }

  // ---------------------------------------------------------------- every order is listed

  ghost predicate ListsOrders(s: Sales) {
    forall id :: id in s.rows <==> id in s.orders
  }

  lemma {:induction false} DrainKeepsRows(s: Sales, fs: seq<AllocFaults>)
    ensures Processed(s, fs).rows == s.rows && Processed(s, fs).orders.Keys == s.orders.Keys
    decreases |s.queue|
  {
    if s.queue != [] {
      HeadKeepsRows(s, FaultsAt(fs));
      if HeadOutcome(s, FaultsAt(fs)) == Allocated {
        AllocatedHeadLeaves(s, FaultsAt(fs));
        DrainKeepsRows(AfterHead(s, FaultsAt(fs)), Rest(fs));
      }
    }
  }

  lemma HeadKeepsRows(s: Sales, f: AllocFaults)
    requires s.queue != []
    ensures AfterHead(s, f).rows == s.rows && AfterHead(s, f).orders.Keys == s.orders.Keys
  {
    AllocKeepsQueue(Popped(s), s.queue[0].orderId, f);
  }

  lemma StepKeepsListing(s: Sales, step: Step)
    requires ListsOrders(s)
    ensures ListsOrders(Apply(s, step))
  {
    if step.Process? && Drains(s, step.listFails, step.rebuild) {
      DrainKeepsRows(Refilled(s, step.rebuild), step.allocs);
    }
  }

  /** In every run, whatever fails in it, the rows a rebuild reads list every order there is. */
  lemma {:induction false} RunListsOrders(s: Sales, steps: seq<Step>)
    requires ListsOrders(s)
    ensures ListsOrders(Run(s, steps))
    decreases |steps|
  {
    if steps != [] {
      StepKeepsListing(s, steps[0]);
      RunListsOrders(Apply(s, steps[0]), steps[1..]);
    }
  }

  // ---------------------------------------------------------------- a drain

  /** The queue holds every pending order. */
  ghost predicate AllQueued(s: Sales) {
    forall id :: IsPending(s.orders, id) ==> Queued(s.queue, id)
  }

  /** Some item of the order asks for more than its counter has. */
  predicate Uncovered(s: Sales, id: nat) {
    && id in s.orders
    && var items := s.orders[id].items;
       exists i :: 0 <= i < |items| && Get(s.atp, Key(items[i].sku)) < items[i].qty
  }

  /** An allocated head leaves the queue and is pending no more; nothing else changes its status. */
  lemma AllocatedKeepsAllQueued(s: Sales, f: AllocFaults)
    requires Inv(s) && AllQueued(s) && s.queue != [] && Compensates(f) && HeadOutcome(s, f) == Allocated
    ensures AllQueued(AfterHead(s, f))
  {
    var s', head := AfterHead(s, f), s.queue[0].orderId;
    assert MovesOnly(s.orders, s'.orders, head) by {
      HeadAllocates(s, f);
    }
    assert s'.queue == s.queue[1..] by {
      AllocatedHeadLeaves(s, f);
    }
    forall id | IsPending(s'.orders, id)
      ensures Queued(s'.queue, id)
    {
      assert IsPending(s.orders, id) && id != head;
      StaysQueued(s.queue, id);
    }
  }

  lemma StaysQueued(q: seq<Entry>, id: nat)
    requires Queued(q, id) && q[0].orderId != id
    ensures Queued(q[1..], id)
  {
    var e :| e in q && e.orderId == id;
    var i :| 0 <= i < |q| && q[i] == e;
    assert q[1..][i - 1] == e;
  }

  /** A drain without faults ends with an empty queue and nothing pending, or at an order the counters do not cover. */
  lemma {:induction false} DrainSettlesThePending(s: Sales)
    requires Inv(s) && AllQueued(s) && 0 !in s.orders
    ensures var s' := Processed(s, []);
            && AllQueued(s')
            && (s'.queue == [] ==> forall id :: !IsPending(s'.orders, id))
            && (s'.queue != [] ==> Uncovered(s', s'.queue[0].orderId))
    decreases |s.queue|
  {
    if s.queue != [] {
      var head := s.queue[0].orderId;
      assert s.queue[0] in s.queue;
      PopKeeps(s);
      assert !HasReservation(s.reservations, head);
      CheckAnswers(s.atp, s.orders[head].items, 0, None);
      if HeadOutcome(s, NO_ALLOC_FAULTS) == Allocated {
        HeadAllocates(s, NO_ALLOC_FAULTS);
        AllocatedHeadLeaves(s, NO_ALLOC_FAULTS);
        AllocatedKeepsAllQueued(s, NO_ALLOC_FAULTS);
        DrainSettlesThePending(AfterHead(s, NO_ALLOC_FAULTS));
      } else {
        ReinsertFirst(s.queue);
        assert Processed(s, []) == s;
      }
    }
  }

  lemma {:induction false} RunHasNoNilOrder(s: Sales, steps: seq<Step>)
    requires AllReliable(s, steps) && ListsOrders(s) && 0 !in s.orders
    ensures 0 !in Run(s, steps).orders
    decreases |steps|
  {
    if steps != [] {
      if steps[0].Process? && Drains(s, steps[0].listFails, steps[0].rebuild) {
        DrainKeepsRows(Refilled(s, steps[0].rebuild), steps[0].allocs);
      }
      StepKeepsListing(s, steps[0]);
      RunHasNoNilOrder(Apply(s, steps[0]), steps[1..]);
    }
  }

  /** So at any point of a run an empty queue is worked off completely by a call that meets no fault: it finds every
      pending order, and leaves none pending unless it stops at one whose items the counters do not cover. */
  lemma ProcessingLeavesNonePending(before: Sales, steps: seq<Step>)
    requires Inv(before) && ListsOrders(before) && 0 !in before.orders && AllReliable(before, steps)
    requires Run(before, steps).queue == []
    ensures var s' := AfterProcess(Run(before, steps), false, NoFault, []);
            || (s'.queue == [] && forall id :: !IsPending(s'.orders, id))
            || (s'.queue != [] && Uncovered(s', s'.queue[0].orderId))
  {
    var s := Run(before, steps);
    RunKeepsPromises(before, steps);
    RunListsOrders(before, steps);
    RunHasNoNilOrder(before, steps);
    RebuildKeeps(s, NoFault);
    forall id | IsPending(s.orders, id)
      ensures Queued(Rebuilt(s, NoFault).queue, id)
    {
      QueuedIff(s, id);
    }
    DrainSettlesThePending(Rebuilt(s, NoFault));
  }
}
