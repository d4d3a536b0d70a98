/**
 Whole runs of the sales side: the counters and the reservations add up, an order is reserved exactly
 while it is processing, and the queue only ever offers pending orders, each once.
 */
module SalesLaws {
  import opened Sequences
  import opened Options
  import opened SalesModel

  // ---------------------------------------------------------------- counters against reservations

  function QtyOf(items: seq<ReservationItem>, k: string): int {
    if items == [] then 0 else (if Key(items[0].sku) == k then items[0].qty else 0) + QtyOf(items[1..], k)
  }

  function Reserved(rs: seq<Reservation>, k: string): int {
    if rs == [] then 0 else QtyOf(rs[0].items, k) + Reserved(rs[1..], k)
  }

  predicate HasKey(items: seq<ReservationItem>, k: string) {
    exists i :: 0 <= i < |items| && Key(items[i].sku) == k
  }

  /** What order validation guarantees of an order's items. */
  predicate WellFormed(items: seq<ReservationItem>) {
    && (forall i :: 0 <= i < |items| ==> items[i].qty > 0)
    && (forall i, j :: 0 <= i < j < |items| ==> Key(items[i].sku) != Key(items[j].sku))
  }

  lemma WellFormedTail(items: seq<ReservationItem>)
    requires WellFormed(items) && items != []
    ensures WellFormed(items[1..]) && !HasKey(items[1..], Key(items[0].sku))
  {
    assert forall i :: 0 <= i < |items[1..]| ==> items[1..][i] == items[i + 1];
  }

  lemma {:induction false} QtyOfAbsent(items: seq<ReservationItem>, k: string)
    requires !HasKey(items, k)
    ensures QtyOf(items, k) == 0
  {
    if items != [] {
      assert Key(items[0].sku) != k;
      assert forall i :: 0 <= i < |items[1..]| ==> items[1..][i] == items[i + 1];
      QtyOfAbsent(items[1..], k);
    }
  }

  lemma {:induction false} DecrementedBy(atp: map<string, int>, items: seq<ReservationItem>, k: string)
    ensures Get(Decremented(atp, items), k) == Get(atp, k) - QtyOf(items, k)
    ensures k in Decremented(atp, items) <==> k in atp || HasKey(items, k)
    decreases |items|
  {
    if items != [] {
      var k0 := Key(items[0].sku);
      DecrementedBy(atp[k0 := Get(atp, k0) - items[0].qty], items[1..], k);
      assert forall i :: 0 <= i < |items[1..]| ==> items[1..][i] == items[i + 1];
      if HasKey(items, k) && k != k0 {
        var i :| 0 <= i < |items| && Key(items[i].sku) == k;
        assert items[1..][i - 1] == items[i];
      }
    }
  }

  lemma {:induction false} NotedAs(h: map<string, int>, items: seq<ReservationItem>, k: string)
    requires WellFormed(items)
    ensures Get(Noted(h, items), k) == if HasKey(items, k) then QtyOf(items, k) else Get(h, k)
    ensures k in Noted(h, items) <==> k in h || HasKey(items, k)
    decreases |items|
  {
    if items != [] {
      var k0 := Key(items[0].sku);
      WellFormedTail(items);
      NotedAs(h[k0 := items[0].qty], items[1..], k);
      QtyOfAbsent(items[1..], k0);
      assert forall i :: 0 <= i < |items[1..]| ==> items[1..][i] == items[i + 1];
      if HasKey(items, k) && k != k0 {
        var i :| 0 <= i < |items| && Key(items[i].sku) == k;
        assert items[1..][i - 1] == items[i];
      }
    }
  }

  lemma {:induction false} QtyOfAtKey(items: seq<ReservationItem>, i: nat)
    requires WellFormed(items) && i < |items|
    ensures QtyOf(items, Key(items[i].sku)) == items[i].qty
  {
    WellFormedTail(items);
    if i == 0 {
      QtyOfAbsent(items[1..], Key(items[0].sku));
    } else {
      QtyOfAtKey(items[1..], i - 1);
    }
  }

  lemma {:induction false} WantedItems(items: seq<Item>)
    ensures forall i :: 0 <= i < |items| ==> Wanted(items)[i] == ReservationItem(items[i].sku, items[i].qty)
  {
    if items != [] {
      WantedItems(items[1..]);
    }
  }

  predicate Covers(atp: map<string, int>, item: Item) {
    Get(atp, Key(item.sku)) >= item.qty
  }

  /** The counters are read item by item, and the first that cannot be read or does not cover its item decides. */
  lemma {:induction false} CheckAnswers(atp: map<string, int>, items: seq<Item>, i: nat, failsAt: Option<nat>)
    requires i <= |items|
    ensures var unread := failsAt.Some? && i <= failsAt.value < |items|;
            && (Check(atp, items, i, failsAt) == Allocated <==>
                  !unread && forall j :: i <= j < |items| ==> Covers(atp, items[j]))
            && (Check(atp, items, i, failsAt) == Insufficient <==>
                  exists j :: i <= j < |items| && !Covers(atp, items[j]) && (unread ==> j < failsAt.value))
    decreases |items| - i
  {
    if i < |items| {
      CheckAnswers(atp, items, i + 1, failsAt);
    }
  }

  /** Checking each item on its own is enough because no two share a counter. */
  lemma CheckedNeverOverdraws(atp: map<string, int>, items: seq<Item>, failsAt: Option<nat>, k: string)
    requires WellFormed(Wanted(items)) && Check(atp, items, 0, failsAt) == Allocated
    requires forall c :: c in atp ==> atp[c] >= 0
    ensures 0 <= QtyOf(Wanted(items), k) <= Get(atp, k)
    ensures HasKey(Wanted(items), k) ==> k in atp
  {
    WantedItems(items);
    CheckAnswers(atp, items, 0, failsAt);
    if HasKey(Wanted(items), k) {
      var i :| 0 <= i < |items| && Key(Wanted(items)[i].sku) == k;
      QtyOfAtKey(Wanted(items), i);
      assert Get(atp, Key(items[i].sku)) >= items[i].qty > 0;
    } else {
      QtyOfAbsent(Wanted(items), k);
    }
  }

  /** With a repeated SKU it is not enough: the same stock is promised twice. */
  lemma RepeatedSkuOverdraws()
    ensures var items := [Item("a", 3, 0.0), Item("a", 3, 0.0)];
            var atp := map["A" := 4];
            && Check(atp, items, 0, None) == Allocated
            && Get(Decremented(atp, Wanted(items)), "A") == -2
            && Get(Noted(map[], Wanted(items)), "A") == 3
  {
    var items := [Item("a", 3, 0.0), Item("a", 3, 0.0)];
    var atp := map["A" := 4];
    assert Key("a") == "A";
    assert Wanted(items[1..]) == [ReservationItem("a", 3)]
        && Wanted(items) == [ReservationItem("a", 3), ReservationItem("a", 3)];
    DecrementedBy(atp, Wanted(items), "A");
    assert Wanted(items)[1..] == [ReservationItem("a", 3)];
    assert Wanted(items)[1..][1..] == [];
    assert QtyOf(Wanted(items)[1..], "A") == 3;
    assert Check(atp, items, 2, None) == Allocated;
    assert Check(atp, items, 1, None) == Allocated;
    assert Noted(map["A" := 3], Wanted(items)[1..]) == map["A" := 3];
  }

  /** Giving a reservation back restores the counters exactly. */
  lemma ReleaseUndoesReserve(s: Sales, id: nat, items: seq<ReservationItem>)
    requires WellFormed(items) && id !in s.held
    requires forall k :: HasKey(items, k) ==> k in s.atp
    ensures Release(Reserve(s, id, items), id) == s
  {
    var r := Reserve(s, id, items);
    var back := Release(r, id);
    forall k
      ensures (k in back.atp <==> k in s.atp) && Get(back.atp, k) == Get(s.atp, k)
    {
      DecrementedBy(s.atp, items, k);
      NotedAs(map[], items, k);
      if !HasKey(items, k) {
        QtyOfAbsent(items, k);
      }
    }
    assert back.atp == s.atp;
    assert back.held == s.held;
  }

  // ---------------------------------------------------------------- the queue

  predicate Sorted(q: seq<Entry>) {
    forall i, j :: 0 <= i < j < |q| ==> Before(q[i], q[j])
  }

  predicate DistinctOrders(q: seq<Entry>) {
    forall i, j :: 0 <= i < j < |q| ==> q[i].orderId != q[j].orderId
  }

  lemma {:induction false} RemoveShape(q: seq<Entry>, id: nat)
    requires Sorted(q) && DistinctOrders(q)
    ensures Sorted(Remove(q, id)) && DistinctOrders(Remove(q, id))
    ensures forall e :: e in Remove(q, id) <==> e in q && e.orderId != id
  {
    if q != [] {
      assert forall i :: 0 <= i < |q[1..]| ==> q[1..][i] == q[i + 1];
      RemoveShape(q[1..], id);
      assert q == [q[0]] + q[1..];
      var r := Remove(q[1..], id);
      forall j | 0 <= j < |r|
        ensures Before(q[0], r[j]) && r[j].orderId != q[0].orderId
      {
        assert r[j] in r && r[j] in q[1..];
      }
    }
  }

  lemma {:induction false} InsertShape(q: seq<Entry>, e: Entry)
    requires Sorted(q) && DistinctOrders(q) && forall x :: x in q ==> x.orderId != e.orderId
    ensures Sorted(Insert(q, e)) && DistinctOrders(Insert(q, e))
    ensures forall x :: x in Insert(q, e) <==> x in q || x == e
  {
    if q == [] || Before(e, q[0]) {
    } else {
      assert forall i :: 0 <= i < |q[1..]| ==> q[1..][i] == q[i + 1];
      InsertShape(q[1..], e);
      var r := Insert(q[1..], e);
      assert forall x :: x in r ==> Before(q[0], x) && x.orderId != q[0].orderId;
      assert Insert(q, e) == [q[0]] + r;
    }
  }

  lemma EnqueueShape(q: seq<Entry>, e: Entry)
    requires Sorted(q) && DistinctOrders(q)
    ensures Sorted(Enqueue(q, e)) && DistinctOrders(Enqueue(q, e))
    ensures forall x :: x in Enqueue(q, e) <==> (x in q && x.orderId != e.orderId) || x == e
  {
    RemoveShape(q, e.orderId);
    InsertShape(Remove(q, e.orderId), e);
  }

  lemma {:induction false} EnqueueAllShape(q: seq<Entry>, es: seq<Entry>)
    requires Sorted(q) && DistinctOrders(q)
    ensures Sorted(EnqueueAll(q, es)) && DistinctOrders(EnqueueAll(q, es))
    ensures forall x :: x in EnqueueAll(q, es) ==> x in q || x in es
    decreases |es|
  {
    if es != [] {
      EnqueueShape(q, es[0]);
      EnqueueAllShape(Enqueue(q, es[0]), es[1..]);
    }
  }

  lemma {:induction false} PendingEntriesAre(orders: map<nat, Order>, rows: seq<nat>)
    ensures forall e :: e in PendingEntries(orders, rows) ==>
              e.orderId in orders && orders[e.orderId].status == Pending && e == EntryOf(e.orderId, orders[e.orderId])
  {
    if rows != [] {
      PendingEntriesAre(orders, rows[1..]);
    }
  }

  // ---------------------------------------------------------------- the invariant

  ghost predicate BooksAgree(s: Sales) {
    && (forall id :: id in s.orders ==> (s.orders[id].locked <==> s.orders[id].status == Processing))
    && (forall id :: id in s.held <==> id in s.orders && s.orders[id].status == Processing)
    && (forall id :: HasReservation(s.reservations, id) <==> id in s.orders && s.orders[id].status == Processing)
    && (forall i, j :: 0 <= i < j < |s.reservations| ==> s.reservations[i].orderId != s.reservations[j].orderId)
  }

  ghost predicate QueueIsPending(s: Sales) {
    && Sorted(s.queue) && DistinctOrders(s.queue)
    && forall e :: e in s.queue ==> e.orderId in s.orders && s.orders[e.orderId].status == Pending
  }

  ghost predicate StockIsSound(s: Sales) {
    && (forall k :: k in s.atp ==> s.atp[k] >= 0)
    && (forall id :: id in s.orders ==> WellFormed(Wanted(s.orders[id].items)))
  }

  ghost predicate Inv(s: Sales) {
    BooksAgree(s) && QueueIsPending(s) && StockIsSound(s)
  }

  /** Counter plus reservations of a key: what the run invariant keeps constant. */
  function Promised(s: Sales, k: string): int {
    Get(s.atp, k) + Reserved(s.reservations, k)
  }

  ghost predicate OnlyDeclaredChanges(before: map<nat, Order>, after: map<nat, Order>) {
    forall id :: id in before ==>
      && id in after
      && (after[id].status == before[id].status || CanTransitionTo(before[id].status, after[id].status))
  }

  // ---------------------------------------------------------------- allocation

  lemma {:induction false} ReservedAppend(rs: seq<Reservation>, r: Reservation, k: string)
    ensures Reserved(rs + [r], k) == Reserved(rs, k) + QtyOf(r.items, k)
  {
    if rs == [] {
      assert rs + [r] == [r];
    } else {
      TailOfSum(rs, [r]);
      ReservedAppend(rs[1..], r, k);
    }
  }

  lemma {:induction false} RemovingTheLastReservation(rs: seq<Reservation>, r: Reservation)
    requires !HasReservation(rs, r.orderId)
    ensures WithoutReservation(rs + [r], r.orderId) == rs
  {
    if rs == [] {
      assert rs + [r] == [r];
    } else {
      assert rs[0].orderId != r.orderId;
      TailOfSum(rs, [r]);
      assert forall i :: 0 <= i < |rs[1..]| ==> rs[1..][i] == rs[i + 1];
      RemovingTheLastReservation(rs[1..], r);
    }
  }

  predicate Compensates(f: AllocFaults) {
    !f.releaseFails && !f.deleteFails
  }

  predicate Books(s: Sales, id: nat, f: AllocFaults) {
    && id != 0 && id in s.orders && !f.lookupFails
    && Check(s.atp, s.orders[id].items, 0, f.atpFailsAt) == Allocated
    && !f.reserveFails && !f.createFails && !HasReservation(s.reservations, id) && !f.updateFails
  }

  lemma WantedKeysPresent(s: Sales, id: nat, f: AllocFaults)
    requires StockIsSound(s) && id in s.orders
    requires Check(s.atp, s.orders[id].items, 0, f.atpFailsAt) == Allocated
    ensures forall k :: HasKey(Wanted(s.orders[id].items), k) ==> k in s.atp
  {
    forall k | HasKey(Wanted(s.orders[id].items), k)
      ensures k in s.atp
    {
      CheckedNeverOverdraws(s.atp, s.orders[id].items, f.atpFailsAt, k);
    }
  }

  /** Every failing exit up to and including the order update restores everything. */
  lemma FailedAllocRestores(s: Sales, id: nat, f: AllocFaults)
    requires BooksAgree(s) && StockIsSound(s) && Compensates(f)
    requires id in s.orders ==> s.orders[id].status == Pending
    requires !Books(s, id, f)
    ensures AfterAlloc(s, id, f) == s
  {
    if id == 0 || id !in s.orders || f.lookupFails
       || Check(s.atp, s.orders[id].items, 0, f.atpFailsAt) != Allocated || f.reserveFails {
    } else {
      var items := Wanted(s.orders[id].items);
      WantedKeysPresent(s, id, f);
      ReleaseUndoesReserve(s, id, items);
      RemovingTheLastReservation(s.reservations, Reservation(id, items));
    }
  }

  lemma BookedBalance(s: Sales, id: nat, f: AllocFaults, k: string)
    requires BooksAgree(s) && StockIsSound(s) && Books(s, id, f)
    ensures Promised(AfterAlloc(s, id, f), k) == Promised(s, k)
    ensures 0 <= Get(AfterAlloc(s, id, f).atp, k) <= Get(s.atp, k)
  {
    var items := Wanted(s.orders[id].items);
    DecrementedBy(s.atp, items, k);
    ReservedAppend(s.reservations, Reservation(id, items), k);
    CheckedNeverOverdraws(s.atp, s.orders[id].items, f.atpFailsAt, k);
  }

  lemma OneMoreReservation(rs: seq<Reservation>, r: Reservation)
    ensures forall x :: HasReservation(rs + [r], x) <==> HasReservation(rs, x) || x == r.orderId
  {
    forall x
      ensures HasReservation(rs + [r], x) <==> HasReservation(rs, x) || x == r.orderId
    {
      if HasReservation(rs, x) {
        var i :| 0 <= i < |rs| && rs[i].orderId == x;
        assert (rs + [r])[i].orderId == x;
      }
      assert (rs + [r])[|rs|].orderId == r.orderId;
    }
  }

  lemma BookedKeepsBooks(s: Sales, id: nat, f: AllocFaults)
    requires BooksAgree(s) && StockIsSound(s) && Books(s, id, f) && s.orders[id].status == Pending
    ensures BooksAgree(AfterAlloc(s, id, f)) && StockIsSound(AfterAlloc(s, id, f))
  {
    var s' := AfterAlloc(s, id, f);
    var r := Reservation(id, Wanted(s.orders[id].items));
    assert BooksAgree(s') by {
      assert s'.reservations == s.reservations + [r];
      OneMoreReservation(s.reservations, r);
    }
    forall k | k in s'.atp
      ensures s'.atp[k] >= 0
    {
      BookedBalance(s, id, f, k);
      assert Get(s'.atp, k) == s'.atp[k];
    }
  }

  lemma BookedKeepsQueue(s: Sales, id: nat, f: AllocFaults)
    requires QueueIsPending(s) && Books(s, id, f) && s.orders[id].status == Pending
    requires forall e :: e in s.queue ==> e.orderId != id
    ensures QueueIsPending(AfterAlloc(s, id, f)) && OnlyDeclaredChanges(s.orders, AfterAlloc(s, id, f).orders)
    ensures AfterAlloc(s, id, f).rows == s.rows && AfterAlloc(s, id, f).orders.Keys == s.orders.Keys
  {
  }

  /** Allocating a pending order that has left the queue keeps the invariant and every balance. */
  lemma AllocKeepsInv(s: Sales, id: nat, f: AllocFaults)
    requires Inv(s) && Compensates(f)
    requires id in s.orders && s.orders[id].status == Pending
    requires forall e :: e in s.queue ==> e.orderId != id
    ensures Inv(AfterAlloc(s, id, f)) && OnlyDeclaredChanges(s.orders, AfterAlloc(s, id, f).orders)
    ensures forall k :: Promised(AfterAlloc(s, id, f), k) == Promised(s, k)
    ensures AllocOutcome(s, id, f) == Insufficient ==> AfterAlloc(s, id, f) == s
    ensures AfterAlloc(s, id, f).rows == s.rows && AfterAlloc(s, id, f).orders.Keys == s.orders.Keys
  {
    if Books(s, id, f) {
      forall k {
        BookedBalance(s, id, f, k);
      }
      BookedKeepsBooks(s, id, f);
      BookedKeepsQueue(s, id, f);
    } else {
      FailedAllocRestores(s, id, f);
    }
  }
}
