/**
 Runs of the sales services: placing, editing and cancelling orders, showing the queue and working it
 off, in any order and with any failures the compensations can make good.
 */
module SalesRuns {
  import opened Options
  import opened Text
  import opened SalesModel
  import opened SalesLaws

  datatype Step =
    | Create(id: nat, request: CreateRequest, catalogue: Catalogue, now: nat, faults: CreateFaults)
    | Update(id: nat, change: UpdateRequest, catalogue: Catalogue, updateFaults: UpdateFaults)
    | Cancel(id: nat, updateFails: bool, clearFails: bool)
    | ShowQueue(listFails: bool, rebuild: RebuildFault)
    | Process(listFails: bool, rebuild: RebuildFault, allocs: seq<AllocFaults>)

  function Apply(s: Sales, step: Step): Sales {
    match step
    case Create(id, r, c, now, f) => AfterCreate(s, id, r, c, now, f)
    case Update(id, r, c, f) => AfterUpdate(s, id, r, c, f)
    case Cancel(id, updateFails, clearFails) => AfterCancel(s, id, updateFails, clearFails)
    case ShowQueue(listFails, f) => AfterShow(s, listFails, f)
    case Process(listFails, rf, fs) => AfterProcess(s, listFails, rf, fs)
  }

  /** New ids are fresh, compensations go through, and a cancellation clears the queue. */
  predicate Reliable(s: Sales, step: Step) {
    match step
    case Create(id, _, _, _, _) => id !in s.orders && id != 0
    case Update(_, _, _, _) => true
    case Cancel(_, _, clearFails) => !clearFails
    case ShowQueue(_, _) => true
    case Process(_, _, fs) => forall f :: f in fs ==> Compensates(f)
  }

  ghost predicate Kept(s: Sales, s': Sales) {
    Inv(s') && OnlyDeclaredChanges(s.orders, s'.orders) && forall k :: Promised(s', k) == Promised(s, k)
  }

  // ---------------------------------------------------------------- each operation

  predicate Offers(q: seq<Entry>, orders: map<nat, Order>) {
    && Sorted(q) && DistinctOrders(q)
    && forall e :: e in q ==> e.orderId in orders && orders[e.orderId].status == Pending
  }

  lemma QueueReplaced(s: Sales, q: seq<Entry>)
    requires Inv(s) && Offers(q, s.orders)
    ensures Kept(s, s.(queue := q))
  {
  }

  /** Writing an order that is pending or new, to a state that is neither locked nor reserved. */
  lemma OrderWritten(s: Sales, id: nat, o: Order, rows: seq<nat>, q: seq<Entry>)
    requires Inv(s)
    requires id !in s.orders || s.orders[id].status == Pending
    requires !o.locked && (o.status == Pending || o.status == Cancelled) && WellFormed(Wanted(o.items))
    requires Offers(q, s.orders[id := o])
    ensures Kept(s, s.(orders := s.orders[id := o], rows := rows, queue := q))
  {
    BooksWritten(s, id, o);
    assert OnlyDeclaredChanges(s.orders, s.orders[id := o]);
    KeptByOrders(s, s.orders[id := o], rows, q);
  }

  lemma KeptByOrders(s: Sales, orders: map<nat, Order>, rows: seq<nat>, q: seq<Entry>)
    requires OnlyDeclaredChanges(s.orders, orders) && Offers(q, orders)
    requires BooksAgree(s.(orders := orders)) && StockIsSound(s.(orders := orders))
    ensures Kept(s, s.(orders := orders, rows := rows, queue := q))
  {
  }

  lemma BooksWritten(s: Sales, id: nat, o: Order)
    requires BooksAgree(s) && StockIsSound(s)
    requires id !in s.orders || s.orders[id].status == Pending
    requires !o.locked && (o.status == Pending || o.status == Cancelled) && WellFormed(Wanted(o.items))
    ensures BooksAgree(s.(orders := s.orders[id := o])) && StockIsSound(s.(orders := s.orders[id := o]))
  {
    assert !HasReservation(s.reservations, id) && id !in s.held;
  }

  lemma RebuildKeeps(s: Sales, f: RebuildFault)
    requires Inv(s)
    ensures Kept(s, Rebuilt(s, f))
    ensures Rebuilt(s, f).orders == s.orders
  {
    var es := PendingEntries(s.orders, s.rows);
    PendingEntriesAre(s.orders, s.rows);
    if f.ReadFails? {
      QueueReplaced(s, s.queue);
    } else {
      var some := if f.EnqueueFails? && f.at < |es| then es[..f.at] else es;
      EnqueueAllShape([], some);
      QueueReplaced(s, EnqueueAll([], some));
    }
  }

  lemma PopKeeps(s: Sales)
    requires Inv(s) && s.queue != []
    ensures Kept(s, Popped(s))
    ensures s.queue[0].orderId in s.orders && s.orders[s.queue[0].orderId].status == Pending
    ensures forall e :: e in Popped(s).queue ==> e.orderId != s.queue[0].orderId
  {
    assert forall i :: 0 <= i < |s.queue[1..]| ==> s.queue[1..][i] == s.queue[i + 1];
    assert s.queue[0] in s.queue;
    QueueReplaced(s, s.queue[1..]);
  }

  lemma HeadRequeued(s: Sales)
    requires Inv(s) && s.queue != []
    ensures Kept(s, Popped(s).(queue := Enqueue(Popped(s).queue, s.queue[0])))
  {
    PopKeeps(s);
    ReinsertFirst(s.queue);
    QueueReplaced(s, s.queue);
  }

  lemma KeptTransitive(a: Sales, b: Sales, c: Sales)
    requires Kept(a, b) && Kept(b, c) && OnlyDeclaredChanges(a.orders, c.orders)
    ensures Kept(a, c)
  {
    forall k
      ensures Promised(c, k) == Promised(a, k)
    {
      assert Promised(b, k) == Promised(a, k);
    }
  }

  /** What a drain from s to t guarantees. */
  ghost predicate Drained(s: Sales, t: Sales) {
    Kept(s, t) && LeavesSettledAlone(s.orders, t.orders)
  }

  ghost predicate LeavesSettledAlone(before: map<nat, Order>, after: map<nat, Order>) {
    && after.Keys == before.Keys
    && forall id :: id in before && before[id].status != Pending ==> after[id] == before[id]
  }

  /** What one allocation of a drain, of order head, guarantees. */
  ghost predicate Allocates(s: Sales, s': Sales, head: nat) {
    Kept(s, s') && MovesOnly(s.orders, s'.orders, head)
  }

  ghost predicate MovesOnly(before: map<nat, Order>, after: map<nat, Order>, head: nat) {
    && head in before && before[head].status == Pending
    && after.Keys == before.Keys && after[head].status == Processing
    && forall id :: id in before && id != head ==> after[id] == before[id]
  }

  lemma OrdersCompose(a: map<nat, Order>, b: map<nat, Order>, c: map<nat, Order>, head: nat)
    requires MovesOnly(a, b, head) && LeavesSettledAlone(b, c) && OnlyDeclaredChanges(b, c)
    ensures OnlyDeclaredChanges(a, c) && LeavesSettledAlone(a, c) && c[head].status == Processing
  {
  }

  lemma AllocatesThenDrains(s: Sales, s': Sales, head: nat, t: Sales)
    requires Allocates(s, s', head) && Drained(s', t)
    ensures Drained(s, t)
    ensures head in t.orders && t.orders[head].status == Processing
  {
    OrdersCompose(s.orders, s'.orders, t.orders, head);
    KeptTransitive(s, s', t);
  }

  lemma HeadAllocates(s: Sales, f: AllocFaults)
    requires Inv(s) && s.queue != [] && Compensates(f) && HeadOutcome(s, f) == Allocated
    ensures Allocates(s, AfterHead(s, f), s.queue[0].orderId)
  {
    var head := s.queue[0].orderId;
    PopKeeps(s);
    AllocatedHeadLeaves(s, f);
    AllocKeepsInv(Popped(s), head, f);
    AllocatedMovesOnly(Popped(s), head, f);
    assert Popped(s).orders == s.orders;
    KeptTransitive(s, Popped(s), AfterHead(s, f));
  }

  lemma AllocatedMovesOnly(s: Sales, id: nat, f: AllocFaults)
    requires AllocOutcome(s, id, f) == Allocated && s.orders[id].status == Pending
    ensures MovesOnly(s.orders, AfterAlloc(s, id, f).orders, id)
  {
  }

  /** A head that is not allocated still keeps everything: it is dropped, booked without a manifest, or put back. */
  lemma HeadStops(s: Sales, f: AllocFaults)
    requires Inv(s) && s.queue != [] && Compensates(f) && HeadOutcome(s, f) != Allocated
    ensures Drained(s, AfterHead(s, f))
  {
    var head := s.queue[0].orderId;
    PopKeeps(s);
    assert Popped(s).orders == s.orders;
    match f.dequeue
    case PopFails =>
    case PayloadFails =>
    case Dequeues =>
      AllocKeepsInv(Popped(s), head, f);
      OthersLeftAlone(Popped(s), head, f);
      if HeadOutcome(s, f) == Insufficient {
        HeadRequeued(s);
      } else {
        KeptTransitive(s, Popped(s), AfterHead(s, f));
      }
  }

  lemma OthersLeftAlone(s: Sales, id: nat, f: AllocFaults)
    ensures id in s.orders && s.orders[id].status == Pending ==>
            LeavesSettledAlone(s.orders, AfterAlloc(s, id, f).orders)
  {
  }

  /** A drain keeps everything, and leaves orders that are not pending alone. */
  lemma {:induction false} ProcessedKeeps(s: Sales, fs: seq<AllocFaults>)
    requires Inv(s) && forall f :: f in fs ==> Compensates(f)
    ensures Drained(s, Processed(s, fs))
    decreases |s.queue|
  {
    if s.queue == [] {
      assert Processed(s, fs) == s;
    } else if HeadOutcome(s, FaultsAt(fs)) == Allocated {
      HeadAllocates(s, FaultsAt(fs));
      AllocatedHeadLeaves(s, FaultsAt(fs));
      ProcessedKeeps(AfterHead(s, FaultsAt(fs)), Rest(fs));
      AllocatesThenDrains(s, AfterHead(s, FaultsAt(fs)), s.queue[0].orderId, Processed(s, fs));
    } else {
      HeadStops(s, FaultsAt(fs));
    }
  }

  lemma RefilledKeeps(s: Sales, rf: RebuildFault)
    requires Inv(s)
    ensures Kept(s, Refilled(s, rf)) && Refilled(s, rf).orders == s.orders
  {
    RebuildKeeps(s, rf);
  }

  lemma ProcessKeeps(s: Sales, listFails: bool, rf: RebuildFault, fs: seq<AllocFaults>)
    requires Inv(s) && forall f :: f in fs ==> Compensates(f)
    ensures Kept(s, AfterProcess(s, listFails, rf, fs))
  {
    RefilledKeeps(s, rf);
    if Drains(s, listFails, rf) {
      ProcessedKeeps(Refilled(s, rf), fs);
      KeptTransitive(s, Refilled(s, rf), AfterProcess(s, listFails, rf, fs));
    }
  }

  lemma {:induction false} ValidatedItems(items: seq<RequestItem>, seen: set<string>, c: Catalogue)
    requires Validate(items, seen, c).Valid?
    ensures var out := Validate(items, seen, c).items;
            && |out| == |items|
            && (forall i :: 0 <= i < |out| ==> out[i].sku == Trim(items[i].sku) && out[i].qty == items[i].qty > 0)
            && (forall i :: 0 <= i < |out| ==> Upper(out[i].sku) !in seen)
            && (forall i, j :: 0 <= i < j < |out| ==> Upper(out[i].sku) != Upper(out[j].sku))
    decreases |items|
  {
    if items != [] {
      var out := Validate(items, seen, c).items;
      var seen' := seen + {Upper(Trim(items[0].sku))};
      var rest := Validate(items[1..], seen', c).items;
      ValidatedItems(items[1..], seen', c);
      assert out[1..] == rest;
      assert forall i :: 0 < i < |out| ==> out[i] == rest[i - 1] && items[i] == items[1..][i - 1];
    }
  }

  /** Accepted items share no counter and are all positive. */
  lemma ValidatedIsWellFormed(items: seq<RequestItem>, c: Catalogue)
    requires Validate(items, {}, c).Valid?
    ensures WellFormed(Wanted(Validate(items, {}, c).items))
  {
    var out := Validate(items, {}, c).items;
    ValidatedItems(items, {}, c);
    WantedItems(out);
    forall i | 0 <= i < |out|
      ensures Key(Wanted(out)[i].sku) == Upper(out[i].sku)
    {
      KeyOfStored(items[i].sku);
    }
  }

  lemma PrefixWellFormed(items: seq<Item>, f: Option<nat>)
    requires WellFormed(Wanted(items))
    ensures WellFormed(Wanted(Stored(items, f)))
  {
    WantedItems(items);
    WantedItems(Stored(items, f));
    assert forall i :: 0 <= i < |Stored(items, f)| ==> Wanted(Stored(items, f))[i] == Wanted(items)[i];
  }

  lemma CreateKeeps(s: Sales, id: nat, r: CreateRequest, c: Catalogue, now: nat, f: CreateFaults)
    requires Inv(s) && id !in s.orders && id != 0
    ensures Kept(s, AfterCreate(s, id, r, c, now, f))
  {
    if Accepts(r, c) && !f.clientFails && !f.orderFails {
      var o := NewOrder(r, c, now, f);
      ValidatedIsWellFormed(r.items, c);
      PrefixWellFormed(Validate(r.items, {}, c).items, f.itemFailsAt);
      EnqueueShape(s.queue, EntryOf(id, o));
      OrderWritten(s, id, o, s.rows + [id], AfterCreate(s, id, r, c, now, f).queue);
    }
  }

  lemma UpdateKeeps(s: Sales, id: nat, r: UpdateRequest, c: Catalogue, f: UpdateFaults)
    requires Inv(s)
    ensures Kept(s, AfterUpdate(s, id, r, c, f))
  {
    if Updates(s, id, r, c) && !(r.items != [] && f.replaceFails) {
      if r.items != [] {
        ValidatedIsWellFormed(r.items, c);
      }
      var s' := AfterUpdate(s, id, r, c, f);
      OrderWritten(s, id, s'.orders[id], s.rows, s'.queue);
    }
  }

  lemma CancelKeeps(s: Sales, id: nat, updateFails: bool)
    requires Inv(s)
    ensures Kept(s, AfterCancel(s, id, updateFails, false))
  {
    if Editable(s, id) && !updateFails {
      OrderWritten(s, id, s.orders[id].(status := Cancelled), s.rows, []);
    }
  }

  lemma StepKeeps(s: Sales, step: Step)
    requires Inv(s) && Reliable(s, step)
    ensures Kept(s, Apply(s, step))
  {
    match step
    case Create(id, r, c, now, f) => CreateKeeps(s, id, r, c, now, f);
    case Update(id, r, c, f) => UpdateKeeps(s, id, r, c, f);
    case Cancel(id, updateFails, _) => CancelKeeps(s, id, updateFails);
    case ShowQueue(_, f) => RefilledKeeps(s, f);
    case Process(listFails, rf, fs) => ProcessKeeps(s, listFails, rf, fs);
  }

  // ---------------------------------------------------------------- runs

  function Run(s: Sales, steps: seq<Step>): Sales
    decreases |steps|
  {
    if steps == [] then s else Run(Apply(s, steps[0]), steps[1..])
  }

  predicate AllReliable(s: Sales, steps: seq<Step>)
    decreases |steps|
  {
    steps == [] || (Reliable(s, steps[0]) && AllReliable(Apply(s, steps[0]), steps[1..]))
  }

  /** In every run each key's counter plus its reservations stays what it was and the counter is never
      negative; orders are reserved, locked and processing together; the queue holds pending orders once each. */
  lemma {:induction false} RunKeepsPromises(s: Sales, steps: seq<Step>)
    requires Inv(s) && AllReliable(s, steps)
    ensures Inv(Run(s, steps))
    ensures forall k :: Promised(Run(s, steps), k) == Promised(s, k)
    ensures forall k :: 0 <= Get(Run(s, steps).atp, k)
    decreases |steps|
  {
    if steps != [] {
      StepKeeps(s, steps[0]);
      RunKeepsPromises(Apply(s, steps[0]), steps[1..]);
    }
  }

  /** Every status an order passes through in a run is reached by declared transitions, one per step. */
  lemma {:induction false} RunFollowsDeclaredTransitions(s: Sales, steps: seq<Step>, i: nat)
    requires Inv(s) && AllReliable(s, steps) && i < |steps|
    ensures OnlyDeclaredChanges(Run(s, steps[..i]).orders, Run(s, steps[..i + 1]).orders)
    decreases |steps|
  {
    StepKeeps(s, steps[0]);
    var s' := Apply(s, steps[0]);
    if i == 0 {
      assert steps[..1][1..] == [];
      assert Run(s', []) == s';
      assert Run(s, steps[..1]) == Run(s', steps[..1][1..]);
    } else {
      RunFollowsDeclaredTransitions(s', steps[1..], i - 1);
      assert steps[..i][1..] == steps[1..][..i - 1];
      assert steps[..i + 1][1..] == steps[1..][..i];
    }
  }

  /** The service starts with no orders and any stock, and that is a sound state. */
  lemma FreshStateIsSound(atp: map<string, int>)
    requires forall k :: k in atp ==> atp[k] >= 0
    ensures Inv(Sales(map[], [], [], atp, map[], []))
  {
  }

  // ---------------------------------------------------------------- what a run hands out

  /** The i-th order of the queue is handed out: pending before, processing and reserved after. */
  ghost predicate HandedOut(s: Sales, t: Sales, i: nat, m: Manifest) {
    && i < |s.queue|
    && var id := s.queue[i].orderId;
    && id in s.orders && id in t.orders
    && m.orderId == id && m.client == s.orders[id].client && m.address == s.orders[id].address
    && |m.items| == |s.orders[id].items|
    && (forall j :: 0 <= j < |m.items| ==>
          m.items[j] == ReservationItem(s.orders[id].items[j].sku, s.orders[id].items[j].qty))
    && s.orders[id].status == Pending && t.orders[id].status == Processing
    && HasReservation(t.reservations, id)
  }

  lemma HandedOutLater(s: Sales, s': Sales, t: Sales, i: nat, m: Manifest)
    requires Inv(s) && s.queue != [] && i > 0 && Allocates(s, s', s.queue[0].orderId) && s'.queue == s.queue[1..]
    requires HandedOut(s', t, i - 1, m)
    ensures HandedOut(s, t, i, m)
  {
    assert s.queue[i] == s'.queue[i - 1];
  }

  lemma HandedOutFirst(s: Sales, s': Sales, t: Sales)
    requires Inv(s) && s.queue != [] && Allocates(s, s', s.queue[0].orderId) && Drained(s', t)
    ensures s.queue[0].orderId in s.orders
    ensures HandedOut(s, t, 0, ManifestOf(s, s.queue[0].orderId))
  {
    AllocatesThenDrains(s, s', s.queue[0].orderId, t);
    WantedItems(s.orders[s.queue[0].orderId].items);
  }

  /** The first manifest is that of the head of the queue; the others are those of the drain that goes on. */
  lemma FirstManifest(s: Sales, fs: seq<AllocFaults>)
    requires Inv(s) && (forall f :: f in fs ==> Compensates(f)) && Manifests(s, fs) != []
    ensures s.queue != [] && Allocates(s, AfterHead(s, FaultsAt(fs)), s.queue[0].orderId)
    ensures var s' := AfterHead(s, FaultsAt(fs));
            && s'.queue == s.queue[1..] && Processed(s, fs) == Processed(s', Rest(fs))
            && Manifests(s, fs)[0] == ManifestOf(s, s.queue[0].orderId)
            && Manifests(s, fs)[1..] == Manifests(s', Rest(fs))
    ensures forall f :: f in Rest(fs) ==> Compensates(f)
  {
    HeadAllocates(s, FaultsAt(fs));
    AllocatedHeadLeaves(s, FaultsAt(fs));
  }

  /** Manifests come out in queue order, oldest order first, each for an order that moved from pending to
      processing and holds a reservation afterwards. */
  lemma {:induction false} DrainHandsOutInOrder(s: Sales, fs: seq<AllocFaults>, i: nat)
    requires Inv(s) && (forall f :: f in fs ==> Compensates(f)) && i < |Manifests(s, fs)|
    ensures HandedOut(s, Processed(s, fs), i, Manifests(s, fs)[i])
    decreases |s.queue|
  {
    var s' := AfterHead(s, FaultsAt(fs));
    FirstManifest(s, fs);
    if i > 0 {
      DrainHandsOutInOrder(s', Rest(fs), i - 1);
      HandedOutLater(s, s', Processed(s, fs), i, Manifests(s, fs)[i]);
    } else {
      ProcessedKeeps(s', Rest(fs));
      HandedOutFirst(s, s', Processed(s, fs));
    }
  }

  /** A drained queue without faults stops only for lack of stock: either everything was allocated, or the
      first order left is one whose items the counters do not cover. */
  lemma {:induction false} DrainStopsOnlyForStock(s: Sales)
    requires Inv(s) && 0 !in s.orders
    ensures var s' := Processed(s, []);
            s'.queue != [] ==>
              && s'.queue[0].orderId in s'.orders
              && Check(s'.atp, s'.orders[s'.queue[0].orderId].items, 0, None) == Insufficient
    decreases |s.queue|
  {
    if s.queue != [] {
      var head := s.queue[0].orderId;
      assert s.queue[0] in s.queue;
      PopKeeps(s);
      CheckAnswers(s.atp, s.orders[head].items, 0, None);
      assert !HasReservation(s.reservations, head);
      if HeadOutcome(s, NO_ALLOC_FAULTS) == Allocated {
        HeadAllocates(s, NO_ALLOC_FAULTS);
        AllocatedHeadLeaves(s, NO_ALLOC_FAULTS);
        DrainStopsOnlyForStock(AfterHead(s, NO_ALLOC_FAULTS));
      } else {
        ReinsertFirst(s.queue);
      }
    }
  }

  lemma {:induction false} RemoveAbsent(q: seq<Entry>, id: nat)
    requires forall e :: e in q ==> e.orderId != id
    ensures Remove(q, id) == q
  {
    if q != [] {
      RemoveAbsent(q[1..], id);
    }
  }

  /** Putting the head back restores the queue: it keeps its place in front. */
  lemma ReinsertFirst(q: seq<Entry>)
    requires Sorted(q) && DistinctOrders(q) && q != []
    ensures Enqueue(q[1..], q[0]) == q
  {
    forall e | e in q[1..]
      ensures e.orderId != q[0].orderId
    {
      var i :| 0 <= i < |q[1..]| && q[1..][i] == e;
      assert q[i + 1] == e;
    }
    RemoveAbsent(q[1..], q[0].orderId);
    assert q[1..] != [] ==> q[1..][0] == q[1];
  }

  // ---------------------------------------------------------------- nothing is allocated twice

  /** How often a drain books the order: reserves its items, writes the reservation and marks it processing. */
  function BookedIn(s: Sales, fs: seq<AllocFaults>, id: nat): nat
    decreases |s.queue|
  {
    if s.queue == [] then 0
    else
      var f := FaultsAt(fs);
      (if f.dequeue == Dequeues && s.queue[0].orderId == id && Books(Popped(s), id, f) then 1 else 0)
      + (if HeadOutcome(s, f) == Allocated then BookedIn(AfterHead(s, f), Rest(fs), id) else 0)
  }

  function BookedBy(s: Sales, step: Step, id: nat): nat {
    match step
    case Process(listFails, rf, fs) => if Drains(s, listFails, rf) then BookedIn(Refilled(s, rf), fs, id) else 0
    case _ => 0
  }

  function AllocCount(s: Sales, steps: seq<Step>, id: nat): nat
    decreases |steps|
  {
    if steps == [] then 0 else BookedBy(s, steps[0], id) + AllocCount(Apply(s, steps[0]), steps[1..], id)
  }

  /** The order does not exist yet, or is pending. */
  predicate MayBook(orders: map<nat, Order>, id: nat) {
    id !in orders || orders[id].status == Pending
  }

  lemma BookedHeadIsProcessing(s: Sales, id: nat, f: AllocFaults)
    requires Books(s, id, f)
    ensures id in AfterAlloc(s, id, f).orders && AfterAlloc(s, id, f).orders[id].status == Processing
  {
  }

  /** What a drain does to the orders once its head is allocated. */
  lemma DrainGoesOn(s: Sales, fs: seq<AllocFaults>)
    requires Inv(s) && (forall f :: f in fs ==> Compensates(f)) && s.queue != []
    requires HeadOutcome(s, FaultsAt(fs)) == Allocated
    ensures var s' := AfterHead(s, FaultsAt(fs));
            && Inv(s') && s'.queue == s.queue[1..]
            && MovesOnly(s.orders, s'.orders, s.queue[0].orderId)
            && LeavesSettledAlone(s'.orders, Processed(s, fs).orders)
    ensures forall f :: f in Rest(fs) ==> Compensates(f)
  {
    HeadAllocates(s, FaultsAt(fs));
    AllocatedHeadLeaves(s, FaultsAt(fs));
    ProcessedKeeps(AfterHead(s, FaultsAt(fs)), Rest(fs));
  }

  /** A drain books an order at most once, and only a pending one, which it leaves processing. */
  lemma {:induction false} DrainBooksOnce(s: Sales, fs: seq<AllocFaults>, id: nat)
    requires Inv(s) && forall f :: f in fs ==> Compensates(f)
    ensures BookedIn(s, fs, id) <= if id in s.orders && s.orders[id].status == Pending then 1 else 0
    ensures BookedIn(s, fs, id) > 0 ==> !MayBook(Processed(s, fs).orders, id)
    decreases |s.queue|
  {
    if s.queue != [] {
      var f, head := FaultsAt(fs), s.queue[0].orderId;
      PopKeeps(s);
      if HeadOutcome(s, f) == Allocated {
        DrainGoesOn(s, fs);
        DrainBooksOnce(AfterHead(s, f), Rest(fs), id);
      } else if Books(Popped(s), head, f) {
        BookedHeadIsProcessing(Popped(s), head, f);
      }
    }
  }

  lemma StepBooksOnce(s: Sales, step: Step, id: nat)
    requires Inv(s) && Reliable(s, step)
    ensures BookedBy(s, step, id) <= if MayBook(s.orders, id) then 1 else 0
    ensures BookedBy(s, step, id) > 0 ==> !MayBook(Apply(s, step).orders, id)
  {
    if step.Process? && Drains(s, step.listFails, step.rebuild) {
      RefilledKeeps(s, step.rebuild);
      DrainBooksOnce(Refilled(s, step.rebuild), step.allocs, id);
    }
  }

  /** In any run an order is allocated at most once, and not at all once it has left pending. */
  lemma {:induction false} AllocatedAtMostOnce(s: Sales, steps: seq<Step>, id: nat)
    requires Inv(s) && AllReliable(s, steps)
    ensures AllocCount(s, steps, id) <= if MayBook(s.orders, id) then 1 else 0
    decreases |steps|
  {
    if steps != [] {
      StepKeeps(s, steps[0]);
      StepBooksOnce(s, steps[0], id);
      AllocatedAtMostOnce(Apply(s, steps[0]), steps[1..], id);
    }
  }

  // ---------------------------------------------------------------- what the reliability conditions rule out

  predicate Queued(q: seq<Entry>, id: nat) {
    exists e :: e in q && e.orderId == id
  }

  /** A cancellation keeps the invariant unless it goes through, leaves the queue standing, and the order is queued:
      allocation looks at no status, so that order is then allocated although cancelled. */
  lemma CancelKeepsInvIff(s: Sales, id: nat, updateFails: bool, clearFails: bool)
    requires Inv(s)
    ensures Inv(AfterCancel(s, id, updateFails, clearFails))
       <==> !(Editable(s, id) && !updateFails && clearFails && Queued(s.queue, id))
  {
    if Editable(s, id) && !updateFails {
      var s' := AfterCancel(s, id, updateFails, clearFails);
      if clearFails && Queued(s.queue, id) {
        var e :| e in s.queue && e.orderId == id;
        assert e in s'.queue && s'.orders[id].status == Cancelled;
      } else {
        OrderWritten(s, id, s.orders[id].(status := Cancelled), s.rows, s'.queue);
      }
    }
  }

  /** What becomes of the order then: at the head of the queue, with its items covered, it goes from cancelled to
      processing, which is not a declared transition. */
  lemma CancelledOrderIsAllocated(s: Sales, id: nat)
    requires Inv(s) && Editable(s, id) && s.queue != [] && s.queue[0].orderId == id
    requires Check(s.atp, s.orders[id].items, 0, None) == Allocated
    ensures var s1 := AfterCancel(s, id, false, true);
            && CancelOutcome(s, id, false) == Ok
            && s1.orders[id].status == Cancelled
            && HeadOutcome(s1, NO_ALLOC_FAULTS) == Allocated
            && AfterHead(s1, NO_ALLOC_FAULTS).orders[id].status == Processing
    ensures !CanTransitionTo(Cancelled, Processing)
  {
    var s1 := AfterCancel(s, id, false, true);
    assert !HasReservation(s.reservations, id);
    assert AllocOutcome(Popped(s1), id, NO_ALLOC_FAULTS) == Allocated;
    AllocatedHeadLeaves(s1, NO_ALLOC_FAULTS);
  }

  /** The allocation got past the check and took the items out of the counters. */
  predicate Reserves(s: Sales, id: nat, f: AllocFaults) {
    && id != 0 && id in s.orders && s.orders[id].status == Pending && !f.lookupFails
    && Check(s.atp, s.orders[id].items, 0, f.atpFailsAt) == Allocated && !f.reserveFails
  }

  /** An order that is not booked has to be released, and its reservation deleted if it was written. */
  predicate LeavesReservation(f: AllocFaults) {
    !f.createFails && f.updateFails && f.deleteFails
  }

  /** A release that fails takes the order's quantities out of the promises; a reservation that cannot be deleted
      adds them. Nothing else moves them. */
  lemma FailedReleaseLeaks(s: Sales, id: nat, f: AllocFaults, k: string)
    requires BooksAgree(s) && StockIsSound(s) && Reserves(s, id, f)
    ensures var qty := QtyOf(Wanted(s.orders[id].items), k);
            Promised(AfterAlloc(s, id, f), k) == Promised(s, k)
              - (if !Books(s, id, f) && f.releaseFails then qty else 0)
              + (if !Books(s, id, f) && LeavesReservation(f) then qty else 0)
  {
    var items := Wanted(s.orders[id].items);
    assert !HasReservation(s.reservations, id) && id !in s.held;
    if Books(s, id, f) {
      BookedBalance(s, id, f, k);
    } else {
      DecrementedBy(s.atp, items, k);
      WantedKeysPresent(s, id, f);
      ReleaseUndoesReserve(s, id, items);
      ReservedAppend(s.reservations, Reservation(id, items), k);
      RemovingTheLastReservation(s.reservations, Reservation(id, items));
    }
  }

  /** So the promises stay what they were exactly when the order is booked, has no items, or both compensations fail
      or neither does. */
  lemma PromisesStayIff(s: Sales, id: nat, f: AllocFaults)
    requires BooksAgree(s) && StockIsSound(s) && Reserves(s, id, f)
    ensures (forall k :: Promised(AfterAlloc(s, id, f), k) == Promised(s, k))
       <==> Books(s, id, f) || s.orders[id].items == [] || (f.releaseFails <==> LeavesReservation(f))
  {
    var items := Wanted(s.orders[id].items);
    forall k {
      FailedReleaseLeaks(s, id, f, k);
    }
    if items != [] {
      var k := Key(items[0].sku);
      FailedReleaseLeaks(s, id, f, k);
      QtyOfFirst(items);
    }
  }

  lemma QtyOfFirst(items: seq<ReservationItem>)
    requires WellFormed(items) && items != []
    ensures QtyOf(items, Key(items[0].sku)) > 0
  {
    QtyOfAtKey(items, 0);
  }

  /** The books themselves agree only when every compensation called for went through: with both failing the promises
      balance, but a pending order is held and reserved. */
  lemma BooksStayIff(s: Sales, id: nat, f: AllocFaults)
    requires BooksAgree(s) && StockIsSound(s) && Reserves(s, id, f)
    ensures BooksAgree(AfterAlloc(s, id, f)) <==> Books(s, id, f) || (!f.releaseFails && !LeavesReservation(f))
  {
    var s' := AfterAlloc(s, id, f);
    var items := Wanted(s.orders[id].items);
    assert !HasReservation(s.reservations, id) && id !in s.held;
    OneMoreReservation(s.reservations, Reservation(id, items));
    if Books(s, id, f) {
      BookedKeepsBooks(s, id, f);
    } else {
      RemovingTheLastReservation(s.reservations, Reservation(id, items));
      if f.releaseFails {
        assert id in s'.held;
      } else if LeavesReservation(f) {
        assert HasReservation(s'.reservations, id);
      } else {
        WantedKeysPresent(s, id, f);
        ReleaseUndoesReserve(s, id, items);
        assert s' == s;
      }
    }
  }
}
