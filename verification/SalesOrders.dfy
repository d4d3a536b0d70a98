/**
 What placing, editing and cancelling an order stores, said of the request and not of how the calls get there.
 */
module SalesOrders {
  import opened Sequences
  import opened Options
  import opened Money
  import opened Text
  import opened SalesModel
  import opened SalesLaws
  import opened SalesRuns

  // ---------------------------------------------------------------- requested items

  /** The catalogue has a price for the SKU; without a catalogue everything is free. */
  predicate HasPrice(c: Catalogue, sku: string) {
    c.NoCatalogue? || (c.Known? && sku in c.prices)
  }

  function PriceOf(c: Catalogue, sku: string): real {
    if c.Known? && sku in c.prices then c.prices[sku] else 0.0
  }

  /** The request is one an order can be made of, whatever keys were seen before. */
  predicate Orderable(items: seq<RequestItem>, seen: set<string>, c: Catalogue) {
    && (forall i :: 0 <= i < |items| ==>
          Trim(items[i].sku) != [] && items[i].qty > 0 && HasPrice(c, Trim(items[i].sku))
          && Upper(Trim(items[i].sku)) !in seen)
    && (forall i, j :: 0 <= i < j < |items| ==> Upper(Trim(items[i].sku)) != Upper(Trim(items[j].sku)))
  }

  /** Item by item what was asked for: the trimmed SKU, the quantity, and the catalogue's price. */
  ghost predicate AsRequested(out: seq<Item>, items: seq<RequestItem>, c: Catalogue) {
    && |out| == |items|
    && forall i :: 0 <= i < |items| ==>
         out[i] == Item(Trim(items[i].sku), items[i].qty, PriceOf(c, Trim(items[i].sku)))
  }

  /** What a request costs, from its last item down. */
  function Charge(items: seq<RequestItem>, c: Catalogue): real {
    if items == [] then 0.0
    else
      var last := items[|items| - 1];
      Charge(items[..|items| - 1], c) + Cost(last.qty, PriceOf(c, Trim(last.sku)))
  }

  /** A request is accepted exactly if it is orderable, and then item by item as requested. */
  lemma {:induction false} ValidatedIff(items: seq<RequestItem>, seen: set<string>, c: Catalogue)
    ensures Validate(items, seen, c).Valid? <==> Orderable(items, seen, c)
    ensures Validate(items, seen, c).Valid? ==> AsRequested(Validate(items, seen, c).items, items, c)
    decreases |items|
  {
    if items != [] {
      var key := Upper(Trim(items[0].sku));
      ValidatedIff(items[1..], seen + {key}, c);
      assert forall i :: 0 <= i < |items[1..]| ==> items[1..][i] == items[i + 1];
      if Orderable(items, seen, c) {
        OrderableSplit(items, seen, c);
      } else if Validate(items, seen, c).Valid? {
        OrderableJoin(items, seen, c);
      }
    }
  }

  lemma OrderableSplit(items: seq<RequestItem>, seen: set<string>, c: Catalogue)
    requires items != [] && Orderable(items, seen, c)
    ensures Orderable(items[1..], seen + {Upper(Trim(items[0].sku))}, c)
  {
  }

  lemma OrderableJoin(items: seq<RequestItem>, seen: set<string>, c: Catalogue)
    requires items != [] && Orderable(items[1..], seen + {Upper(Trim(items[0].sku))}, c)
    requires Orderable(items[..1], seen, c)
    ensures Orderable(items, seen, c)
  {
    assert forall i :: 0 < i < |items| ==> items[i] == items[1..][i - 1];
    assert items[0] == items[..1][0];
  }

  // ---------------------------------------------------------------- totals

  lemma {:induction false} TotalOfSum(a: seq<Item>, b: seq<Item>)
    ensures Total(a + b) == Total(a) + Total(b)
  {
    if a == [] {
      EmptySums(b);
    } else {
      TailOfSum(a, b);
      TotalOfSum(a[1..], b);
    }
  }

  lemma TotalOfOne(item: Item)
    ensures Total([]) == 0.0 && Total([item]) == Cost(item.qty, item.price)
  {
    assert [item][1..] == [];
  }

  lemma {:induction false} TotalIsCharge(out: seq<Item>, items: seq<RequestItem>, c: Catalogue)
    requires AsRequested(out, items, c)
    ensures Total(out) == Charge(items, c)
  {
    if items != [] {
      var n := |items| - 1;
      TotalIsCharge(out[..n], items[..n], c);
      assert out == out[..n] + [out[n]];
      TotalOfSum(out[..n], [out[n]]);
      TotalOfOne(out[n]);
    } else {
      assert out == [];
    }
  }

  // ---------------------------------------------------------------- placing

  /** The order a request for items is stored as. */
  ghost predicate IsPlaced(o: Order, r: CreateRequest, c: Catalogue, now: nat) {
    && o.client == r.client && o.address == r.address && r.requiredDate == Some(o.requiredDate)
    && o.status == Pending && !o.locked && o.createdAt == now
    && AsRequested(o.items, r.items, c) && o.total == Charge(r.items, c)
  }

  /** A call that is not refused is one with a date and an orderable, non-empty list of items; if it goes through, the
      order is stored as requested, listed last, and queued unless just that failed. Nothing else changes. */
  lemma PlacedAsRequested(s: Sales, id: nat, r: CreateRequest, c: Catalogue, now: nat, f: CreateFaults)
    requires id !in s.orders && Sorted(s.queue) && DistinctOrders(s.queue)
    ensures CreateOutcome(r, c, f) != Refused <==>
              r.requiredDate.Some? && r.items != [] && Orderable(r.items, {}, c)
    ensures CreateOutcome(r, c, f) == Ok <==>
              && r.requiredDate.Some? && r.items != [] && Orderable(r.items, {}, c)
              && !f.clientFails && !f.orderFails && !f.clientUpdateFails
              && (f.itemFailsAt.Some? ==> f.itemFailsAt.value >= |r.items|)
    ensures CreateOutcome(r, c, f) == Refused ==> AfterCreate(s, id, r, c, now, f) == s
    ensures CreateOutcome(r, c, f) == Ok ==>
              var s' := AfterCreate(s, id, r, c, now, f);
              && s'.orders.Keys == s.orders.Keys + {id} && IsPlaced(s'.orders[id], r, c, now)
              && s'.rows == s.rows + [id]
              && (forall e :: e in s'.queue <==>
                    (e in s.queue && (e.orderId != id || f.enqueueFails))
                    || (!f.enqueueFails && r.requiredDate == Some(e.requiredDate)
                        && e.orderId == id && e.client == r.client && e.ingestedAt == now))
              && (forall x :: x in s.orders ==> s'.orders[x] == s.orders[x])
              && s'.reservations == s.reservations && s'.atp == s.atp && s'.held == s.held
  {
    ValidatedIff(r.items, {}, c);
    if CreateOutcome(r, c, f) == Ok {
      var items := Validate(r.items, {}, c).items;
      TotalIsCharge(items, r.items, c);
      EnqueueShape(s.queue, EntryOf(id, NewOrder(r, c, now, f)));
    }
  }

  /** A call that fails has written nothing, or an order with the items up to the one that failed, and not queued. */
  lemma FailedPlacement(s: Sales, id: nat, r: CreateRequest, c: Catalogue, now: nat, f: CreateFaults)
    requires id !in s.orders && CreateOutcome(r, c, f) == Failed
    ensures var s' := AfterCreate(s, id, r, c, now, f);
            if f.clientFails || f.orderFails then s' == s
            else
              && s'.orders.Keys == s.orders.Keys + {id} && s'.queue == s.queue && s'.rows == s.rows + [id]
              && (forall x :: x in s.orders ==> s'.orders[x] == s.orders[x])
              && s'.reservations == s.reservations && s'.atp == s.atp && s'.held == s.held
              && exists o :: IsPlaced(o, r, c, now) && s'.orders[id] == o.(items := s'.orders[id].items)
                             && s'.orders[id].items == if f.itemFailsAt.Some? && f.itemFailsAt.value < |r.items|
                                                       then o.items[..f.itemFailsAt.value] else o.items
  {
    ValidatedIff(r.items, {}, c);
    var items := Validate(r.items, {}, c).items;
    TotalIsCharge(items, r.items, c);
    if !f.clientFails && !f.orderFails {
      var o := NewOrder(r, c, now, f).(items := items);
      assert IsPlaced(o, r, c, now);
      var stored := AfterCreate(s, id, r, c, now, f).orders[id];
      assert stored == o.(items := stored.items);
    }
  }

  // ---------------------------------------------------------------- editing

  /** What an order becomes: the parts the request gives, the others as they were. */
  ghost predicate IsEdited(o: Order, o': Order, r: UpdateRequest, c: Catalogue) {
    && o'.address == (match r.address case None => o.address case Some(a) => Trim(a))
    && o'.requiredDate == (match r.requiredDate case None => o.requiredDate case Some(d) => d)
    && (if r.items == [] then o'.items == o.items && o'.total == o.total
        else AsRequested(o'.items, r.items, c) && o'.total == Charge(r.items, c))
    && o'.client == o.client && o'.createdAt == o.createdAt && o'.status == o.status && o'.locked == o.locked
  }

  /** An edit is refused exactly if the order is not an unlocked pending one, nothing is asked for, or the items asked
      for are not orderable; if it goes through, the order is what the request says and the queue is empty. */
  lemma EditedAsRequested(s: Sales, id: nat, r: UpdateRequest, c: Catalogue, f: UpdateFaults)
    ensures UpdateOutcome(s, id, r, c, f) != Refused <==>
              && id != 0 && id in s.orders && !s.orders[id].locked && s.orders[id].status == Pending
              && (r.address.Some? || r.requiredDate.Some? || r.items != []) && Orderable(r.items, {}, c)
    ensures UpdateOutcome(s, id, r, c, f) == Ok <==>
              && UpdateOutcome(s, id, r, c, f) != Refused
              && !(r.items != [] && f.replaceFails) && !f.updateFails && !f.clearFails
    ensures UpdateOutcome(s, id, r, c, f) == Refused ==> AfterUpdate(s, id, r, c, f) == s
    ensures UpdateOutcome(s, id, r, c, f) == Ok ==>
              var s' := AfterUpdate(s, id, r, c, f);
              && s'.orders.Keys == s.orders.Keys && IsEdited(s.orders[id], s'.orders[id], r, c)
              && (forall x :: x in s.orders && x != id ==> s'.orders[x] == s.orders[x])
              && s' == s.(orders := s'.orders, queue := [])
  {
    ValidatedIff(r.items, {}, c);
    if UpdateOutcome(s, id, r, c, f) == Ok && r.items != [] {
      TotalIsCharge(Validate(r.items, {}, c).items, r.items, c);
    }
  }

  /** An edit that fails has written nothing, the items alone, or everything with the queue left standing. */
  lemma FailedEdit(s: Sales, id: nat, r: UpdateRequest, c: Catalogue, f: UpdateFaults)
    requires UpdateOutcome(s, id, r, c, f) == Failed
    ensures var s' := AfterUpdate(s, id, r, c, f);
            && s'.orders.Keys == s.orders.Keys && s' == s.(orders := s'.orders)
            && (forall x :: x in s.orders && x != id ==> s'.orders[x] == s.orders[x])
            && (if r.items != [] && f.replaceFails then s' == s
                else if f.updateFails then
                  && s'.orders[id] == s.orders[id].(items := s'.orders[id].items)
                  && (if r.items == [] then s'.orders[id].items == s.orders[id].items
                      else AsRequested(s'.orders[id].items, r.items, c))
                else IsEdited(s.orders[id], s'.orders[id], r, c))
  {
    ValidatedIff(r.items, {}, c);
    if r.items != [] {
      TotalIsCharge(Validate(r.items, {}, c).items, r.items, c);
    }
  }

  // ---------------------------------------------------------------- cancelling

  /** A cancellation is refused exactly if the order is not an unlocked pending one; otherwise nothing but its status
      changes, and the queue is emptied unless that fails. */
  lemma CancelledAsAsked(s: Sales, id: nat, updateFails: bool, clearFails: bool)
    ensures CancelOutcome(s, id, updateFails) == Refused <==>
              id == 0 || id !in s.orders || s.orders[id].locked || s.orders[id].status != Pending
    ensures CancelOutcome(s, id, updateFails) == Failed ==> updateFails
    ensures var s' := AfterCancel(s, id, updateFails, clearFails);
            if CancelOutcome(s, id, updateFails) != Ok then s' == s
            else
              && s'.orders.Keys == s.orders.Keys && s'.orders[id] == s.orders[id].(status := Cancelled)
              && (forall x :: x in s.orders && x != id ==> s'.orders[x] == s.orders[x])
              && s' == s.(orders := s'.orders, queue := if clearFails then s.queue else [])
  {
  }
}
