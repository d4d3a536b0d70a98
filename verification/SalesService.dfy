/**
 The order and fulfilment services over their repositories: orders and reservations in the database,
 counters, held quantities and the queue in the cache. Each call does what its value-level counterpart
 in SalesModel says.
 */
module SalesService {
  import opened Sequences
  import opened Options
  import opened Text
  import opened SalesLaws
  import opened SalesModel
  import opened SalesOrders

  /** Nothing happens between the check and the pipeline, so its second look passes. */
  lemma CheckedIsReservable(atp: map<string, int>, items: seq<Item>, failsAt: Option<nat>)
    requires Check(atp, items, 0, failsAt) == Allocated
    ensures Reservable(atp, Wanted(items))
  {
    CheckAnswers(atp, items, 0, failsAt);
    WantedItems(items);
    assert forall j :: 0 <= j < |items| ==> Covers(atp, items[j]);
  }

  function Extended(out: seq<Item>, rest: Validated): Validated {
    if rest.Invalid? then Invalid else Valid(out + rest.items)
  }

  lemma ExtendedByNothing(rest: Validated)
    ensures Extended([], rest) == rest
  {
    assert rest.Valid? ==> [] + rest.items == rest.items;
  }

  lemma ExtendedTwice(out: seq<Item>, item: Item, rest: Validated)
    ensures Extended(out, Extended([item], rest)) == Extended(out + [item], rest)
  {
    assert rest.Valid? ==> out + ([item] + rest.items) == out + [item] + rest.items;
  }

  class SalesBackend {
    var orders: map<nat, Order>
    var rows: seq<nat>
    var reservations: seq<Reservation>
    var atp: map<string, int>
    var held: map<nat, map<string, int>>
    var queue: seq<Entry>

    constructor (atp: map<string, int>)
      ensures View() == Sales(map[], [], [], atp, map[], [])
    {
      orders, rows, reservations, held, queue := map[], [], [], map[], [];
      this.atp := atp;
    }

    ghost function View(): Sales
      reads this
    {
      Sales(orders, rows, reservations, atp, held, queue)
    }

    // -------------------------------------------------------------- queue

    method RebuildQueue(f: RebuildFault) returns (ok: bool, entries: seq<Entry>)
      modifies `queue
      ensures ok == old(RebuildOk(View(), f))
      ensures View() == old(Rebuilt(View(), f))
      ensures ok ==> entries == old(PendingEntries(orders, rows))
    {
      entries := [];
      if f.ReadFails? {
        return false, [];
      }
      entries := CollectPending();
      ok := Refill(entries, f);
      if !ok {
        entries := [];
      }
    }

    method CollectPending() returns (entries: seq<Entry>)
      ensures entries == PendingEntries(orders, rows)
    {
      entries := [];
      WholeSuffix(rows);
      EmptySums(PendingEntries(orders, rows));
      for i := 0 to |rows|
        invariant entries + PendingEntries(orders, rows[i..]) == PendingEntries(orders, rows)
      {
        ShorterSuffix(rows, i);
        if rows[i] in orders && orders[rows[i]].status == Pending {
          var e := EntryOf(rows[i], orders[rows[i]]);
          Associate(entries, [e], PendingEntries(orders, rows[i + 1..]));
          entries := entries + [e];
        }
      }
      EmptySums(entries);
    }

    /** Clears the queue and enqueues the entries, up to the one that fails. */
    method Refill(entries: seq<Entry>, f: RebuildFault) returns (ok: bool)
      modifies `queue
      ensures ok == !(f.EnqueueFails? && f.at < |entries|)
      ensures queue == EnqueueAll([], if ok then entries else entries[..f.at])
    {
      ghost var es := if f.EnqueueFails? && f.at < |entries| then entries[..f.at] else entries;
      queue := [];
      for i := 0 to |entries|
        invariant i <= |es|
        invariant EnqueueAll(queue, es[i..]) == EnqueueAll([], es)
      {
        if f.EnqueueFails? && f.at == i {
          assert es[i..] == [];
          return false;
        }
        ShorterSuffix(es, i);
        queue := Enqueue(queue, entries[i]);
      }
      assert es[|entries|..] == [];
      ok := true;
    }

    method GetQueueStatus(listFails: bool, f: RebuildFault) returns (ok: bool, entries: seq<Entry>)
      modifies `queue
      ensures View() == old(AfterShow(View(), listFails, f))
      ensures ok == old(Drains(View(), listFails, f))
      ensures ok ==> entries == old(if queue == [] then PendingEntries(orders, rows) else queue)
    {
      if listFails {
        return false, [];
      }
      ok, entries := true, queue;
      if entries == [] {
        ok, entries := RebuildQueue(f);
      }
    }

    // -------------------------------------------------------------- allocation

    /** One pipeline: every counter is read again, then all go down and the quantities are noted together. */
    method ReserveInventory(id: nat, items: seq<ReservationItem>, fails: bool) returns (ok: bool)
      modifies `atp, `held
      ensures ok == old(!fails && Reservable(atp, items))
      ensures View() == if ok then old(Reserve(View(), id, items)) else old(View())
    {
      var h, counters := if id in held then held[id] else map[], atp;
      for i := 0 to |items|
        invariant forall j :: 0 <= j < i ==> Get(atp, Key(items[j].sku)) >= items[j].qty
        invariant Decremented(counters, items[i..]) == Decremented(atp, items)
        invariant Noted(h, items[i..]) == Noted(HeldFor(View(), id), items)
        invariant View() == old(View())
      {
        ShorterSuffix(items, i);
        var k := Key(items[i].sku);
        if Get(atp, k) < items[i].qty {
          return false;
        }
        counters := counters[k := Get(counters, k) - items[i].qty];
        h := h[k := items[i].qty];
      }
      if fails {
        return false;
      }
      atp, held, ok := counters, held[id := h], true;
    }

    method ReleaseInventory(id: nat)
      modifies `atp, `held
      ensures View() == old(Release(View(), id))
    {
      var h := if id in held then held[id] else map[];
      atp := Incremented(atp, h);
      held := held - {id};
    }

    method DeleteReservation(id: nat)
      modifies `reservations
      ensures reservations == old(WithoutReservation(reservations, id))
    {
      var rows, kept: seq<Reservation> := reservations, [];
      WholeSuffix(rows);
      EmptySums(WithoutReservation(rows, id));
      for i := 0 to |rows|
        invariant kept + WithoutReservation(rows[i..], id) == WithoutReservation(rows, id)
      {
        ShorterSuffix(rows, i);
        if rows[i].orderId != id {
          Associate(kept, [rows[i]], WithoutReservation(rows[i + 1..], id));
          kept := kept + [rows[i]];
        }
      }
      EmptySums(kept);
      reservations := kept;
    }

    method CheckAvailability(items: seq<Item>, failsAt: Option<nat>)
      returns (r: AllocResult, reservationItems: seq<ReservationItem>)
      ensures r == Check(atp, items, 0, failsAt)
      ensures r == Allocated ==> reservationItems == Wanted(items)
    {
      reservationItems := [];
      for i := 0 to |items|
        invariant Check(atp, items, i, failsAt) == Check(atp, items, 0, failsAt)
        invariant reservationItems + Wanted(items[i..]) == Wanted(items)
      {
        if failsAt == Some(i) {
          return Rejected, [];
        }
        if Get(atp, Key(items[i].sku)) < items[i].qty {
          return Insufficient, [];
        }
        ShorterSuffix(items, i);
        reservationItems := reservationItems + [ReservationItem(items[i].sku, items[i].qty)];
      }
      r := Allocated;
    }

    method AllocateOrder(id: nat, f: AllocFaults) returns (r: AllocResult, manifest: Option<Manifest>)
      modifies `orders, `reservations, `atp, `held
      ensures r == old(AllocOutcome(View(), id, f))
      ensures View() == old(AfterAlloc(View(), id, f))
      ensures r == Allocated ==> id in old(orders) && manifest == Some(old(ManifestOf(View(), id)))
    {
      if id == 0 || id !in orders || f.lookupFails {
        return Rejected, None;
      }
      var o := orders[id];
      var checked, items := CheckAvailability(o.items, f.atpFailsAt);
      if checked != Allocated {
        return checked, None;
      }
      CheckedIsReservable(atp, o.items, f.atpFailsAt);
      var reserved := ReserveInventory(id, items, f.reserveFails);
      if !reserved {
        return Rejected, None;
      }
      if f.createFails || exists i :: 0 <= i < |reservations| && reservations[i].orderId == id {
        if !f.releaseFails {
          ReleaseInventory(id);
        }
        return Rejected, None;
      }
      reservations := reservations + [Reservation(id, items)];
      if f.updateFails {
        if !f.releaseFails {
          ReleaseInventory(id);
        }
        if !f.deleteFails {
          DeleteReservation(id);
        }
        return Rejected, None;
      }
      orders := orders[id := o.(status := Processing, locked := true)];
      if f.clientFails {
        return Rejected, None;
      }
      r, manifest := Allocated, Some(Manifest(id, o.client, o.address, items));
    }

    method ProcessQueue(listFails: bool, rf: RebuildFault, fs: seq<AllocFaults>)
      returns (r: AllocResult, manifests: seq<Manifest>)
      modifies this
      ensures View() == old(AfterProcess(View(), listFails, rf, fs))
      ensures old(Drains(View(), listFails, rf)) ==>
                && r == old(DrainOutcome(Refilled(View(), rf), fs))
                && manifests == old(Manifests(Refilled(View(), rf), fs))
      ensures !old(Drains(View(), listFails, rf)) ==> r == Rejected && manifests == []
    {
      var ok, _ := GetQueueStatus(listFails, rf);
      if !ok {
        return Rejected, [];
      }
      r, manifests := Drain(fs);
    }

    method Drain(fs: seq<AllocFaults>) returns (r: AllocResult, manifests: seq<Manifest>)
      modifies this
      ensures View() == old(Processed(View(), fs))
      ensures r == old(DrainOutcome(View(), fs))
      ensures manifests == old(Manifests(View(), fs))
    {
      r, manifests := Allocated, [];
      var faults := fs;
      while queue != []
        invariant Processed(View(), faults) == old(Processed(View(), fs))
        invariant DrainOutcome(View(), faults) == old(DrainOutcome(View(), fs))
        invariant manifests + Manifests(View(), faults) == old(Manifests(View(), fs))
        decreases |queue|
      {
        ghost var s := View();
        var manifest;
        r, manifest := ProcessHead(FaultsAt(faults));
        if r != Allocated {
          assert Processed(s, faults) == View() && Manifests(s, faults) == [];
          EmptySums(manifests);
          return;
        }
        AllocatedHeadLeaves(s, FaultsAt(faults));
        Associate(manifests, [manifest.value], Manifests(View(), Rest(faults)));
        manifests := manifests + [manifest.value];
        faults := Rest(faults);
      }
      EmptySums(manifests);
      r := Allocated;
    }

    /** Takes the first entry off the queue and allocates its order. */
    method ProcessHead(f: AllocFaults) returns (r: AllocResult, manifest: Option<Manifest>)
      requires queue != []
      modifies this
      ensures r == old(HeadOutcome(View(), f))
      ensures View() == old(AfterHead(View(), f))
      ensures r == Allocated ==>
                old(queue[0].orderId in orders && manifest == Some(ManifestOf(View(), queue[0].orderId)))
    {
      if f.dequeue == PopFails {
        return Rejected, None;
      }
      var entry := queue[0];
      queue := queue[1..];
      if f.dequeue == PayloadFails {
        return Rejected, None;
      }
      AllocKeepsQueue(View(), entry.orderId, f);
      r, manifest := AllocateOrder(entry.orderId, f);
      if r == Insufficient && !f.requeueFails {
        queue := Enqueue(queue, entry);
      }
    }

    // -------------------------------------------------------------- orders

    method ValidateItems(items: seq<RequestItem>, c: Catalogue) returns (v: Validated, total: real)
      ensures v == Validate(items, {}, c)
      ensures v.Valid? ==> total == Total(v.items)
    {
      var seen: set<string>, out: seq<Item> := {}, [];
      total := 0.0;
      assert items[0..] == items;
      ExtendedByNothing(Validate(items, {}, c));
      for i := 0 to |items|
        invariant Validate(items, {}, c) == Extended(out, Validate(items[i..], seen, c))
        invariant total == Total(out)
      {
        ShorterSuffix(items, i);
        var sku, qty := Trim(items[i].sku), items[i].qty;
        if sku == [] || qty <= 0 || Upper(sku) in seen {
          return Invalid, 0.0;
        }
        seen := seen + {Upper(sku)};
        var price := Priced(sku, c);
        if price.None? {
          return Invalid, 0.0;
        }
        TotalOfSum(out, [Item(sku, qty, price.value)]);
        TotalOfOne(Item(sku, qty, price.value));
        ExtendedTwice(out, Item(sku, qty, price.value), Validate(items[i + 1..], seen, c));
        out := out + [Item(sku, qty, price.value)];
        total := total + qty as real * price.value;
      }
      assert items[|items|..] == [] && out + [] == out;
      v := Valid(out);
    }

    method CreateOrder(id: nat, r: CreateRequest, c: Catalogue, now: nat, f: CreateFaults) returns (result: CallResult)
      requires id !in orders && id != 0
      modifies this
      ensures result == CreateOutcome(r, c, f)
      ensures View() == old(AfterCreate(View(), id, r, c, now, f))
    {
      if r.requiredDate.None? || r.items == [] {
        return Refused;
      }
      var v, total := ValidateItems(r.items, c);
      if v.Invalid? {
        return Refused;
      }
      if f.clientFails || f.orderFails {
        return Failed;
      }
      ghost var s := View();
      assert |v.items| == |r.items| by {
        ValidatedIff(r.items, {}, c);
      }
      var order := Order(r.client, r.address, r.requiredDate.value, Pending, total, false, now, []);
      orders, rows := orders[id := order], rows + [id];
      var stored := StoreItems(id, v.items, f.itemFailsAt);
      assert orders == s.orders[id := NewOrder(r, c, now, f)];
      assert stored && !f.clientUpdateFails <==> CreateCompletes(r, f);
      if !stored || f.clientUpdateFails {
        return Failed;
      }
      if !f.enqueueFails {
        queue := Enqueue(queue, EntryOf(id, order));
      }
      result := Ok;
    }

    /** Saves an order's items one at a time, up to the one that fails. */
    method StoreItems(id: nat, items: seq<Item>, failsAt: Option<nat>) returns (ok: bool)
      requires id in orders && orders[id].items == []
      modifies `orders
      ensures ok == !(failsAt.Some? && failsAt.value < |items|)
      ensures orders == old(orders)[id := old(orders[id]).(items := Stored(items, failsAt))]
    {
      ghost var before, order := orders, orders[id];
      for i := 0 to |items|
        invariant orders == before[id := order.(items := items[..i])]
        invariant failsAt.Some? ==> i <= failsAt.value
      {
        if failsAt == Some(i) {
          return false;
        }
        assert items[..i + 1] == items[..i] + [items[i]];
        orders := orders[id := orders[id].(items := orders[id].items + [items[i]])];
      }
      assert items[..|items|] == items;
      ok := true;
    }

    method UpdateOrder(id: nat, r: UpdateRequest, c: Catalogue, f: UpdateFaults) returns (result: CallResult)
      modifies this
      ensures result == old(UpdateOutcome(View(), id, r, c, f))
      ensures View() == old(AfterUpdate(View(), id, r, c, f))
    {
      if id == 0 || id !in orders {
        return Refused;
      }
      var order := orders[id];
      if order.locked || order.status != Pending {
        return Refused;
      }
      if r.address.None? && r.requiredDate.None? && r.items == [] {
        return Refused;
      }
      if r.address.Some? {
        order := order.(address := Trim(r.address.value));
      }
      if r.requiredDate.Some? {
        order := order.(requiredDate := r.requiredDate.value);
      }
      if r.items != [] {
        var v, total := ValidateItems(r.items, c);
        if v.Invalid? {
          return Refused;
        }
        order := order.(total := total);
        if f.replaceFails {
          return Failed;
        }
        orders := orders[id := orders[id].(items := v.items)];
        order := order.(items := v.items);
      }
      if f.updateFails {
        assert r.items == [] ==> old(orders) == old(orders)[id := old(orders)[id]];
        return Failed;
      }
      assert old(orders)[id := order] == orders[id := order];
      orders := orders[id := order];
      if f.clearFails {
        return Failed;
      }
      queue := [];
      result := Ok;
    }

    method CancelOrder(id: nat, updateFails: bool, clearFails: bool) returns (result: CallResult)
      modifies this
      ensures result == old(CancelOutcome(View(), id, updateFails))
      ensures View() == old(AfterCancel(View(), id, updateFails, clearFails))
    {
      if id == 0 || id !in orders || orders[id].locked || orders[id].status != Pending {
        return Refused;
      }
      if updateFails {
        return Failed;
      }
      orders := orders[id := orders[id].(status := Cancelled)];
      if !clearFails {
        queue := [];
      }
      result := Ok;
    }
  }
}
