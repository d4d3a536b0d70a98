/**
 The hand-off run against the procurement tables, the deficit pool and the vendor service.
 */
module HandoffService {
  import opened Sequences
  import opened Options
  import opened MrpModel
  import opened HandoffModel
  import Bom = BomModel
  import Buying = ProcurementModel
  import Orders = ProcurementService
  import Pool = DeficitPool
  import Readiness = ReadinessService
  import Routing = VendorRouting

  lemma {:induction false} ForVendorAppend(ls: seq<Requirement>, l: Requirement, v: Routing.Vendors, vendor: nat)
    ensures ForVendor(ls + [l], v, vendor)
         == ForVendor(ls, v, vendor) + (if VendorFor(v, l.sku) == Some(vendor) then [l] else [])
  {
    if ls == [] {
      assert ls + [l] == [l] && [l][1..] == [];
    } else {
      TailOfSum(ls, [l]);
      ForVendorAppend(ls[1..], l, v, vendor);
    }
  }

  /** The groups of the first requirements: who supplies one of them, and which ones. */
  ghost predicate Grouped(groups: map<nat, seq<Requirement>>, ls: seq<Requirement>, v: Routing.Vendors) {
    && Sourced(ls, v)
    && (forall vendor :: vendor in groups <==> Supplies(ls, v, vendor))
    && forall vendor :: vendor in groups ==> groups[vendor] == ForVendor(ls, v, vendor)
  }

  lemma {:induction false} NotSuppliedIsEmpty(ls: seq<Requirement>, v: Routing.Vendors, vendor: nat)
    requires !Supplies(ls, v, vendor)
    ensures ForVendor(ls, v, vendor) == []
  {
    if ls != [] {
      assert forall i :: 0 <= i < |ls[1..]| ==> ls[1..][i] == ls[i + 1];
      assert VendorFor(v, ls[0].sku) != Some(vendor);
      NotSuppliedIsEmpty(ls[1..], v, vendor);
    }
  }

  /** A map is ranged over in no particular order. */
  method RangeOrder(keys: set<nat>) returns (visit: seq<nat>)
    ensures forall k :: k in visit <==> k in keys
    ensures forall i, j :: 0 <= i < j < |visit| ==> visit[i] != visit[j]
  {
    visit := [];
    var remaining := keys;
    while remaining != {}
      invariant remaining <= keys
      invariant forall k :: k in visit <==> k in keys - remaining
      invariant forall i, j :: 0 <= i < j < |visit| ==> visit[i] != visit[j]
      decreases |remaining|
    {
      var k :| k in remaining;
      visit, remaining := visit + [k], remaining - {k};
    }
  }

  lemma OneMoreSupplied(ls: seq<Requirement>, l: Requirement, v: Routing.Vendors, vendor: nat)
    ensures Supplies(ls + [l], v, vendor) <==> Supplies(ls, v, vendor) || VendorFor(v, l.sku) == Some(vendor)
  {
    if Supplies(ls, v, vendor) {
      var i :| 0 <= i < |ls| && VendorFor(v, ls[i].sku) == Some(vendor);
      assert (ls + [l])[i] == ls[i];
    } else if VendorFor(v, l.sku) == Some(vendor) {
      assert (ls + [l])[|ls|] == l;
    }
  }

  lemma OneMoreGrouped(before: map<nat, seq<Requirement>>, after: map<nat, seq<Requirement>>, ls: seq<Requirement>,
          i: nat, v: Routing.Vendors)
    requires i < |ls| && Grouped(before, ls[..i], v) && VendorFor(v, ls[i].sku).Some?
    requires var vendor := VendorFor(v, ls[i].sku).value;
             after == before[vendor := (if vendor in before then before[vendor] else []) + [ls[i]]]
    ensures Grouped(after, ls[..i + 1], v)
  {
    var first, l := ls[..i], ls[i];
    assert ls[..i + 1] == first + [l];
    forall vendor: nat
      ensures vendor in after <==> Supplies(first + [l], v, vendor)
    {
      OneMoreSupplied(first, l, v, vendor);
    }
    forall vendor | vendor in after
      ensures after[vendor] == ForVendor(first + [l], v, vendor)
    {
      ForVendorAppend(first, l, v, vendor);
      if vendor !in before {
        NotSuppliedIsEmpty(first, v, vendor);
      }
    }
  }

  method SelectShortages(results: seq<Requirement>) returns (shortages: seq<Requirement>)
    ensures shortages == Shortages(results)
  {
    shortages := [];
    for i := 0 to |results|
      invariant shortages + Shortages(results[i..]) == Shortages(results)
    {
      ShorterSuffix(results, i);
      if results[i].short {
        shortages := shortages + [results[i]];
      }
    }
  }

  class ScmHandoff {
    const purchasing: Orders.PurchaseOrderService
    const vendors: Routing.VendorService

    constructor (purchasing: Orders.PurchaseOrderService, vendors: Routing.VendorService)
      ensures this.purchasing == purchasing && this.vendors == vendors
    {
      this.purchasing, this.vendors := purchasing, vendors;
    }

    method GroupByVendor(ls: seq<Requirement>) returns (groups: Option<map<nat, seq<Requirement>>>)
      ensures groups.Some? <==> Sourced(ls, vendors.View())
      ensures groups.Some? ==> Grouped(groups.value, ls, vendors.View())
    {
      ghost var v := vendors.View();
      var gathered: map<nat, seq<Requirement>> := map[];
      for i := 0 to |ls|
        invariant Grouped(gathered, ls[..i], v)
      {
        var best := vendors.GetOptimalSupplier(ls[i].sku);
        if best.None? {
          return None;
        }
        var vendor := best.value.mapping.supplierId;
        ghost var before := gathered;
        gathered := gathered[vendor := (if vendor in gathered then gathered[vendor] else []) + [ls[i]]];
        OneMoreGrouped(before, gathered, ls, i, v);
      }
      WholePrefix(ls);
      groups := Some(gathered);
    }

    method HandLine(po: Buying.OrderId, order: string, l: Requirement, f: HandoffFaults) returns (r: Buying.Result)
      requires purchasing.store.locks.unacked == map[]
      modifies purchasing.store, purchasing.store.locks
      ensures Outcome(purchasing.store.View(), r)
              == old(HandoffModel.HandLine(purchasing.store.View(), po, order, l, f))
      ensures purchasing.store.locks.unacked == map[]
    {
      var qty := l.required - l.available;
      if qty <= 0 {
        return Buying.Ok;
      }
      if l.part in f.announcements {
        return Buying.Failed;
      }
      purchasing.store.locks.pool := purchasing.store.locks.pool + [Pool.Deficit(l.sku, qty, order, 0)];
      assert purchasing.store.View() == old(WithAnnouncement(purchasing.store.View(), l, order));
      r := purchasing.AddLineItemWithLock(po, l.sku, qty, LockFaults(f, l.part), l.part in f.lines);
    }

    method HandVendor(vendor: nat, year: nat, order: string, ls: seq<Requirement>,
            f: HandoffFaults) returns (r: Buying.Result)
      requires purchasing.store.locks.unacked == map[]
      modifies purchasing.store, purchasing.store.locks
      ensures Outcome(purchasing.store.View(), r)
              == old(HandoffModel.HandVendor(purchasing.store.View(), vendor, year, order, ls, f))
      ensures purchasing.store.locks.unacked == map[]
    {
      var drafted, po := purchasing.CreateDraft(vendor, year, vendor in f.drafts);
      if drafted != Buying.Ok {
        return drafted;
      }
      for i := 0 to |ls|
        invariant purchasing.store.locks.unacked == map[]
        invariant HandLines(purchasing.store.View(), po, order, ls[i..], f)
               == old(HandoffModel.HandVendor(purchasing.store.View(), vendor, year, order, ls, f))
      {
        ShorterSuffix(ls, i);
        r := HandLine(po, order, ls[i], f);
        if r != Buying.Ok {
          return;
        }
      }
      r := Buying.Ok;
    }

    /** visit is the order in which the vendors happened to come up. */
    method ExecuteHandoff(order: string, year: nat, ls: seq<Requirement>, f: HandoffFaults)
      returns (r: Buying.Result, visit: seq<nat>)
      requires purchasing.store.locks.unacked == map[]
      modifies purchasing.store, purchasing.store.locks
      ensures Sourced(ls, old(vendors.View())) ==> Visits(visit, ls, old(vendors.View()))
      ensures Outcome(purchasing.store.View(), r)
           == old(Handoff(purchasing.store.View(), visit, year, order, ls, vendors.View(), f))
      ensures purchasing.store.locks.unacked == map[]
    {
      ghost var v := vendors.View();
      var groups := GroupByVendor(ls);
      if groups.None? {
        return Buying.Failed, [];
      }
      visit := RangeOrder(groups.value.Keys);
      for i := 0 to |visit|
        invariant purchasing.store.locks.unacked == map[]
        invariant HandVendors(purchasing.store.View(), visit[i..], year, order, ls, v, f)
               == old(HandVendors(purchasing.store.View(), visit, year, order, ls, v, f))
      {
        ShorterSuffix(visit, i);
        assert visit[i] in groups.value;
        r := HandVendor(visit[i], year, order, groups.value[visit[i]], f);
        if r != Buying.Ok {
          return;
        }
      }
      r := Buying.Ok;
    }

    method GeneratePOForDeficits(order: string, quantity: int, es: seq<Bom.Entry>, s: Supply, year: nat,
            f: HandoffFaults)
      returns (r: Buying.Result, results: seq<Requirement>, visit: seq<nat>)
      requires purchasing.store.locks.unacked == map[]
      modifies purchasing.store, purchasing.store.locks
      ensures var ls := Explosion(es, quantity, s);
              if ls.None? then r == Buying.Failed && purchasing.store.View() == old(purchasing.store.View())
              else
                && results == ls.value
                && (Sourced(Shortages(results), old(vendors.View())) ==>
                     Visits(visit, Shortages(results), old(vendors.View())))
                && Outcome(purchasing.store.View(), r)
                   == old(Handoff(purchasing.store.View(), visit, year, order, Shortages(results), vendors.View(), f))
    {
      results, visit := [], [];
      var ls := Readiness.RunBomExplosion(es, quantity, s);
      if ls.None? {
        r := Buying.Failed;
        return;
      }
      results := ls.value;
      var shortages := SelectShortages(results);
      if |shortages| > 0 {
        r, visit := ExecuteHandoff(order, year, shortages, f);
      } else {
        r := Buying.Ok;
      }
    }
  }
}
