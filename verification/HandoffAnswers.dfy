/**
 How a hand-off proceeds with any faults: line after line and vendor after vendor, up to the first call that fails, and
 with what each line announces, locks and adds.
 */
module HandoffAnswers {
  import opened Sequences
  import opened Options
  import opened MrpModel
  import opened HandoffModel
  import Buying = ProcurementModel
  import Pool = DeficitPool
  import Routing = VendorRouting

  /** A requirement that stock covers asks for nothing. Any other announces what stock lacks under its order, unless
      that fails, and then adds a line for just that, with its own lock. */
  lemma LineAnswers(p: Buying.Procurement, po: Buying.OrderId, order: string, l: Requirement, f: HandoffFaults)
    ensures var x, missing := HandLine(p, po, order, l, f), l.required - l.available;
            if missing <= 0 then x.state == p && x.result == Buying.Ok
            else if l.part in f.announcements then x.state == p && x.result == Buying.Failed
            else
              var announced := p.deficits.(pool := p.deficits.pool + [Pool.Deficit(l.sku, missing, order, 0)]);
              var faults := if l.part in f.locks then f.locks[l.part] else Pool.NO_FAULTS;
              var p1, unsaved := p.(deficits := announced), l.part in f.lines;
              && x.state == Buying.AfterAddLine(p1, po, l.sku, missing, faults, unsaved)
              && x.result == Buying.AddLineOutcome(p1, po, l.sku, missing, faults, unsaved)
  {
  }

  /** One more line is handed over only where all before it went through. */
  lemma {:induction false} OneMoreLine(p: Buying.Procurement, po: Buying.OrderId, order: string, ls: seq<Requirement>,
          l: Requirement, f: HandoffFaults)
    ensures HandLines(p, po, order, [], f) == Outcome(p, Buying.Ok)
    ensures var before := HandLines(p, po, order, ls, f);
            HandLines(p, po, order, ls + [l], f)
            == if before.result == Buying.Ok then HandLine(before.state, po, order, l, f) else before
    decreases |ls|
  {
    if ls == [] {
      EmptySums([l]);
      assert [l][1..] == [];
    } else {
      TailOfSum(ls, [l]);
      OneMoreLine(HandLine(p, po, order, ls[0], f).state, po, order, ls[1..], l, f);
    }
  }

  /** A vendor's turn is a draft and then its lines; without the draft nothing is announced. */
  lemma TurnAnswers(p: Buying.Procurement, vendor: nat, year: nat, order: string, ls: seq<Requirement>,
          f: HandoffFaults)
    ensures var x, drafted := HandVendor(p, vendor, year, order, ls, f),
                              Buying.DraftOutcome(p, vendor, year, vendor in f.drafts);
            if drafted != Buying.Ok then x == Outcome(p, drafted)
            else
              var po := Buying.OrderId(year, |set id | id in p.orders && id.year == year| + 1);
              x == HandLines(Buying.AfterDraft(p, vendor, year, vendor in f.drafts), po, order, ls, f)
  {
  }

  /** One more vendor has its turn only where all before it went through, with the shortages it is best supplier of. */
  lemma {:induction false} OneMoreVendor(p: Buying.Procurement, visit: seq<nat>, vendor: nat, year: nat, order: string,
          ls: seq<Requirement>, v: Routing.Vendors, f: HandoffFaults)
    ensures HandVendors(p, [], year, order, ls, v, f) == Outcome(p, Buying.Ok)
    ensures var before := HandVendors(p, visit, year, order, ls, v, f);
            HandVendors(p, visit + [vendor], year, order, ls, v, f)
            == if before.result == Buying.Ok
               then HandVendor(before.state, vendor, year, order, ForVendor(ls, v, vendor), f) else before
    decreases |visit|
  {
    if visit == [] {
      EmptySums([vendor]);
      assert [vendor][1..] == [];
    } else {
      TailOfSum(visit, [vendor]);
      OneMoreVendor(HandVendor(p, visit[0], year, order, ForVendor(ls, v, visit[0]), f).state, visit[1..], vendor, year,
                    order, ls, v, f);
    }
  }

  /** The shortages of a vendor are those it is best supplier of, in their order. */
  lemma {:induction false} OneMoreShortage(ls: seq<Requirement>, l: Requirement, v: Routing.Vendors, vendor: nat)
    ensures ForVendor([], v, vendor) == [] && Shortages([]) == []
    ensures ForVendor(ls + [l], v, vendor)
         == ForVendor(ls, v, vendor) + (if VendorFor(v, l.sku) == Some(vendor) then [l] else [])
    ensures Shortages(ls + [l]) == Shortages(ls) + (if l.short then [l] else [])
  {
    if ls == [] {
      EmptySums([l]);
    } else {
      TailOfSum(ls, [l]);
      OneMoreShortage(ls[1..], l, v, vendor);
      Associate(if VendorFor(v, ls[0].sku) == Some(vendor) then [ls[0]] else [], ForVendor(ls[1..], v, vendor),
                if VendorFor(v, l.sku) == Some(vendor) then [l] else []);
      Associate(if ls[0].short then [ls[0]] else [], Shortages(ls[1..]), if l.short then [l] else []);
    }
  }

  /** A shortage without a supplier ends the hand-off before anything is done. */
  lemma HandoffNeedsSuppliers(p: Buying.Procurement, visit: seq<nat>, year: nat, order: string, ls: seq<Requirement>,
          v: Routing.Vendors, f: HandoffFaults)
    ensures Sourced(ls, v) <==> forall l :: l in ls ==> Routing.Optimal(v, l.sku).Some?
    ensures Handoff(p, visit, year, order, ls, v, f)
         == if forall l :: l in ls ==> Routing.Optimal(v, l.sku).Some?
            then HandVendors(p, visit, year, order, ls, v, f) else Outcome(p, Buying.Failed)
  {
    if Sourced(ls, v) {
      forall l | l in ls
        ensures Routing.Optimal(v, l.sku).Some?
      {
        var i :| 0 <= i < |ls| && ls[i] == l;
      }
    } else {
      var i :| 0 <= i < |ls| && VendorFor(v, ls[i].sku).None?;
      assert ls[i] in ls;
    }
  }
}
