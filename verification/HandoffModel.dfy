/**
 Turning an order's shortages into purchase orders: each shortage goes to the best supplier of its SKU, each
 supplier gets one draft, and every line is first announced to the deficit pool and then locked out of it.
 */
module HandoffModel {
  import opened Options
  import opened MrpModel
  import Buying = ProcurementModel
  import Pool = DeficitPool
  import Routing = VendorRouting

  /** What is ordered of a requirement. Purchase orders already on their way are not deducted. */
  function Asked(l: Requirement): int {
    l.required - l.available
  }

  function VendorFor(v: Routing.Vendors, sku: string): Option<nat> {
    var best := Routing.Optimal(v, sku);
    if best.None? then None else Some(best.value.mapping.supplierId)
  }

  predicate Sourced(ls: seq<Requirement>, v: Routing.Vendors) {
    forall i :: 0 <= i < |ls| ==> VendorFor(v, ls[i].sku).Some?
  }

  function ForVendor(ls: seq<Requirement>, v: Routing.Vendors, vendor: nat): seq<Requirement> {
    if ls == [] then []
    else (if VendorFor(v, ls[0].sku) == Some(vendor) then [ls[0]] else []) + ForVendor(ls[1..], v, vendor)
  }

  predicate Supplies(ls: seq<Requirement>, v: Routing.Vendors, vendor: nat) {
    exists i :: 0 <= i < |ls| && VendorFor(v, ls[i].sku) == Some(vendor)
  }

  /** The vendors in the order they happen to be visited: each one that supplies something, once. */
  ghost predicate Visits(visit: seq<nat>, ls: seq<Requirement>, v: Routing.Vendors) {
    && (forall vendor :: vendor in visit <==> Supplies(ls, v, vendor))
    && forall i, j :: 0 <= i < j < |visit| ==> visit[i] != visit[j]
  }

  /** Which vendors' drafts fail; by part, which announcements fail, how its lock goes, which line saves fail. */
  datatype HandoffFaults = HandoffFaults(drafts: set<nat>, announcements: set<nat>, locks: map<nat, Pool.Faults>,
      lines: set<nat>)

  const UNDISTURBED := HandoffFaults({}, {}, map[], {})

  function LockFaults(f: HandoffFaults, part: nat): Pool.Faults {
    if part in f.locks then f.locks[part] else Pool.NO_FAULTS
  }

  datatype Outcome = Outcome(state: Buying.Procurement, result: Buying.Result)

  function WithAnnouncement(p: Buying.Procurement, l: Requirement, order: string): Buying.Procurement {
    p.(deficits := p.deficits.(pool := p.deficits.pool + [Pool.Deficit(l.sku, Asked(l), order, 0)]))
  }

  function HandLine(p: Buying.Procurement, po: Buying.OrderId, order: string, l: Requirement,
          f: HandoffFaults): Outcome {
    if Asked(l) <= 0 then Outcome(p, Buying.Ok)
    else if l.part in f.announcements then Outcome(p, Buying.Failed)
    else
      var announced := WithAnnouncement(p, l, order);
      Outcome(Buying.AfterAddLine(announced, po, l.sku, Asked(l), LockFaults(f, l.part), l.part in f.lines),
              Buying.AddLineOutcome(announced, po, l.sku, Asked(l), LockFaults(f, l.part), l.part in f.lines))
  }

  function HandLines(p: Buying.Procurement, po: Buying.OrderId, order: string, ls: seq<Requirement>,
          f: HandoffFaults): Outcome
    decreases |ls|
  {
    if ls == [] then Outcome(p, Buying.Ok)
    else
      var first := HandLine(p, po, order, ls[0], f);
      if first.result != Buying.Ok then first else HandLines(first.state, po, order, ls[1..], f)
  }

  function HandVendor(p: Buying.Procurement, vendor: nat, year: nat, order: string, ls: seq<Requirement>,
          f: HandoffFaults): Outcome {
    var drafted := Buying.DraftOutcome(p, vendor, year, vendor in f.drafts);
    if drafted != Buying.Ok then Outcome(p, drafted)
    else HandLines(Buying.AfterDraft(p, vendor, year, vendor in f.drafts), Buying.NextOrderId(p, year), order, ls, f)
  }

  function HandVendors(p: Buying.Procurement, visit: seq<nat>, year: nat, order: string, ls: seq<Requirement>,
          v: Routing.Vendors, f: HandoffFaults): Outcome
    decreases |visit|
  {
    if visit == [] then Outcome(p, Buying.Ok)
    else
      var first := HandVendor(p, visit[0], year, order, ForVendor(ls, v, visit[0]), f);
      if first.result != Buying.Ok then first else HandVendors(first.state, visit[1..], year, order, ls, v, f)
  }

  /** Every shortage has to have a supplier before anything is done. */
  function Handoff(p: Buying.Procurement, visit: seq<nat>, year: nat, order: string, ls: seq<Requirement>,
          v: Routing.Vendors, f: HandoffFaults): Outcome {
    if !Sourced(ls, v) then Outcome(p, Buying.Failed) else HandVendors(p, visit, year, order, ls, v, f)
  }

  function Shortages(ls: seq<Requirement>): seq<Requirement> {
    if ls == [] then [] else (if ls[0].short then [ls[0]] else []) + Shortages(ls[1..])
  }
}
