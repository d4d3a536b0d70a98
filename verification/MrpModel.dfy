/**
 Production orders, what building them needs, and the shortage logs kept about them. Order ids and model codes
 are text, "" being the nil id; part 0 is the nil part.
 */
module MrpModel {
  import opened Options
  import opened Text
  import Bom = BomModel
  import Pool = DeficitPool
  import Buying = ProcurementModel

  datatype BuildStatus = Planned | ClearToBuild | PartlyReady | Shortage
  datatype ProductionOrder = ProductionOrder(code: string, quantity: int, status: BuildStatus)

  /** A part as the supply side knows it, and the purchase orders it lists for a model (none if listing fails). */
  datatype Part = Part(sku: string, stock: int)
  datatype Supply = Supply(parts: map<nat, Part>, listing: seq<Buying.PurchaseOrder>)

  datatype Requirement = Requirement(part: nat, sku: string, required: int, available: int, incoming: int, short: bool)

  /** The shortage table keeps deleted rows; ids are never reused. published holds the announcements made to the
      deficit pool, oldest first. */
  datatype Log = Log(id: nat, order: string, part: nat, qty: int, deleted: bool)
  datatype Mrp = Mrp(orders: map<string, ProductionOrder>, logs: seq<Log>, nextLog: nat, published: seq<Pool.Delivery>)

  // ---------------------------------------------------------------- explosion

  predicate Coming(s: Buying.OrderStatus) {
    s == Buying.Draft || s == Buying.Approved || s == Buying.InTransit || s == Buying.Partial
  }

  function Outstanding(s: Buying.OrderStatus, l: Buying.OrderLine): int {
    if s != Buying.Partial then l.ordered
    else if l.ordered - l.received > 0 then l.ordered - l.received
    else 0
  }

  function IncomingOf(s: Buying.OrderStatus, lines: seq<Buying.OrderLine>, sku: string): int {
    if lines == [] then 0
    else (if lines[0].sku == sku then Outstanding(s, lines[0]) else 0) + IncomingOf(s, lines[1..], sku)
  }

  /** What the open purchase orders still have to deliver of a SKU. */
  function Incoming(listing: seq<Buying.PurchaseOrder>, sku: string): int {
    if listing == [] then 0
    else
      (if Coming(listing[0].status) then IncomingOf(listing[0].status, listing[0].lines, sku) else 0)
      + Incoming(listing[1..], sku)
  }

  predicate Explodable(e: Bom.Entry, quantity: int, s: Supply) {
    e.qty * quantity > 0 && e.part != 0 && e.part in s.parts && Trim(s.parts[e.part].sku) != []
  }

  function Exploded(e: Bom.Entry, quantity: int, s: Supply): Requirement
    requires Explodable(e, quantity, s)
  {
    var p := s.parts[e.part];
    var incoming := Incoming(s.listing, p.sku);
    Requirement(e.part, p.sku, e.qty * quantity, p.stock, incoming, e.qty * quantity > p.stock + incoming)
  }

  /** One requirement an entry, or none at all if any entry cannot be exploded. */
  function Explosion(es: seq<Bom.Entry>, quantity: int, s: Supply): (r: Option<seq<Requirement>>)
    ensures r.Some? ==> |r.value| == |es|
  {
    if es == [] then Some([])
    else if !Explodable(es[0], quantity, s) then None
    else
      var rest := Explosion(es[1..], quantity, s);
      if rest.None? then None else Some([Exploded(es[0], quantity, s)] + rest.value)
  }

  function StatusFor(ls: seq<Requirement>): BuildStatus {
    if exists i :: 0 <= i < |ls| && ls[i].short then Shortage else ClearToBuild
  }

  // ---------------------------------------------------------------- shortage logs

  predicate IsLive(g: Log, order: string, part: nat) {
    g.order == order && g.part == part && !g.deleted
  }

  function LiveOf(logs: seq<Log>, order: string, part: nat): seq<Log> {
    if logs == [] then []
    else (if IsLive(logs[0], order, part) then [logs[0]] else []) + LiveOf(logs[1..], order, part)
  }

  /** The live logs of an order by part; of several for one part the last is kept. */
  function Snapshot(logs: seq<Log>, order: string): map<nat, Log> {
    if logs == [] then map[]
    else
      var before, g := Snapshot(logs[..|logs| - 1], order), logs[|logs| - 1];
      if g.order == order && !g.deleted then before[g.part := g] else before
  }

  function Deleted(logs: seq<Log>, order: string, part: nat): seq<Log> {
    if logs == [] then []
    else [if IsLive(logs[0], order, part) then logs[0].(deleted := true) else logs[0]] + Deleted(logs[1..], order, part)
  }

  function WithQty(logs: seq<Log>, id: nat, qty: int): seq<Log> {
    if logs == [] then []
    else [if logs[0].id == id && !logs[0].deleted then logs[0].(qty := qty) else logs[0]] + WithQty(logs[1..], id, qty)
  }

  // ---------------------------------------------------------------- reconciliation

  /** failing: the parts whose table write fails. lost: the parts whose announcement never arrives. */
  datatype SyncFaults = SyncFaults(readFails: bool, failing: set<nat>, lost: set<nat>)

  const SYNCS := SyncFaults(false, {}, {})

  /** What a log should say about a requirement; 0 when there should be none. */
  function Wanted(l: Requirement): int {
    var missing := l.required - (l.available + l.incoming);
    if l.short && missing > 0 then missing else 0
  }

  predicate Writes(l: Requirement, existing: map<nat, Log>) {
    if Wanted(l) == 0 then l.part in existing else l.part in existing ==> existing[l.part].qty != Wanted(l)
  }

  /** A nil order or part cannot be deleted. */
  predicate Stops(order: string, l: Requirement, existing: map<nat, Log>, f: SyncFaults) {
    Writes(l, existing) && (l.part in f.failing || (Wanted(l) == 0 && (order == [] || l.part == 0)))
  }

  /** One requirement against what was live when the reconciliation began. */
  function Reconciled(t: Mrp, order: string, l: Requirement, existing: map<nat, Log>, lost: bool): Mrp {
    if !Writes(l, existing) then t
    else if Wanted(l) == 0 then t.(logs := Deleted(t.logs, order, l.part))
    else if l.part in existing then t.(logs := WithQty(t.logs, existing[l.part].id, Wanted(l)))
    else
      t.(logs := t.logs + [Log(t.nextLog, order, l.part, Wanted(l), false)], nextLog := t.nextLog + 1,
         published := t.published + (if lost then [] else [Pool.Deficit(l.sku, Wanted(l), order, 0)]))
  }

  /** Requirement by requirement, up to the first write that fails. */
  function ReconciledAll(t: Mrp, order: string, ls: seq<Requirement>, existing: map<nat, Log>, f: SyncFaults): Mrp
    decreases |ls|
  {
    if ls == [] || Stops(order, ls[0], existing, f) then t
    else ReconciledAll(Reconciled(t, order, ls[0], existing, ls[0].part in f.lost), order, ls[1..], existing, f)
  }

  predicate NoneStops(order: string, ls: seq<Requirement>, existing: map<nat, Log>, f: SyncFaults) {
    forall i :: 0 <= i < |ls| ==> !Stops(order, ls[i], existing, f)
  }

  function AfterSync(t: Mrp, order: string, ls: seq<Requirement>, f: SyncFaults): Mrp {
    if f.readFails then t else ReconciledAll(t, order, ls, Snapshot(t.logs, order), f)
  }

  predicate SyncOk(t: Mrp, order: string, ls: seq<Requirement>, f: SyncFaults) {
    !f.readFails && NoneStops(order, ls, Snapshot(t.logs, order), f)
  }

  // ---------------------------------------------------------------- planning and readiness

  datatype CallFaults = CallFaults(createFails: bool, statusFails: bool, sync: SyncFaults, readBackFails: bool)

  datatype CallResult = Ok | Refused | Failed | Missing

  predicate CodeChar(c: char) {
    'A' <= c <= 'Z' || 'a' <= c <= 'z' || '0' <= c <= '9' || c == '_' || c == '-'
  }

  predicate Plannable(code: string, quantity: int) {
    && 0 < |code| <= 128 && (forall i :: 0 <= i < |code| ==> CodeChar(code[i]))
    && 0 < quantity <= 1_000_000
  }

  function WithStatus(t: Mrp, order: string, status: BuildStatus): Mrp
    requires order in t.orders
  {
    t.(orders := t.orders[order := t.orders[order].(status := status)])
  }

  function Inserted(t: Mrp, id: string, code: string, quantity: int): Mrp {
    t.(orders := t.orders[id := ProductionOrder(code, quantity, ClearToBuild)])
  }

  /** es is the bill of materials read for the order's model. Planning reconciles first and sets the status last. */
  function AfterPlan(t: Mrp, id: string, code: string, quantity: int, es: seq<Bom.Entry>, s: Supply,
          f: CallFaults): Mrp {
    if !Plannable(code, quantity) || f.createFails then t
    else
      var created := Inserted(t, id, code, quantity);
      var ls := Explosion(es, quantity, s);
      if ls.None? then created
      else
        var synced := AfterSync(created, id, ls.value, f.sync);
        if !SyncOk(created, id, ls.value, f.sync) || StatusFor(ls.value) == ClearToBuild || f.statusFails then synced
        else synced.(orders := synced.orders[id := ProductionOrder(code, quantity, StatusFor(ls.value))])
  }

  function PlanOutcome(t: Mrp, id: string, code: string, quantity: int, es: seq<Bom.Entry>, s: Supply,
          f: CallFaults): CallResult {
    if !Plannable(code, quantity) then Refused
    else
      var ls := Explosion(es, quantity, s);
      if f.createFails || ls.None? || !SyncOk(Inserted(t, id, code, quantity), id, ls.value, f.sync)
         || (StatusFor(ls.value) != ClearToBuild && f.statusFails) || f.readBackFails then Failed
      else Ok
  }

  /** A readiness row sets the status first and reconciles last. */
  function AfterReadiness(t: Mrp, id: string, es: seq<Bom.Entry>, s: Supply, f: CallFaults): Mrp {
    if id !in t.orders || Explosion(es, t.orders[id].quantity, s).None? then t
    else
      var ls := Explosion(es, t.orders[id].quantity, s).value;
      if StatusFor(ls) != t.orders[id].status && f.statusFails then t
      else AfterSync(WithStatus(t, id, StatusFor(ls)), id, ls, f.sync)
  }

  function ReadinessOutcome(t: Mrp, id: string, es: seq<Bom.Entry>, s: Supply, f: CallFaults): CallResult {
    if id !in t.orders then Missing
    else if Explosion(es, t.orders[id].quantity, s).None? then Failed
    else
      var ls := Explosion(es, t.orders[id].quantity, s).value;
      if (StatusFor(ls) != t.orders[id].status && f.statusFails) || !SyncOk(t, id, ls, f.sync) then Failed
      else Ok
  }

  function WithoutOrder(logs: seq<Log>, order: string): seq<Log> {
    if logs == [] then []
    else if logs[0].order == order then WithoutOrder(logs[1..], order)
    else [logs[0]] + WithoutOrder(logs[1..], order)
  }

  /** Removing an order takes its logs with it, in one transaction. */
  function AfterRemove(t: Mrp, id: string, fails: bool): Mrp {
    if id !in t.orders || fails then t
    else t.(orders := t.orders - {id}, logs := WithoutOrder(t.logs, id))
  }

  // ---------------------------------------------------------------- buildable quantity

  /** Division that drops the fraction. */
  function Truncated(a: int, b: int): int
    requires b != 0
  {
    var q := (if a < 0 then -a else a) / (if b < 0 then -b else b);
    if (a < 0) == (b < 0) then q else -q
  }

  function CanBuild(l: Requirement, quantity: int): int
    requires l.required != 0
  {
    Truncated(l.available * quantity, l.required)
  }

  function LeastBuild(ls: seq<Requirement>, quantity: int, least: int): int {
    if ls == [] then least
    else if ls[0].required == 0 || CanBuild(ls[0], quantity) >= least then LeastBuild(ls[1..], quantity, least)
    else LeastBuild(ls[1..], quantity, CanBuild(ls[0], quantity))
  }

  /** How many units the stock on hand is enough for, up to the ordered quantity. */
  function QtyReady(ls: seq<Requirement>, quantity: int): int {
    if ls == [] then quantity
    else if LeastBuild(ls, quantity, quantity) < 0 then 0
    else LeastBuild(ls, quantity, quantity)
  }
}
