/**
 The production service's planning and readiness calls over the order and shortage tables, and the hand-off of
 shortages to procurement.
 */
module ReadinessService {
  import opened Sequences
  import opened Options
  import opened Text
  import opened MrpModel
  import Bom = BomModel
  import Buying = ProcurementModel
  import Pool = DeficitPool

  /** The live logs of an order, in table order. */
  function OrderLogs(logs: seq<Log>, order: string): seq<Log> {
    if logs == [] then []
    else
      var before, g := OrderLogs(logs[..|logs| - 1], order), logs[|logs| - 1];
      if g.order == order && !g.deleted then before + [g] else before
  }

  lemma {:induction false} SnapshotOfOrderLogs(logs: seq<Log>, order: string)
    ensures Snapshot(OrderLogs(logs, order), order) == Snapshot(logs, order)
    ensures forall i :: 0 <= i < |OrderLogs(logs, order)| ==>
              OrderLogs(logs, order)[i].order == order && !OrderLogs(logs, order)[i].deleted
  {
    if logs != [] {
      var before, g := logs[..|logs| - 1], logs[|logs| - 1];
      SnapshotOfOrderLogs(before, order);
      if g.order == order && !g.deleted {
        SnapshotOfOneMore(OrderLogs(before, order), g);
        assert OrderLogs(logs, order) == OrderLogs(before, order) + [g];
      }
    }
  }

  lemma SnapshotOfOneMore(logs: seq<Log>, g: Log)
    requires !g.deleted
    ensures Snapshot(logs + [g], g.order) == Snapshot(logs, g.order)[g.part := g]
  {
    assert (logs + [g])[..|logs|] == logs;
  }

  function Joined(out: seq<Requirement>, rest: Option<seq<Requirement>>): Option<seq<Requirement>> {
    if rest.None? then None else Some(out + rest.value)
  }

  lemma JoinedTwice(out: seq<Requirement>, l: Requirement, rest: Option<seq<Requirement>>)
    ensures Joined(out, Joined([l], rest)) == Joined(out + [l], rest)
    ensures Joined([], rest) == rest
  {
    assert rest.Some? ==> out + ([l] + rest.value) == out + [l] + rest.value;
    assert rest.Some? ==> [] + rest.value == rest.value;
  }

  method IncomingQty(listing: seq<Buying.PurchaseOrder>, sku: string) returns (incoming: int)
    ensures incoming == Incoming(listing, sku)
  {
    incoming := 0;
    for i := 0 to |listing|
      invariant incoming + Incoming(listing[i..], sku) == Incoming(listing, sku)
    {
      ShorterSuffix(listing, i);
      var status, lines := listing[i].status, listing[i].lines;
      if Coming(status) {
        ghost var before := incoming;
        for j := 0 to |lines|
          invariant incoming + IncomingOf(status, lines[j..], sku) == before + IncomingOf(status, lines, sku)
        {
          ShorterSuffix(lines, j);
          if lines[j].sku == sku {
            if status == Buying.Partial {
              var remaining := lines[j].ordered - lines[j].received;
              if remaining > 0 {
                incoming := incoming + remaining;
              }
            } else {
              incoming := incoming + lines[j].ordered;
            }
          }
        }
      }
    }
  }

  method RunBomExplosion(es: seq<Bom.Entry>, quantity: int, s: Supply) returns (r: Option<seq<Requirement>>)
    ensures r == Explosion(es, quantity, s)
  {
    var results: seq<Requirement> := [];
    assert es[0..] == es;
    JoinedTwice([], Requirement(0, "", 0, 0, 0, false), Explosion(es, quantity, s));
    for i := 0 to |es|
      invariant Explosion(es, quantity, s) == Joined(results, Explosion(es[i..], quantity, s))
    {
      ShorterSuffix(es, i);
      var required := es[i].qty * quantity;
      if required <= 0 {
        return None;
      }
      if es[i].part == 0 || es[i].part !in s.parts || Trim(s.parts[es[i].part].sku) == [] {
        return None;
      }
      var part := s.parts[es[i].part];
      var incoming := IncomingQty(s.listing, part.sku);
      var l := Requirement(es[i].part, part.sku, required, part.stock, incoming, required > part.stock + incoming);
      JoinedTwice(results, l, Explosion(es[i + 1..], quantity, s));
      results := results + [l];
    }
    assert es[|es|..] == [] && results + [] == results;
    r := Some(results);
  }

  method DeriveReadinessStatus(ls: seq<Requirement>) returns (status: BuildStatus)
    ensures status == StatusFor(ls)
  {
    for i := 0 to |ls|
      invariant forall j :: 0 <= j < i ==> !ls[j].short
    {
      if ls[i].short {
        return Shortage;
      }
    }
    status := ClearToBuild;
  }

  datatype Priority = High | Normal | Low

  function ShortLines(ls: seq<Requirement>): nat {
    if ls == [] then 0 else (if ls[0].short then 1 else 0) + ShortLines(ls[1..])
  }

  /** The demand view's figures for one readiness row. */
  method SummarizeDemand(quantity: int, status: BuildStatus, ls: seq<Requirement>)
    returns (qtyReady: int, missing: nat, priority: Priority)
    ensures qtyReady == QtyReady(ls, quantity)
    ensures missing == ShortLines(ls)
    ensures priority == if status == Shortage || status == PartlyReady then High else if status == Planned then Low
            else Normal
  {
    qtyReady, missing := quantity, 0;
    if |ls| > 0 {
      var minBuild := quantity;
      for i := 0 to |ls|
        invariant LeastBuild(ls[i..], quantity, minBuild) == LeastBuild(ls, quantity, quantity)
        invariant missing + ShortLines(ls[i..]) == ShortLines(ls)
      {
        ShorterSuffix(ls, i);
        if ls[i].short {
          missing := missing + 1;
        }
        if ls[i].required == 0 {
          continue;
        }
        var canBuild := Truncated(ls[i].available * quantity, ls[i].required);
        if canBuild < minBuild {
          minBuild := canBuild;
        }
      }
      qtyReady := if minBuild < 0 then 0 else minBuild;
    }
    priority := Normal;
    if status == Shortage || status == PartlyReady {
      priority := High;
    } else if status == Planned {
      priority := Low;
    }
  }

  class ProductionService {
    var orders: map<string, ProductionOrder>
    var logs: seq<Log>
    var nextLog: nat
    var published: seq<Pool.Delivery>

    constructor ()
      ensures View() == Mrp(map[], [], 0, [])
    {
      orders, logs, nextLog, published := map[], [], 0, [];
    }

    ghost function View(): Mrp
      reads this
    {
      Mrp(orders, logs, nextLog, published)
    }

    // -------------------------------------------------------------- shortage logs

    method GetShortagesByOrder(order: string) returns (found: seq<Log>)
      ensures found == OrderLogs(logs, order)
    {
      found := [];
      for i := 0 to |logs|
        invariant found == OrderLogs(logs[..i], order)
      {
        assert logs[..i + 1][..i] == logs[..i];
        if logs[i].order == order && !logs[i].deleted {
          found := found + [logs[i]];
        }
      }
      WholePrefix(logs);
    }

    method CreateShortageLog(order: string, part: nat, qty: int, fails: bool) returns (ok: bool)
      modifies `logs, `nextLog
      ensures ok == !fails
      ensures logs == if fails then old(logs) else old(logs) + [Log(old(nextLog), order, part, qty, false)]
      ensures nextLog == old(nextLog) + (if fails then 0 else 1)
    {
      if fails {
        return false;
      }
      logs, nextLog := logs + [Log(nextLog, order, part, qty, false)], nextLog + 1;
      ok := true;
    }

    method UpdateShortageLog(id: nat, qty: int, fails: bool) returns (ok: bool)
      modifies `logs
      ensures ok == !fails
      ensures logs == if fails then old(logs) else WithQty(old(logs), id, qty)
    {
      if fails {
        return false;
      }
      var rows: seq<Log> := [];
      for i := 0 to |logs|
        invariant logs == old(logs)
        invariant rows + WithQty(logs[i..], id, qty) == WithQty(logs, id, qty)
      {
        ShorterSuffix(logs, i);
        rows := rows + [if logs[i].id == id && !logs[i].deleted then logs[i].(qty := qty) else logs[i]];
      }
      logs, ok := rows, true;
    }

    method DeleteShortageLog(order: string, part: nat, fails: bool) returns (ok: bool)
      modifies `logs
      ensures ok == !(order == [] || part == 0 || fails)
      ensures logs == if ok then Deleted(old(logs), order, part) else old(logs)
    {
      if order == [] || part == 0 || fails {
        return false;
      }
      var rows: seq<Log> := [];
      for i := 0 to |logs|
        invariant logs == old(logs)
        invariant rows + Deleted(logs[i..], order, part) == Deleted(logs, order, part)
      {
        ShorterSuffix(logs, i);
        rows := rows + [if IsLive(logs[i], order, part) then logs[i].(deleted := true) else logs[i]];
      }
      logs, ok := rows, true;
    }

    // -------------------------------------------------------------- reconciliation

    method SyncShortage(order: string, l: Requirement, existing: map<nat, Log>, f: SyncFaults) returns (ok: bool)
      modifies `logs, `nextLog, `published
      ensures ok == !Stops(order, l, existing, f)
      ensures View() == if ok then old(Reconciled(View(), order, l, existing, l.part in f.lost)) else old(View())
    {
      ok := true;
      if l.short {
        var qty := l.required - (l.available + l.incoming);
        if qty <= 0 {
          if l.part in existing {
            ok := DeleteShortageLog(order, l.part, l.part in f.failing);
          }
          return;
        }
        if l.part in existing {
          if existing[l.part].qty != qty {
            ok := UpdateShortageLog(existing[l.part].id, qty, l.part in f.failing);
          }
        } else {
          ok := CreateShortageLog(order, l.part, qty, l.part in f.failing);
          if ok && l.part !in f.lost {
            published := published + [Pool.Deficit(l.sku, qty, order, 0)];
          }
        }
      } else if l.part in existing {
        ok := DeleteShortageLog(order, l.part, l.part in f.failing);
      }
    }

    method SyncShortages(order: string, ls: seq<Requirement>, f: SyncFaults) returns (ok: bool)
      modifies `logs, `nextLog, `published
      ensures ok == old(SyncOk(View(), order, ls, f))
      ensures View() == old(AfterSync(View(), order, ls, f))
    {
      if f.readFails {
        return false;
      }
      var found := GetShortagesByOrder(order);
      var existing: map<nat, Log> := map[];
      SnapshotOfOrderLogs(logs, order);
      for i := 0 to |found|
        invariant View() == old(View())
        invariant existing == Snapshot(found[..i], order)
      {
        assert found[..i + 1][..i] == found[..i];
        existing := existing[found[i].part := found[i]];
      }
      WholePrefix(found);
      for i := 0 to |ls|
        invariant ReconciledAll(View(), order, ls[i..], existing, f) == old(AfterSync(View(), order, ls, f))
        invariant forall j :: 0 <= j < i ==> !Stops(order, ls[j], existing, f)
      {
        ShorterSuffix(ls, i);
        var written := SyncShortage(order, ls[i], existing, f);
        if !written {
          return false;
        }
      }
      ok := true;
    }

    // -------------------------------------------------------------- planning and readiness

    method PlanProduction(id: string, code: string, quantity: int, es: seq<Bom.Entry>, s: Supply, f: CallFaults)
      returns (r: CallResult, shortages: seq<Log>)
      modifies this
      ensures r == old(PlanOutcome(View(), id, code, quantity, es, s, f))
      ensures View() == old(AfterPlan(View(), id, code, quantity, es, s, f))
      ensures r == Ok ==> shortages == OrderLogs(logs, id)
    {
      shortages := [];
      if |code| == 0 || |code| > 128 {
        return Refused, [];
      }
      if exists i :: 0 <= i < |code| && !CodeChar(code[i]) {
        return Refused, [];
      }
      if quantity <= 0 || quantity > 1_000_000 {
        return Refused, [];
      }
      if f.createFails {
        return Failed, [];
      }
      orders := orders[id := ProductionOrder(code, quantity, ClearToBuild)];
      var ls := RunBomExplosion(es, quantity, s);
      if ls.None? {
        return Failed, [];
      }
      var status := DeriveReadinessStatus(ls.value);
      var synced := SyncShortages(id, ls.value, f.sync);
      if !synced {
        return Failed, [];
      }
      if status != ClearToBuild {
        if f.statusFails {
          return Failed, [];
        }
        orders := orders[id := ProductionOrder(code, quantity, status)];
      }
      if f.readBackFails {
        return Failed, [];
      }
      shortages := GetShortagesByOrder(id);
      r := Ok;
    }

    method BuildReadinessRow(id: string, es: seq<Bom.Entry>, s: Supply, f: CallFaults)
      returns (r: CallResult, status: BuildStatus, breakdown: seq<Requirement>)
      modifies this
      ensures r == old(ReadinessOutcome(View(), id, es, s, f))
      ensures View() == old(AfterReadiness(View(), id, es, s, f))
      ensures r == Ok ==> id in old(orders) && Explosion(es, old(orders)[id].quantity, s) == Some(breakdown)
                          && status == StatusFor(breakdown)
    {
      status, breakdown := ClearToBuild, [];
      if id !in orders {
        r := Missing;
        return;
      }
      var ls := RunBomExplosion(es, orders[id].quantity, s);
      if ls.None? {
        r := Failed;
        return;
      }
      breakdown := ls.value;
      status := DeriveReadinessStatus(breakdown);
      assert orders[id := orders[id].(status := orders[id].status)] == orders;
      if status != orders[id].status {
        if f.statusFails {
          r := Failed;
          return;
        }
        orders := orders[id := orders[id].(status := status)];
      }
      var synced := SyncShortages(id, breakdown, f.sync);
      r := if synced then Ok else Failed;
    }

    method DeleteProductionOrder(id: string, fails: bool) returns (r: CallResult)
      modifies this
      ensures r == if id !in old(orders) then Missing else if fails then Failed else Ok
      ensures View() == old(AfterRemove(View(), id, fails))
    {
      if id !in orders {
        return Missing;
      }
      if fails {
        return Failed;
      }
      var kept: seq<Log> := [];
      for i := 0 to |logs|
        invariant View() == old(View())
        invariant kept + WithoutOrder(logs[i..], id) == WithoutOrder(logs, id)
      {
        ShorterSuffix(logs, i);
        if logs[i].order != id {
          kept := kept + [logs[i]];
        }
      }
      logs, orders := kept, orders - {id};
      r := Ok;
    }
  }
}
