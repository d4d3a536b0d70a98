/**
 What the planning calls answer and store, said of the bill of materials, the parts and the purchase orders they read.
 */
module MrpAnswers {
  import opened Sequences
  import opened Options
  import opened Text
  import opened MrpModel
  import opened ShortageLaws
  import ReadinessLaws
  import Bom = BomModel
  import Buying = ProcurementModel
  import Pool = DeficitPool

  // ---------------------------------------------------------------- what is coming in

  /** A single line of a single order: everything ordered while nothing can have arrived, what is missing while part of
      it has, and nothing once the order is closed. */
  lemma IncomingOfOneLine(o: Buying.PurchaseOrder, l: Buying.OrderLine, sku: string)
    requires o.lines == [l]
    ensures Incoming([o], sku)
         == if l.sku != sku then 0
            else if o.status in {Buying.Draft, Buying.Approved, Buying.InTransit} then l.ordered
            else if o.status == Buying.Partial && l.received < l.ordered then l.ordered - l.received
            else 0
  {
    assert [o][1..] == [] && [l][1..] == [];
    assert IncomingOf(o.status, [l], sku) == if l.sku == sku then Outstanding(o.status, l) else 0;
  }

  lemma {:induction false} IncomingOfLines(s: Buying.OrderStatus, a: seq<Buying.OrderLine>, b: seq<Buying.OrderLine>,
          sku: string)
    ensures IncomingOf(s, a + b, sku) == IncomingOf(s, a, sku) + IncomingOf(s, b, sku)
  {
    if a == [] {
      EmptySums(b);
    } else {
      TailOfSum(a, b);
      IncomingOfLines(s, a[1..], b, sku);
    }
  }

  /** Lines of one order add up. */
  lemma IncomingOfMoreLines(o: Buying.PurchaseOrder, a: seq<Buying.OrderLine>, b: seq<Buying.OrderLine>, sku: string)
    ensures Incoming([], sku) == 0
    ensures Incoming([o.(lines := a + b)], sku) == Incoming([o.(lines := a)], sku) + Incoming([o.(lines := b)], sku)
  {
    IncomingOfLines(o.status, a, b, sku);
    assert [o.(lines := a + b)][1..] == [] && [o.(lines := a)][1..] == [] && [o.(lines := b)][1..] == [];
  }

  /** And so do orders. */
  lemma {:induction false} IncomingOfMoreOrders(a: seq<Buying.PurchaseOrder>, b: seq<Buying.PurchaseOrder>, sku: string)
    ensures Incoming(a + b, sku) == Incoming(a, sku) + Incoming(b, sku)
  {
    if a == [] {
      EmptySums(b);
    } else {
      TailOfSum(a, b);
      IncomingOfMoreOrders(a[1..], b, sku);
    }
  }

  // ---------------------------------------------------------------- explosion

  /** The entry asks for something of a part that is known under a SKU. */
  predicate Sourceable(e: Bom.Entry, quantity: int, s: Supply) {
    e.qty * quantity > 0 && e.part != 0 && e.part in s.parts && Trim(s.parts[e.part].sku) != []
  }

  /** An explosion succeeds exactly if every entry is sourceable, and then has, entry by entry, the part and its SKU,
      the quantity per unit times the units, the stock, what is coming in, and whether that falls short. */
  lemma {:induction false} ExplosionAnswers(es: seq<Bom.Entry>, quantity: int, s: Supply)
    ensures Explosion(es, quantity, s).Some? <==> forall i :: 0 <= i < |es| ==> Sourceable(es[i], quantity, s)
    ensures Explosion(es, quantity, s).Some? ==>
              var ls := Explosion(es, quantity, s).value;
              && |ls| == |es|
              && forall i :: 0 <= i < |es| ==>
                   && es[i].part in s.parts
                   && var part := s.parts[es[i].part];
                   && ls[i].part == es[i].part && ls[i].sku == part.sku && ls[i].required == es[i].qty * quantity
                   && ls[i].available == part.stock && ls[i].incoming == Incoming(s.listing, part.sku)
                   && (ls[i].short <==> ls[i].available + ls[i].incoming < ls[i].required)
  {
    if es != [] {
      ExplosionAnswers(es[1..], quantity, s);
      assert forall i :: 0 < i < |es| ==> es[i] == es[1..][i - 1];
    }
  }

  /** The units a requirement is short of, if it is. */
  lemma WantedIsMissing(l: Requirement)
    ensures Wanted(l) == if l.short && l.required > l.available + l.incoming
                         then l.required - l.available - l.incoming else 0
  {
  }

  // ---------------------------------------------------------------- reconciliation

  /** A requirement stops a pass exactly if its log is not right and cannot be written: the write fails, or it would
      delete for a nil order or part. */
  lemma StopsIff(logs: seq<Log>, order: string, l: Requirement, existing: map<nat, Log>, f: SyncFaults)
    requires Agrees(logs, order, l.part, existing)
    ensures Stops(order, l, existing, f) <==>
              && !Right(logs, order, l)
              && (l.part in f.failing || (Wanted(l) == 0 && (order == [] || l.part == 0)))
  {
    NoWriteIfRight(logs, order, l, existing);
  }

  /** One requirement against a snapshot that agrees: nothing if its log is right; otherwise the log is deleted if there
      should be none, gets the missing quantity if there is one, and else is added last, under the next id, and
      announced unless the announcement is lost. */
  lemma RequirementAnswers(t: Mrp, order: string, l: Requirement, existing: map<nat, Log>, lost: bool)
    requires Agrees(t.logs, order, l.part, existing)
    ensures var t', had := Reconciled(t, order, l, existing, lost), LiveOf(t.logs, order, l.part) != [];
            if Right(t.logs, order, l) then t' == t
            else if Wanted(l) == 0 then t' == t.(logs := Deleted(t.logs, order, l.part))
            else if had then t' == t.(logs := WithQty(t.logs, existing[l.part].id, Wanted(l)))
            else
              && t'.logs == t.logs + [Log(t.nextLog, order, l.part, Wanted(l), false)] && t'.nextLog == t.nextLog + 1
              && t'.published == t.published + (if lost then [] else [Pool.Deficit(l.sku, Wanted(l), order, 0)])
              && t'.orders == t.orders
  {
    NoWriteIfRight(t.logs, order, l, existing);
  }

  /** A pass that breaks off has reconciled the requirements before the one that stopped it, and no others. */
  lemma {:induction false} BrokenPass(t: Mrp, order: string, ls: seq<Requirement>, existing: map<nat, Log>,
          f: SyncFaults, n: nat)
    requires n < |ls| && Stops(order, ls[n], existing, f)
    requires forall i :: 0 <= i < n ==> !Stops(order, ls[i], existing, f)
    ensures ReconciledAll(t, order, ls, existing, f) == ReconciledAll(t, order, ls[..n], existing, f)
    ensures !NoneStops(order, ls, existing, f)
    decreases n
  {
    if n > 0 {
      assert ls[..n][0] == ls[0] && ls[..n][1..] == ls[1..][..n - 1];
      BrokenPass(Reconciled(t, order, ls[0], existing, ls[0].part in f.lost), order, ls[1..], existing, f, n - 1);
    } else {
      assert ls[..n] == [];
    }
  }

  /** A write of a log touches the rows it names, live ones only, and no other. */
  lemma {:induction false} WrittenLogs(logs: seq<Log>, order: string, part: nat, id: nat, qty: int)
    ensures |WithQty(logs, id, qty)| == |logs| == |Deleted(logs, order, part)|
    ensures forall i :: 0 <= i < |logs| ==>
              var g := logs[i];
              && WithQty(logs, id, qty)[i]
                 == (if g.id == id && !g.deleted then Log(g.id, g.order, g.part, qty, false) else g)
              && Deleted(logs, order, part)[i]
                 == (if g.order == order && g.part == part then Log(g.id, order, part, g.qty, true) else g)
  {
    if logs != [] {
      WrittenLogs(logs[1..], order, part, id, qty);
      assert forall i :: 0 < i < |logs| ==> logs[i] == logs[1..][i - 1];
    }
  }

  // ---------------------------------------------------------------- planning

  const CAPITALS := "ABCDEFGHIJKLMNOPQRSTUVWXYZ"
  const SMALL := "abcdefghijklmnopqrstuvwxyz"
  const OTHERS := "0123456789_-"

  lemma CapitalsAre(c: char)
    ensures c in CAPITALS <==> 'A' <= c <= 'Z'
  {
  }

  lemma SmallAre(c: char)
    ensures c in SMALL <==> 'a' <= c <= 'z'
  {
  }

  lemma CodeCharIff(c: char)
    ensures CodeChar(c) <==> c in CAPITALS || c in SMALL || c in OTHERS
  {
    CapitalsAre(c);
    SmallAre(c);
  }

  predicate Orderly(code: string, quantity: int) {
    && 1 <= |code| <= 128 && 1 <= quantity <= 1000000
    && forall i :: 0 <= i < |code| ==> code[i] in CAPITALS || code[i] in SMALL || code[i] in OTHERS
  }

  lemma PlannableIff(code: string, quantity: int)
    ensures Plannable(code, quantity) <==> Orderly(code, quantity)
  {
    forall i | 0 <= i < |code|
      ensures CodeChar(code[i]) <==> code[i] in CAPITALS || code[i] in SMALL || code[i] in OTHERS
    {
      CodeCharIff(code[i]);
    }
  }

  predicate AnyShort(ls: seq<Requirement>) {
    exists i :: 0 <= i < |ls| && ls[i].short
  }

  /** A plan is refused exactly for a code or quantity out of bounds. Any other call whose insert works stores the
      order, marked short if it explodes, its logs can be reconciled, a requirement is short and the status write works,
      and clear otherwise; its logs are reconciled if it explodes. Nothing else changes. */
  lemma PlanAnswers(t: Mrp, id: string, code: string, quantity: int, es: seq<Bom.Entry>, s: Supply, f: CallFaults)
    ensures PlanOutcome(t, id, code, quantity, es, s, f) == Refused <==> !Orderly(code, quantity)
    ensures PlanOutcome(t, id, code, quantity, es, s, f) in {Ok, Refused, Failed}
    ensures !Orderly(code, quantity) || f.createFails ==> AfterPlan(t, id, code, quantity, es, s, f) == t
    ensures Orderly(code, quantity) && !f.createFails ==>
              var t', ls := AfterPlan(t, id, code, quantity, es, s, f), Explosion(es, quantity, s);
              var clear := t.(orders := t.orders[id := ProductionOrder(code, quantity, ClearToBuild)]);
              if ls.None? then t' == clear && PlanOutcome(t, id, code, quantity, es, s, f) == Failed
              else
                var synced, ok := AfterSync(clear, id, ls.value, f.sync), SyncOk(clear, id, ls.value, f.sync);
                var marked := if ok && AnyShort(ls.value) && !f.statusFails then Shortage else ClearToBuild;
                && t' == synced.(orders := t.orders[id := ProductionOrder(code, quantity, marked)])
                && (PlanOutcome(t, id, code, quantity, es, s, f) == Ok <==>
                      ok && !(AnyShort(ls.value) && f.statusFails) && !f.readBackFails)
  {
    PlannableIff(code, quantity);
    if Orderly(code, quantity) && !f.createFails && Explosion(es, quantity, s).Some? {
      ReadinessLaws.SyncKeepsOrders(Inserted(t, id, code, quantity), id, Explosion(es, quantity, s).value, f.sync);
    }
  }

  /** A readiness row marks the order by its requirements and then reconciles its logs; if a changed mark cannot be
      written it does neither. */
  lemma ReadinessAnswers(t: Mrp, id: string, es: seq<Bom.Entry>, s: Supply, f: CallFaults)
    ensures ReadinessOutcome(t, id, es, s, f) == Missing <==> id !in t.orders
    ensures ReadinessOutcome(t, id, es, s, f) in {Ok, Missing, Failed}
    ensures id !in t.orders ==> AfterReadiness(t, id, es, s, f) == t
    ensures id in t.orders ==>
              var t', ls := AfterReadiness(t, id, es, s, f), Explosion(es, t.orders[id].quantity, s);
              if ls.None? then t' == t && ReadinessOutcome(t, id, es, s, f) == Failed
              else
                var mark := if AnyShort(ls.value) then Shortage else ClearToBuild;
                var writes := mark == t.orders[id].status || !f.statusFails;
                var o := t.orders[id];
                var marked := t.(orders := t.orders[id := ProductionOrder(o.code, o.quantity, mark)]);
                && (!writes ==> t' == t)
                && (writes ==> t' == AfterSync(marked, id, ls.value, f.sync) && t'.orders == marked.orders)
                && (ReadinessOutcome(t, id, es, s, f) == Ok <==> writes && SyncOk(t, id, ls.value, f.sync))
  {
    if id in t.orders && Explosion(es, t.orders[id].quantity, s).Some? {
      var ls := Explosion(es, t.orders[id].quantity, s).value;
      ReadinessLaws.SyncKeepsOrders(WithStatus(t, id, StatusFor(ls)), id, ls, f.sync);
    }
  }

  // ---------------------------------------------------------------- removal

  /** The logs that stay are those of other orders, in their order. */
  lemma {:induction false} WithoutOrderAppend(logs: seq<Log>, g: Log, order: string)
    ensures WithoutOrder([], order) == []
    ensures WithoutOrder(logs + [g], order) == WithoutOrder(logs, order) + (if g.order == order then [] else [g])
  {
    if logs == [] {
      EmptySums([g]);
    } else {
      TailOfSum(logs, [g]);
      WithoutOrderAppend(logs[1..], g, order);
    }
  }

  lemma RemoveAnswers(t: Mrp, id: string, fails: bool)
    ensures AfterRemove(t, id, fails)
         == if id in t.orders && !fails then t.(orders := t.orders - {id}, logs := WithoutOrder(t.logs, id)) else t
  {
  }
}
