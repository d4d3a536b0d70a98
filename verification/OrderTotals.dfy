/**
 What a purchase order is worth: quantity times price, line by line, at the prices its stock rows had when the lines
 were added.
 */
module OrderTotals {
  import opened Sequences
  import opened Money
  import opened ProcurementModel
  import opened ReceivingLaws
  import opened OrderLaws
  import Pool = DeficitPool

  lemma ValueOfOne(l: OrderLine)
    ensures Value([]) == 0.0 && Value([l]) == Cost(l.ordered, l.price)
  {
    assert [l][1..] == [];
  }

  lemma {:induction false} ValueOfSum(a: seq<OrderLine>, b: seq<OrderLine>)
    ensures Value(a + b) == Value(a) + Value(b)
  {
    if a == [] {
      EmptySums(b);
    } else {
      TailOfSum(a, b);
      ValueOfSum(a[1..], b);
    }
  }

  // ---------------------------------------------------------------- a run

  /** What a step spends on an order: for a line that is added, its quantity at the unit cost in stock at that time. */
  function Spends(p: Procurement, s: Step, id: OrderId): real {
    if s.AddLine? && s.id == id && AddLineOutcome(p, id, s.sku, s.qty, s.lockFaults, s.fails) == Ok
    then Cost(s.qty, p.stock[s.sku].unitCost)
    else 0.0
  }

  function Spent(p: Procurement, steps: seq<Step>, id: OrderId): real
    decreases |steps|
  {
    if steps == [] then 0.0 else Spends(p, steps[0], id) + Spent(Apply(p, steps[0]), steps[1..], id)
  }

  lemma ValueOfOneMore(lines: seq<OrderLine>, sku: string, qty: int, price: real)
    ensures Value(lines + [OrderLine(sku, qty, 0, price)]) == Value(lines) + Cost(qty, price)
  {
    ValueOfSum(lines, [OrderLine(sku, qty, 0, price)]);
    ValueOfOne(OrderLine(sku, qty, 0, price));
  }

  lemma LineAdded(p: Procurement, id: OrderId, sku: string, qty: int, f: Pool.Faults, fails: bool)
    requires id in p.orders && AddLineOutcome(p, id, sku, qty, f, fails) == Ok
    ensures sku in p.stock
    ensures AfterAddLine(p, id, sku, qty, f, fails).orders
         == p.orders[id := p.orders[id].(
              lines := p.orders[id].lines + [OrderLine(sku, qty, 0, p.stock[sku].unitCost)])]
  {
  }

  lemma LineCosts(p: Procurement, id: OrderId, sku: string, qty: int, f: Pool.Faults, fails: bool)
    requires id in p.orders && AddLineOutcome(p, id, sku, qty, f, fails) == Ok
    ensures var p' := AfterAddLine(p, id, sku, qty, f, fails);
            && id in p'.orders
            && p'.orders[id] == p.orders[id].(
                 lines := p.orders[id].lines + [OrderLine(sku, qty, 0, p.stock[sku].unitCost)])
            && Value(p'.orders[id].lines) == Value(p.orders[id].lines) + Cost(qty, p.stock[sku].unitCost)
  {
    LineAdded(p, id, sku, qty, f, fails);
    ValueOfOneMore(p.orders[id].lines, sku, qty, p.stock[sku].unitCost);
  }

  lemma StepSpends(p: Procurement, s: Step, id: OrderId)
    requires id in p.orders && p.orders[id].status == Draft
    ensures id in Apply(p, s).orders
    ensures Value(Apply(p, s).orders[id].lines) == Value(p.orders[id].lines) + Spends(p, s, id)
  {
    if !s.AddLine? {
      OtherStepsKeepValue(p, s, id);
    } else if Spends(p, s, id) != 0.0 || s.id == id {
      AddingSpends(p, s, id);
    }
  }

  lemma AddingSpends(p: Procurement, s: Step, id: OrderId)
    requires s.AddLine? && id in p.orders && p.orders[id].status == Draft && s.id == id
    ensures id in Apply(p, s).orders
    ensures Value(Apply(p, s).orders[id].lines) == Value(p.orders[id].lines) + Spends(p, s, id)
  {
    var p' := AfterAddLine(p, id, s.sku, s.qty, s.lockFaults, s.fails);
    if AddLineOutcome(p, id, s.sku, s.qty, s.lockFaults, s.fails) == Ok {
      LineCosts(p, id, s.sku, s.qty, s.lockFaults, s.fails);
    } else {
      assert p'.orders == p.orders && Spends(p, s, id) == 0.0;
    }
  }

  lemma OtherStepsKeepValue(p: Procurement, s: Step, id: OrderId)
    requires !s.AddLine? && id in p.orders
    ensures id in Apply(p, s).orders && Value(Apply(p, s).orders[id].lines) == Value(p.orders[id].lines)
  {
    if s.Receive? {
      ReceiveKeepsValue(p, s.receipt, s.operator, s.counts, s.now, s.faults, id);
    } else if !OrderCall(s) {
      assert Apply(p, s).orders == p.orders;
    }
  }

  lemma ReceiveKeepsValue(p: Procurement, r: ReceiptId, operator: nat, counts: map<string, Count>, now: nat,
          f: ReceiveFaults, id: OrderId)
    requires id in p.orders
    ensures var p' := AfterReceive(p, r, operator, counts, now, f);
            id in p'.orders && Value(p'.orders[id].lines) == Value(p.orders[id].lines)
  {
    if Completes(p, r, operator, counts, now, f) {
      ReceiveWrites(p, r, operator, counts, now, f);
      CreditedValue(p.orders[p.receipts[r].orderRef].lines, Receiving(p, r, counts, now, f).lines, f.lostCredits, 0);
    }
  }

  lemma {:induction false} RunSpends(p: Procurement, steps: seq<Step>, id: OrderId)
    requires id in p.orders && id in Run(p, steps).orders && Run(p, steps).orders[id].status == Draft
    ensures Value(Run(p, steps).orders[id].lines) == Value(p.orders[id].lines) + Spent(p, steps, id)
    ensures p.orders[id].status == Draft
    decreases |steps|
  {
    if steps != [] {
      var p' := Apply(p, steps[0]);
      StepFollows(p, steps[0]);
      RunSpends(p', steps[1..], id);
      StepSpends(p, steps[0], id);
    }
  }

  /** A draft that is approved at the end of a run in which it was filled is worth what was spent on it: of every line
      that was added, the quantity times the unit cost its stock row had at that call. */
  lemma ApprovedAtCost(p: Procurement, steps: seq<Step>, id: OrderId)
    requires id in p.orders && p.orders[id].lines == []
    requires ApproveOutcome(Run(p, steps), id, false) == Ok
    ensures var p' := AfterApprove(Run(p, steps), id, false);
            && id in p'.orders && p'.orders[id].status == Approved
            && p'.orders[id].total == Spent(p, steps, id)
            && p'.orders[id].lines == Run(p, steps).orders[id].lines
  {
    RunSpends(p, steps, id);
  }
}
