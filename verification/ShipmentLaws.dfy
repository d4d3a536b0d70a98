/**
 Shipments and the receipts they create, over whole runs: a shipment is dispatched at most once, delivered
 for good, and turned into at most one receipt, under an id no other receipt has.
 */
module ShipmentLaws {
  import opened ProcurementModel
  import opened ReceivingLaws

  /** What any step may do to an existing shipment. */
  predicate Advances(s: Shipment, s': Shipment) {
    && s'.orderRef == s.orderRef
    && (s'.status == Scheduled ==> s.status == Scheduled)
    && (s.status == Delivered ==> s'.status == Delivered)
  }

  /** The journey relation: forward, and in and out of a delay only from and to being under way. */
  lemma JourneyTable(current: ShipmentStatus, next: ShipmentStatus)
    ensures ValidShipmentTransition(current, next) <==>
              || (current == Scheduled && next in {Underway, Delivered})
              || (current == Underway && next in {Delivered, Delayed})
              || (current == Delayed && next == Underway)
  {
  }

  lemma StepAdvances(p: Procurement, s: Step, id: nat)
    requires id in p.shipments
    ensures id in Apply(p, s).shipments && Advances(p.shipments[id], Apply(p, s).shipments[id])
  {
    if !ShipmentCall(s) {
      OtherCallsKeepShipments(p, s);
    } else if StatusCall(s) {
      StatusCallWrites(p, s);
    }
  }

  /** Scheduled is never re-entered and delivered is final. */
  lemma {:induction false} RunAdvances(p: Procurement, steps: seq<Step>, id: nat)
    requires id in p.shipments
    ensures id in Run(p, steps).shipments && Advances(p.shipments[id], Run(p, steps).shipments[id])
    decreases |steps|
  {
    if steps != [] {
      StepAdvances(p, steps[0], id);
      RunAdvances(Apply(p, steps[0]), steps[1..], id);
    }
  }

  // ---------------------------------------------------------------- counting events

  predicate Dispatches(p: Procurement, s: Step, id: nat) {
    s.Dispatch? && s.shipment == id && DispatchOutcome(p, id, s.operator, s.now, s.fails) == Ok
  }

  /** The step marks the shipment delivered, which is what creates its receipt. */
  predicate Delivers(p: Procurement, s: Step, id: nat) {
    s.Deliver? && s.shipment == id && id in p.shipments && p.shipments[id].status == Underway
        && !s.deliverFault.StatusFails?
  }

  function DispatchCount(p: Procurement, steps: seq<Step>, id: nat): nat
    decreases |steps|
  {
    if steps == [] then 0
    else (if Dispatches(p, steps[0], id) then 1 else 0) + DispatchCount(Apply(p, steps[0]), steps[1..], id)
  }

  function DeliveryCount(p: Procurement, steps: seq<Step>, id: nat): nat
    decreases |steps|
  {
    if steps == [] then 0
    else (if Delivers(p, steps[0], id) then 1 else 0) + DeliveryCount(Apply(p, steps[0]), steps[1..], id)
  }

  predicate MayDispatch(p: Procurement, id: nat) {
    id !in p.shipments || p.shipments[id].status == Scheduled
  }

  predicate MayDeliver(p: Procurement, id: nat) {
    id !in p.shipments || p.shipments[id].status != Delivered
  }

  /** In any run a shipment is dispatched at most once, and not at all once it has left the dock. */
  lemma {:induction false} DispatchedAtMostOnce(p: Procurement, steps: seq<Step>, id: nat)
    ensures DispatchCount(p, steps, id) <= if MayDispatch(p, id) then 1 else 0
    decreases |steps|
  {
    if steps != [] {
      var p' := Apply(p, steps[0]);
      DispatchedAtMostOnce(p', steps[1..], id);
      if id in p.shipments {
        StepAdvances(p, steps[0], id);
      }
    }
  }

  lemma {:induction false} DeliveredAtMostOnce(p: Procurement, steps: seq<Step>, id: nat)
    ensures DeliveryCount(p, steps, id) <= if MayDeliver(p, id) then 1 else 0
    decreases |steps|
  {
    if steps != [] {
      var p' := Apply(p, steps[0]);
      DeliveredAtMostOnce(p', steps[1..], id);
      if id in p.shipments {
        StepAdvances(p, steps[0], id);
      }
    }
  }

  // ---------------------------------------------------------------- receipts

  /** Receipts are added only by a delivery, one at a time, and never lose their purchase order. */
  lemma StepReceipts(p: Procurement, s: Step)
    ensures forall r :: r in p.receipts ==>
              r in Apply(p, s).receipts && Apply(p, s).receipts[r].orderRef == p.receipts[r].orderRef
    ensures forall r :: r in Apply(p, s).receipts && r !in p.receipts ==>
              && s.Deliver? && Delivers(p, s, s.shipment)
              && r == NextReceiptId(p, p.shipments[s.shipment].orderRef)
              && Apply(p, s).receipts[r].orderRef == p.shipments[s.shipment].orderRef
  {
    if s.Receive? {
      ReceiveFrame(p, s.receipt, s.operator, s.counts, s.now, s.faults);
    } else if OrderCall(s) {
      OrderCallsWriteOrders(p, s);
    }
  }

  /** Receipt ids name their purchase order and are numbered within its receipts. */
  ghost predicate ReceiptsNumbered(p: Procurement) {
    forall r :: r in p.receipts ==>
      r.order == p.receipts[r].orderRef && r.number <= |ReceiptsOf(p, r.order)|
  }

  lemma GrowingKeepsNumbered(p: Procurement, p': Procurement)
    requires ReceiptsNumbered(p)
    requires forall r :: r in p.receipts ==> r in p'.receipts && p'.receipts[r].orderRef == p.receipts[r].orderRef
    requires forall r :: r in p'.receipts && r !in p.receipts ==>
               r == NextReceiptId(p, r.order) && p'.receipts[r].orderRef == r.order
    ensures ReceiptsNumbered(p')
  {
    forall r | r in p'.receipts
      ensures r.order == p'.receipts[r].orderRef && r.number <= |ReceiptsOf(p', r.order)|
    {
      var before, after := ReceiptsOf(p, r.order), ReceiptsOf(p', r.order);
      assert before <= after;
      SmallerSet(before, after);
      if r !in p.receipts {
        assert r in after;
        SmallerSet(before + {r}, after);
      }
    }
  }

  lemma SmallerSet(a: set<ReceiptId>, b: set<ReceiptId>)
    requires a <= b
    ensures |a| <= |b|
  {
    assert b == a + (b - a);
  }

  lemma StepKeepsReceiptsNumbered(p: Procurement, s: Step)
    requires ReceiptsNumbered(p)
    ensures ReceiptsNumbered(Apply(p, s))
  {
    StepReceipts(p, s);
    GrowingKeepsNumbered(p, Apply(p, s));
  }

  /** So in every run the id a delivery generates is new, and the receipt it creates has the order's lines one
      for one, nothing counted yet. */
  lemma {:induction false} DeliveryCreatesAMirror(p: Procurement, steps: seq<Step>, id: nat, operator: nat)
    requires ReceiptsNumbered(p)
    ensures ReceiptsNumbered(Run(p, steps))
    ensures var q := Run(p, steps);
            id in q.shipments && q.shipments[id].status == Underway ==>
              var order := q.shipments[id].orderRef;
              var r := NextReceiptId(q, order);
              var q' := AfterDeliver(q, id, operator, DeliverFine);
              && r !in q.receipts
              && DeliverOutcome(q, id, DeliverFine) == Ok
              && q'.receipts.Keys == q.receipts.Keys + {r}
              && q'.receipts[r].orderRef == order && Uncounted(q'.receipts[r].lines)
              && |q'.receipts[r].lines| == |LinesOf(q, order)|
              && (forall i :: 0 <= i < |LinesOf(q, order)| ==>
                    && q'.receipts[r].lines[i].sku == LinesOf(q, order)[i].sku
                    && q'.receipts[r].lines[i].ordered == LinesOf(q, order)[i].ordered)
    decreases |steps|
  {
    if steps != [] {
      StepKeepsReceiptsNumbered(p, steps[0]);
      DeliveryCreatesAMirror(Apply(p, steps[0]), steps[1..], id, operator);
    } else if id in p.shipments && p.shipments[id].status == Underway {
      var order := p.shipments[id].orderRef;
      var r := NextReceiptId(p, order);
      assert r in p.receipts ==> r.number <= |ReceiptsOf(p, r.order)|;
      MirroredLines(LinesOf(p, order));
    }
  }

  lemma ReceiptGrowth(p: Procurement, s: Step)
    ensures |Apply(p, s).receipts.Keys| <=
              |p.receipts.Keys| + (if s.Deliver? && Delivers(p, s, s.shipment) then 1 else 0)
  {
    StepReceipts(p, s);
    var before, after := p.receipts.Keys, Apply(p, s).receipts.Keys;
    if s.Deliver? && Delivers(p, s, s.shipment) {
      var r := NextReceiptId(p, p.shipments[s.shipment].orderRef);
      assert after <= before + {r};
      SmallerSet(after, before + {r});
    } else {
      assert after <= before;
      SmallerSet(after, before);
    }
  }

  /** The shipments a run delivers. */
  function DeliveredIn(p: Procurement, steps: seq<Step>): set<nat>
    decreases |steps|
  {
    if steps == [] then {}
    else
      (if steps[0].Deliver? && Delivers(p, steps[0], steps[0].shipment) then {steps[0].shipment} else {})
      + DeliveredIn(Apply(p, steps[0]), steps[1..])
  }

  lemma {:induction false} DeliveredAreCounted(p: Procurement, steps: seq<Step>, id: nat)
    ensures id in DeliveredIn(p, steps) <==> DeliveryCount(p, steps, id) > 0
    decreases |steps|
  {
    if steps != [] {
      DeliveredAreCounted(Apply(p, steps[0]), steps[1..], id);
    }
  }

  /** In any run at most one receipt is added for each shipment delivered in it. */
  lemma {:induction false} RunReceiptGrowth(p: Procurement, steps: seq<Step>)
    ensures |Run(p, steps).receipts.Keys| <= |p.receipts.Keys| + |DeliveredIn(p, steps)|
    decreases |steps|
  {
    if steps != [] {
      var p' := Apply(p, steps[0]);
      ReceiptGrowth(p, steps[0]);
      RunReceiptGrowth(p', steps[1..]);
      if steps[0].Deliver? && Delivers(p, steps[0], steps[0].shipment) {
        var id := steps[0].shipment;
        DeliveredAtMostOnce(p, steps, id);
        DeliveredAreCounted(p', steps[1..], id);
        assert DeliveredIn(p, steps) == {id} + DeliveredIn(p', steps[1..]);
      } else {
        assert DeliveredIn(p, steps) == DeliveredIn(p', steps[1..]);
      }
    }
  }

  /** A new shipment carries the order's lines one for one, unless the write of an item fails. */
  lemma {:induction false} ClonedItems(lines: seq<OrderLine>, lost: set<nat>, from: nat)
    ensures |Cloned(lines, lost, from)| == |lines| <==> forall i :: from <= i < from + |lines| ==> i !in lost
    ensures |Cloned(lines, lost, from)| <= |lines|
    ensures |Cloned(lines, lost, from)| == |lines| ==>
              forall i :: 0 <= i < |lines| ==>
                Cloned(lines, lost, from)[i] == ShipmentItem(lines[i].sku, lines[i].ordered)
    decreases |lines|
  {
    if lines != [] {
      ClonedItems(lines[1..], lost, from + 1);
      assert (forall i :: from <= i < from + |lines| ==> i !in lost)
        <==> from !in lost && forall i :: from + 1 <= i < from + 1 + |lines[1..]| ==> i !in lost;
    }
  }
}
