/**
 Operator locks over whole runs: while a hold lasts, nobody else gets through, whoever else calls and
 however often the holder renews.
 */
module LockLaws {
  import opened Options
  import opened ProcurementModel
  import opened ReceivingLaws

  /** The record is held by the operator at least until the given time. */
  predicate HoldsUntil(l: OperatorLock, operator: nat, until: nat) {
    l.owner == Some(operator) && l.expires.Some? && l.expires.value >= until
  }

  function TimeOf(s: Step): Option<nat> {
    match s
    case LockShipment(_, _, now, _) => Some(now)
    case Dispatch(_, _, now, _) => Some(now)
    case LockReceipt(_, _, now, _) => Some(now)
    case Receive(_, _, _, now, _) => Some(now)
    case _ => None
  }

  predicate Within(s: Step, from: nat, until: nat) {
    TimeOf(s).Some? ==> from <= TimeOf(s).value < until
  }

  // ---------------------------------------------------------------- receipts

  /** The operator who gets through to a receipt in this step, if anyone does. */
  function ReceiptUser(p: Procurement, s: Step, r: ReceiptId): Option<nat> {
    match s
    case LockReceipt(receipt, operator, now, fails) =>
      if receipt == r && LockReceiptOutcome(p, r, operator, now, fails) == Ok then Some(operator) else None
    case Receive(receipt, operator, _, now, _) =>
      if receipt == r && ReceiveError(p, r, operator, now).None? then Some(operator) else None
    case _ => None
  }

  lemma ReceiptHoldSurvives(p: Procurement, s: Step, r: ReceiptId, holder: nat, from: nat)
    requires r in p.receipts && HoldsUntil(p.receipts[r].hold, holder, from + RECEIPT_HOLD)
    requires Within(s, from, from + RECEIPT_HOLD)
    requires s != UnlockReceipt(r, false)
    ensures ReceiptUser(p, s, r) == None || ReceiptUser(p, s, r) == Some(holder)
    ensures r in Apply(p, s).receipts && HoldsUntil(Apply(p, s).receipts[r].hold, holder, from + RECEIPT_HOLD)
  {
    if s.Receive? {
      ReceiveFrame(p, s.receipt, s.operator, s.counts, s.now, s.faults);
    }
  }

  /** From a successful acquisition, in every run of less than an hour in which the lock is not released,
      nobody but the holder acquires or processes the receipt. */
  lemma {:induction false} ReceiptLockExcludes(p: Procurement, r: ReceiptId, holder: nat, from: nat,
          steps: seq<Step>, i: nat)
    requires r in p.receipts && HoldsUntil(p.receipts[r].hold, holder, from + RECEIPT_HOLD)
    requires forall s :: s in steps ==> Within(s, from, from + RECEIPT_HOLD) && s != UnlockReceipt(r, false)
    requires i < |steps|
    ensures ReceiptUser(Run(p, steps[..i]), steps[i], r) in {None, Some(holder)}
    decreases |steps|
  {
    assert steps[0] in steps && forall s :: s in steps[1..] ==> s in steps;
    ReceiptHoldSurvives(p, steps[0], r, holder, from);
    if i > 0 {
      ReceiptLockExcludes(Apply(p, steps[0]), r, holder, from, steps[1..], i - 1);
      assert steps[..i][1..] == steps[1..][..i - 1];
    }
  }

  lemma AcquiringReceiptHolds(p: Procurement, r: ReceiptId, operator: nat, now: nat)
    requires LockReceiptOutcome(p, r, operator, now, false) == Ok
    ensures HoldsUntil(AfterLockReceipt(p, r, operator, now, false).receipts[r].hold, operator, now + 60)
  {
  }

  // ---------------------------------------------------------------- shipments

  function ShipmentUser(p: Procurement, s: Step, id: nat): Option<nat> {
    match s
    case LockShipment(shipment, operator, now, fails) =>
      if shipment == id && LockShipmentOutcome(p, id, operator, now, fails) == Ok then Some(operator) else None
    case Dispatch(shipment, operator, now, fails) =>
      if shipment == id && DispatchOutcome(p, id, operator, now, fails) == Ok then Some(operator) else None
    case _ => None
  }

  lemma ShipmentHoldSurvives(p: Procurement, s: Step, id: nat, holder: nat, from: nat)
    requires id in p.shipments && HoldsUntil(p.shipments[id].hold, holder, from + DISPATCH_HOLD)
    requires Within(s, from, from + DISPATCH_HOLD)
    requires s != UnlockShipment(id, false)
    ensures ShipmentUser(p, s, id) == None || ShipmentUser(p, s, id) == Some(holder)
    ensures id in Apply(p, s).shipments
    ensures HoldsUntil(Apply(p, s).shipments[id].hold, holder, from + DISPATCH_HOLD)
         || (s.Dispatch? && s.shipment == id && ShipmentUser(p, s, id) == Some(holder))
  {
    if !ShipmentCall(s) {
      OtherCallsKeepShipments(p, s);
    } else if StatusCall(s) {
      StatusCallWrites(p, s);
    }
  }

  predicate Dispatched(p: Procurement, id: nat, s: Step) {
    s.Dispatch? && s.shipment == id && ShipmentUser(p, s, id).Some?
  }

  predicate NotDispatched(p: Procurement, id: nat, steps: seq<Step>)
    decreases |steps|
  {
    steps == [] || (!Dispatched(p, id, steps[0]) && NotDispatched(Apply(p, steps[0]), id, steps[1..]))
  }

  /** From a successful acquisition, in every run of less than half an hour, nobody but the holder acquires or
      dispatches the shipment until it is released or dispatched. */
  lemma {:induction false} ShipmentLockExcludes(p: Procurement, id: nat, holder: nat, from: nat, steps: seq<Step>,
          i: nat)
    requires id in p.shipments && HoldsUntil(p.shipments[id].hold, holder, from + DISPATCH_HOLD)
    requires forall s :: s in steps ==> Within(s, from, from + DISPATCH_HOLD) && s != UnlockShipment(id, false)
    requires i < |steps| && NotDispatched(p, id, steps[..i])
    ensures ShipmentUser(Run(p, steps[..i]), steps[i], id) in {None, Some(holder)}
    decreases |steps|
  {
    assert steps[0] in steps && forall s :: s in steps[1..] ==> s in steps;
    ShipmentHoldSurvives(p, steps[0], id, holder, from);
    if i > 0 {
      assert steps[..i][0] == steps[0];
      assert steps[..i][1..] == steps[1..][..i - 1];
      ShipmentLockExcludes(Apply(p, steps[0]), id, holder, from, steps[1..], i - 1);
    }
  }

  /** What a hold does not keep out: the general transition asks for no operator, and delivery for no lock. While
      somebody holds a shipment, its status changes in exactly three ways. */
  lemma HeldShipmentMovesIff(p: Procurement, s: Step, id: nat, holder: nat, from: nat)
    requires id in p.shipments && HoldsUntil(p.shipments[id].hold, holder, from + DISPATCH_HOLD)
    requires Within(s, from, from + DISPATCH_HOLD)
    ensures id in Apply(p, s).shipments
    ensures Apply(p, s).shipments[id].status != p.shipments[id].status <==>
              || (s.Dispatch? && s.shipment == id && s.operator == holder && p.shipments[id].status == Scheduled
                   && !s.fails)
              || (s.MoveShipment? && s.shipment == id
                  && ValidShipmentTransition(p.shipments[id].status, s.nextShipment) && !s.fails)
              || (s.Deliver? && s.shipment == id && p.shipments[id].status == Underway && !s.deliverFault.StatusFails?)
  {
    if !ShipmentCall(s) {
      OtherCallsKeepShipments(p, s);
    } else if StatusCall(s) {
      StatusCallWrites(p, s);
    }
  }

  /** So anybody can send a scheduled shipment on its way past the holder, whose dispatch is then refused although the
      hold still stands. */
  lemma TransitionPassesTheHolder(p: Procurement, id: nat, holder: nat, now: nat)
    requires id in p.shipments && p.shipments[id].status == Scheduled
    requires HoldsUntil(p.shipments[id].hold, holder, now)
    ensures DispatchOutcome(p, id, holder, now, false) == Ok
    ensures var p' := AfterMoveShipment(p, id, Underway, false);
            && p'.shipments[id].status == Underway
            && p'.shipments[id].hold == p.shipments[id].hold
            && DispatchOutcome(p', id, holder, now, false) == AlreadyDispatched
  {
  }

  lemma AcquiringShipmentHolds(p: Procurement, id: nat, operator: nat, now: nat)
    requires LockShipmentOutcome(p, id, operator, now, false) == Ok
    ensures HoldsUntil(AfterLockShipment(p, id, operator, now, false).shipments[id].hold, operator, now + 30)
  {
  }

  /** The instant of expiry belongs to both: another operator may take the lock, and until that happens the
      holder may still use it. Later only another may. */
  lemma ExpiryBoundary(l: OperatorLock, holder: nat, other: nat, now: nat)
    requires l.owner == Some(holder) && l.expires.Some? && other != holder
    ensures HeldByOther(l, other, now) <==> now < l.expires.value
    ensures HoldError(l, holder, now).None? <==> now <= l.expires.value
  {
  }
}
