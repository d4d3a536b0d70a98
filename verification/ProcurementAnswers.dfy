/**
 What each procurement call answers, refusal by refusal, and exactly which records it writes.
 */
module ProcurementAnswers {
  import opened Sequences
  import opened Options
  import opened ProcurementModel
  import Pool = DeficitPool

  // ---------------------------------------------------------------- purchase orders

  predicate VendorTaken(p: Procurement, vendor: nat) {
    exists id :: id in p.orders && p.orders[id].vendor == vendor && p.orders[id].status in {Draft, Approved, InTransit}
  }

  /** A receipt of the order is neither complete nor a recorded discrepancy. */
  predicate AwaitsReceipts(p: Procurement, id: OrderId) {
    exists r :: r in p.receipts && p.receipts[r].orderRef == id
             && p.receipts[r].status !in {Complete, Discrepancy}
  }

  /** A draft is refused while its vendor has an order in draft, approved or in transit, and fails if the number after
      the count of its year is taken or the write fails; otherwise it is empty, untotalled and under that number. */
  lemma DraftAnswers(p: Procurement, vendor: nat, year: nat, fails: bool)
    ensures var next := OrderId(year, |set id | id in p.orders && id.year == year| + 1);
            var r := DraftOutcome(p, vendor, year, fails);
            && (r == MonoVendorViolation <==> VendorTaken(p, vendor))
            && (r == Ok <==> !VendorTaken(p, vendor) && !fails && next !in p.orders)
            && r in {Ok, MonoVendorViolation, Failed}
            && AfterDraft(p, vendor, year, fails)
               == if r == Ok then p.(orders := p.orders[next := PurchaseOrder(vendor, Draft, 0.0, [])]) else p
  {
    assert VendorBusy(p, vendor) <==> VendorTaken(p, vendor);
  }

  /** Only a draft takes a line. Its deficit is locked whatever becomes of the line, which is added with nothing
      received, at the stock row's unit cost, if it is locked, the row is there and the save does not fail. */
  lemma LineAnswers(p: Procurement, id: OrderId, sku: string, qty: int, f: Pool.Faults, fails: bool)
    ensures var r, locked := AddLineOutcome(p, id, sku, qty, f, fails), Pool.LockOutcome(p.deficits, sku, qty, f);
            && (r == NotFound <==> id !in p.orders)
            && (r == InvalidTransition <==> id in p.orders && p.orders[id].status != Draft)
            && (r == InsufficientDeficit <==>
                  id in p.orders && p.orders[id].status == Draft && locked == Pool.InsufficientDeficit)
            && (r == Ok <==> id in p.orders && p.orders[id].status == Draft && locked == Pool.Locked
                             && sku in p.stock && !fails)
            && r in {Ok, NotFound, InvalidTransition, InsufficientDeficit, Failed}
    ensures var p' := AfterAddLine(p, id, sku, qty, f, fails);
            && p'.deficits == (if id in p.orders && p.orders[id].status == Draft
                               then Pool.AfterLock(p.deficits, sku, qty, f) else p.deficits)
            && p'.orders == (if AddLineOutcome(p, id, sku, qty, f, fails) == Ok
                             then p.orders[id := p.orders[id].(
                               lines := p.orders[id].lines + [OrderLine(sku, qty, 0, p.stock[sku].unitCost)])]
                             else p.orders)
            && p' == p.(deficits := p'.deficits, orders := p'.orders)
  {
  }

  /** Only a draft is approved, and nothing but its status and total changes. */
  lemma ApproveAnswers(p: Procurement, id: OrderId, fails: bool)
    ensures var r := ApproveOutcome(p, id, fails);
            && (r == NotFound <==> id !in p.orders)
            && (r == InvalidTransition <==> id in p.orders && p.orders[id].status != Draft)
            && (r == Ok <==> id in p.orders && p.orders[id].status == Draft && !fails)
            && r in {Ok, NotFound, InvalidTransition, Failed}
    ensures var p' := AfterApprove(p, id, fails);
            if ApproveOutcome(p, id, fails) != Ok then p' == p
            else
              && id in p'.orders && p'.orders[id] == p.orders[id].(status := Approved, total := p'.orders[id].total)
              && p' == p.(orders := p.orders[id := p'.orders[id]])
  {
  }

  /** A general transition is a regression unless the relation has it, waits for open receipts unless it voids the order
      or receipts are not looked at, and changes the status alone. */
  lemma MoveAnswers(p: Procurement, id: OrderId, next: OrderStatus, fails: bool)
    ensures var r := MoveOutcome(p, id, next, fails);
            && (r == NotFound <==> id !in p.orders)
            && (r == StateRegression <==> id in p.orders && !ValidTransition(p.orders[id].status, next))
            && (r == IncompleteReceipts <==>
                  && id in p.orders && ValidTransition(p.orders[id].status, next)
                  && next != Void && p.checksReceipts && AwaitsReceipts(p, id))
            && (r == Ok <==>
                  && id in p.orders && ValidTransition(p.orders[id].status, next) && !fails
                  && (next == Void || !p.checksReceipts || !AwaitsReceipts(p, id)))
            && r in {Ok, NotFound, StateRegression, IncompleteReceipts, Failed}
            && AfterMove(p, id, next, fails)
               == if r == Ok then p.(orders := p.orders[id := p.orders[id].(status := next)]) else p
  {
    assert OpenReceipts(p, id) <==> AwaitsReceipts(p, id);
  }

  // ---------------------------------------------------------------- locks

  /** Somebody else owns the lock and it is good for longer than now. */
  ghost predicate Excludes(l: OperatorLock, operator: nat, now: nat) {
    exists other, until :: l == OperatorLock(Some(other), Some(until)) && other != operator && now < until
  }

  lemma ExcludesIff(l: OperatorLock, operator: nat, now: nat)
    ensures HeldByOther(l, operator, now) <==> Excludes(l, operator, now)
  {
    if HeldByOther(l, operator, now) {
      assert l == OperatorLock(Some(l.owner.value), Some(l.expires.value));
    }
  }

  /** A receipt's lock is refused while somebody else holds it; otherwise it and the receipt are the caller's for 60
      minutes. Releasing it asks nobody. */
  lemma ReceiptLockAnswers(p: Procurement, r: ReceiptId, operator: nat, now: nat, fails: bool)
    ensures var x := LockReceiptOutcome(p, r, operator, now, fails);
            && (x == NotFound <==> r !in p.receipts)
            && (x == AlreadyLocked <==> r in p.receipts && Excludes(p.receipts[r].hold, operator, now))
            && (x == Ok <==> r in p.receipts && !Excludes(p.receipts[r].hold, operator, now) && !fails)
            && x in {Ok, NotFound, AlreadyLocked, Failed}
            && AfterLockReceipt(p, r, operator, now, fails)
               == if x == Ok
                  then p.(receipts := p.receipts[r := p.receipts[r].(
                    hold := OperatorLock(Some(operator), Some(now + 60)), operator := operator)])
                  else p
    ensures AfterUnlockReceipt(p, r, fails)
         == if r in p.receipts && !fails
            then p.(receipts := p.receipts[r := p.receipts[r].(hold := OperatorLock(None, None))]) else p
  {
    if r in p.receipts {
      ExcludesIff(p.receipts[r].hold, operator, now);
    }
  }

  /** A shipment's lock is refused once it is under way or delivered, and while somebody else holds it; otherwise it is
      the caller's for 30 minutes. Releasing it asks nobody. */
  lemma ShipmentLockAnswers(p: Procurement, id: nat, operator: nat, now: nat, fails: bool)
    ensures var x := LockShipmentOutcome(p, id, operator, now, fails);
            && (x == NotFound <==> id !in p.shipments)
            && (x == AlreadyDispatched <==> id in p.shipments && p.shipments[id].status in {Underway, Delivered})
            && (x == AlreadyLocked <==>
                  && id in p.shipments && p.shipments[id].status !in {Underway, Delivered}
                  && Excludes(p.shipments[id].hold, operator, now))
            && (x == Ok <==>
                  && id in p.shipments && p.shipments[id].status !in {Underway, Delivered} && !fails
                  && !Excludes(p.shipments[id].hold, operator, now))
            && x in {Ok, NotFound, AlreadyDispatched, AlreadyLocked, Failed}
            && AfterLockShipment(p, id, operator, now, fails)
               == if x == Ok
                  then p.(shipments := p.shipments[id := p.shipments[id].(
                    hold := OperatorLock(Some(operator), Some(now + 30)))])
                  else p
    ensures AfterUnlockShipment(p, id, fails)
         == if id in p.shipments && !fails
            then p.(shipments := p.shipments[id := p.shipments[id].(hold := OperatorLock(None, None))]) else p
  {
    if id in p.shipments {
      ExcludesIff(p.shipments[id].hold, operator, now);
    }
  }

  // ---------------------------------------------------------------- shipments

  /** One more order line is one more item, unless its write fails. */
  lemma {:induction false} ClonedOneMore(lines: seq<OrderLine>, l: OrderLine, lost: set<nat>, from: nat)
    ensures Cloned([], lost, from) == []
    ensures Cloned(lines + [l], lost, from)
         == Cloned(lines, lost, from) + (if from + |lines| in lost then [] else [ShipmentItem(l.sku, l.ordered)])
    decreases |lines|
  {
    if lines == [] {
      EmptySums([l]);
    } else {
      TailOfSum(lines, [l]);
      ClonedOneMore(lines[1..], l, lost, from + 1);
    }
  }

  /** A shipment needs its order and a free id; it starts unlocked in the status it is given, with the order's lines
      except those whose write failed. */
  lemma NewShipmentAnswers(p: Procurement, id: nat, orderRef: OrderId, status: ShipmentStatus, fails: bool,
          lost: set<nat>)
    ensures var x := NewShipmentOutcome(p, id, orderRef, fails);
            && (x == NotFound <==> orderRef !in p.orders)
            && (x == Ok <==> orderRef in p.orders && !fails && id !in p.shipments)
            && x in {Ok, NotFound, Failed}
            && AfterNewShipment(p, id, orderRef, status, fails, lost)
               == if x == Ok
                  then p.(shipments := p.shipments[id := Shipment(orderRef, status, OperatorLock(None, None),
                                                                  Cloned(p.orders[orderRef].lines, lost, 0))])
                  else p
  {
  }

  /** A dispatch is for a scheduled shipment whose unexpired lock the caller holds, and ends the lock. */
  lemma DispatchAnswers(p: Procurement, id: nat, operator: nat, now: nat, fails: bool)
    ensures var x := DispatchOutcome(p, id, operator, now, fails);
            && (x == NotFound <==> id !in p.shipments)
            && (x == AlreadyDispatched <==> id in p.shipments && p.shipments[id].status in {Underway, Delivered})
            && (x == InvalidTransition <==>
                  id in p.shipments && p.shipments[id].status !in {Scheduled, Underway, Delivered})
            && (x == NotLocked <==>
                  && id in p.shipments && p.shipments[id].status == Scheduled
                  && p.shipments[id].hold.owner != Some(operator))
            && (x == LockExpired <==>
                  && id in p.shipments && p.shipments[id].status == Scheduled
                  && p.shipments[id].hold.owner == Some(operator)
                  && p.shipments[id].hold.expires.Some? && p.shipments[id].hold.expires.value < now)
            && (x == Ok <==>
                  && id in p.shipments && p.shipments[id].status == Scheduled && !fails
                  && p.shipments[id].hold.owner == Some(operator)
                  && (p.shipments[id].hold.expires.Some? ==> now <= p.shipments[id].hold.expires.value))
            && x in {Ok, NotFound, AlreadyDispatched, InvalidTransition, NotLocked, LockExpired, Failed}
            && AfterDispatch(p, id, operator, now, fails)
               == if x == Ok
                  then p.(shipments := p.shipments[id := p.shipments[id].(
                    status := Underway, hold := OperatorLock(None, None))])
                  else p
  {
  }

  /** A general transition follows the journey relation and changes the status alone. */
  lemma MoveShipmentAnswers(p: Procurement, id: nat, next: ShipmentStatus, fails: bool)
    ensures var x := MoveShipmentOutcome(p, id, next, fails);
            && (x == NotFound <==> id !in p.shipments)
            && (x == StateRegression <==> id in p.shipments && !ValidShipmentTransition(p.shipments[id].status, next))
            && (x == Ok <==> id in p.shipments && ValidShipmentTransition(p.shipments[id].status, next) && !fails)
            && x in {Ok, NotFound, StateRegression, Failed}
            && AfterMoveShipment(p, id, next, fails)
               == if x == Ok then p.(shipments := p.shipments[id := p.shipments[id].(status := next)]) else p
  {
  }

  // ---------------------------------------------------------------- deliveries

  predicate Reaches(p: Procurement, id: nat, f: DeliverFault) {
    id in p.shipments && p.shipments[id].status == Underway && !f.StatusFails?
  }

  /** Only a shipment under way is delivered. The mark stays, whatever fails behind it; a receipt under the number after
      the order's receipts is added unless the lines cannot be read, its header fails or the number is taken; and it has
      the order's lines up to the one that fails, none of them counted. */
  lemma DeliverAnswers(p: Procurement, id: nat, operator: nat, f: DeliverFault)
    ensures DeliverOutcome(p, id, f) == NotFound <==> id !in p.shipments
    ensures DeliverOutcome(p, id, f) == InvalidTransition <==> id in p.shipments && p.shipments[id].status != Underway
    ensures DeliverOutcome(p, id, f) in {Ok, NotFound, InvalidTransition, Failed}
    ensures !Reaches(p, id, f) ==> AfterDeliver(p, id, operator, f) == p && DeliverOutcome(p, id, f) != Ok
    ensures Reaches(p, id, f) ==>
              var p', order := AfterDeliver(p, id, operator, f), p.shipments[id].orderRef;
              var next := ReceiptId(order, |set r | r in p.receipts && p.receipts[r].orderRef == order| + 1);
              var lines := if order in p.orders then p.orders[order].lines else [];
              var adds := !f.LinesUnread? && !f.ReceiptFails? && next !in p.receipts;
              var saved := if f.LineFails? && f.at < |lines| then f.at else |lines|;
              && (DeliverOutcome(p, id, f) == Ok <==> adds && saved == |lines|)
              && p'.shipments == p.shipments[id := p.shipments[id].(status := Delivered)]
              && p' == p.(shipments := p'.shipments, receipts := p'.receipts)
              && (if !adds then p'.receipts == p.receipts
                  else
                    && next in p'.receipts && p'.receipts == p.receipts[next := p'.receipts[next]]
                    && p'.receipts[next] == Receipt(order, Pending, operator, OperatorLock(None, None),
                                                    p'.receipts[next].lines)
                    && |p'.receipts[next].lines| == saved
                    && forall i :: 0 <= i < saved ==>
                         p'.receipts[next].lines[i]
                         == ReceiptLine(lines[i].sku, lines[i].ordered, None, None, false, None, false))
  {
    if Reaches(p, id, f) {
      MirroredLines(LinesOf(p, p.shipments[id].orderRef));
    }
  }
}
