/**
 Purchase orders over whole runs: one order per vendor being prepared, ids that never collide, and totals
 that stay right once an order is approved.
 */
module OrderLaws {
  import opened ProcurementModel
  import opened ReceivingLaws
  import Pool = DeficitPool

  predicate Preparing(s: OrderStatus) {
    s == Draft || s == Approved
  }

  /** The status relation, step by step: forward over any number of stages, and from partial back in transit. */
  lemma TransitionTable(current: OrderStatus, next: OrderStatus)
    ensures ValidTransition(current, next) <==>
              || (current == Draft && next in {Approved, InTransit, Partial, Received, Void})
              || (current == Approved && next in {InTransit, Partial, Received, Void})
              || (current == InTransit && next in {Partial, Received, Void})
              || (current == Partial && next in {InTransit, Received, Void})
              || (current == Received && next == Void)
  {
  }

  /** What any step may do to an existing order. */
  predicate Follows(o: PurchaseOrder, o': PurchaseOrder) {
    && o'.vendor == o.vendor
    && (Preparing(o'.status) ==> Preparing(o.status))
    && (o'.status == Draft ==> o'.total == o.total)
    && (o.status != Draft ==> o'.status != Draft && o'.total == o.total && Value(o'.lines) == Value(o.lines))
  }

  ghost predicate OrdersFollow(p: Procurement, p': Procurement) {
    forall id :: id in p.orders ==> id in p'.orders && Follows(p.orders[id], p'.orders[id])
  }

  /** A receiving call writes its own purchase order at most: credited lines, and perhaps a closing status. */
  lemma ReceiveWrites(p: Procurement, r: ReceiptId, operator: nat, counts: map<string, Count>, now: nat,
          f: ReceiveFaults)
    requires Completes(p, r, operator, counts, now, f)
    ensures var p' := AfterReceive(p, r, operator, counts, now, f);
            var id := p.receipts[r].orderRef;
            && id in p'.orders
            && p'.orders == p.orders[id := p.orders[id].(
                 lines := Credited(p.orders[id].lines, Receiving(p, r, counts, now, f).lines, f.lostCredits, 0),
                 status := p'.orders[id].status)]
            && p'.orders[id].status in {p.orders[id].status, Received, Partial}
  {
  }

  lemma ReceiveFollows(p: Procurement, r: ReceiptId, operator: nat, counts: map<string, Count>, now: nat,
          f: ReceiveFaults)
    ensures var p' := AfterReceive(p, r, operator, counts, now, f);
            OrdersFollow(p, p') && p'.orders.Keys == p.orders.Keys
  {
    if Completes(p, r, operator, counts, now, f) {
      ReceiveWrites(p, r, operator, counts, now, f);
      CreditedValue(p.orders[p.receipts[r].orderRef].lines, Receiving(p, r, counts, now, f).lines, f.lostCredits, 0);
      CreditFollows(p, AfterReceive(p, r, operator, counts, now, f), p.receipts[r].orderRef,
                    Receiving(p, r, counts, now, f).lines, f.lostCredits);
    }
  }

  lemma CreditFollows(p: Procurement, p': Procurement, id: OrderId, counted: seq<ReceiptLine>, lost: set<nat>)
    requires id in p.orders && id in p'.orders
    requires p'.orders == p.orders[id := p.orders[id].(lines := Credited(p.orders[id].lines, counted, lost, 0),
                                                       status := p'.orders[id].status)]
    requires p'.orders[id].status in {p.orders[id].status, Received, Partial}
    requires Value(Credited(p.orders[id].lines, counted, lost, 0)) == Value(p.orders[id].lines)
    ensures OrdersFollow(p, p') && p'.orders.Keys == p.orders.Keys
  {
  }

  lemma OrderCallFollows(p: Procurement, s: Step)
    requires s.CreateDraft? || s.AddLine? || s.Approve? || s.MoveOrder?
    ensures OrdersFollow(p, Apply(p, s))
    ensures forall id :: id in Apply(p, s).orders && id !in p.orders ==>
              && s.CreateDraft? && id == NextOrderId(p, s.year)
              && Apply(p, s).orders[id] == PurchaseOrder(s.vendor, Draft, 0.0, [])
              && !VendorBusy(p, s.vendor)
  {
    match s
    case CreateDraft(vendor, year, fails) => DraftFollows(p, vendor, year, fails);
    case AddLine(id, sku, qty, f, fails) => LineFollows(p, id, sku, qty, f, fails);
    case Approve(id, fails) => ApprovalFollows(p, id, fails);
    case MoveOrder(id, next, fails) => MoveFollows(p, id, next, fails);
  }

  lemma DraftFollows(p: Procurement, vendor: nat, year: nat, fails: bool)
    ensures var p' := AfterDraft(p, vendor, year, fails);
            && OrdersFollow(p, p')
            && forall id :: id in p'.orders && id !in p.orders ==>
                 id == NextOrderId(p, year) && p'.orders[id] == PurchaseOrder(vendor, Draft, 0.0, [])
                     && !VendorBusy(p, vendor)
  {
  }

  lemma LineFollows(p: Procurement, id: OrderId, sku: string, qty: int, f: Pool.Faults, fails: bool)
    ensures var p' := AfterAddLine(p, id, sku, qty, f, fails);
            OrdersFollow(p, p') && p'.orders.Keys == p.orders.Keys
  {
  }

  lemma ApprovalFollows(p: Procurement, id: OrderId, fails: bool)
    ensures var p' := AfterApprove(p, id, fails);
            OrdersFollow(p, p') && p'.orders.Keys == p.orders.Keys
  {
  }

  lemma MoveFollows(p: Procurement, id: OrderId, next: OrderStatus, fails: bool)
    ensures var p' := AfterMove(p, id, next, fails);
            OrdersFollow(p, p') && p'.orders.Keys == p.orders.Keys
  {
  }

  /** Every step follows; only drafting adds an order, for a vendor with none being prepared. */
  lemma StepFollows(p: Procurement, s: Step)
    ensures OrdersFollow(p, Apply(p, s))
    ensures forall id :: id in Apply(p, s).orders && id !in p.orders ==>
              && s.CreateDraft? && id == NextOrderId(p, s.year)
              && Apply(p, s).orders[id] == PurchaseOrder(s.vendor, Draft, 0.0, [])
              && !VendorBusy(p, s.vendor)
  {
    if s.Receive? {
      ReceiveFollows(p, s.receipt, s.operator, s.counts, s.now, s.faults);
    } else if s.CreateDraft? || s.AddLine? || s.Approve? || s.MoveOrder? {
      OrderCallFollows(p, s);
    } else {
      assert Apply(p, s).orders == p.orders;
    }
  }

  ghost predicate OnePreparingPerVendor(p: Procurement) {
    forall a, b | a in p.orders && b in p.orders && a != b
                  && Preparing(p.orders[a].status) && Preparing(p.orders[b].status) ::
      p.orders[a].vendor != p.orders[b].vendor
  }

  lemma StepKeepsOnePreparing(p: Procurement, s: Step)
    requires OnePreparingPerVendor(p)
    ensures OnePreparingPerVendor(Apply(p, s))
  {
    StepFollows(p, s);
    var p' := Apply(p, s);
    forall a, b | a in p'.orders && b in p'.orders && a != b
                  && Preparing(p'.orders[a].status) && Preparing(p'.orders[b].status)
      ensures p'.orders[a].vendor != p'.orders[b].vendor
    {
      if a in p.orders && b in p.orders {
        assert Follows(p.orders[a], p'.orders[a]) && Follows(p.orders[b], p'.orders[b]);
      } else if a in p.orders {
        assert Follows(p.orders[a], p'.orders[a]);
        assert Blocks(p.orders[a].status);
      } else if b in p.orders {
        assert Follows(p.orders[b], p'.orders[b]);
        assert Blocks(p.orders[b].status);
      }
    }
  }

  /** In every run a vendor has at most one order in draft or approved. */
  lemma {:induction false} RunKeepsOnePreparing(p: Procurement, steps: seq<Step>)
    requires OnePreparingPerVendor(p)
    ensures OnePreparingPerVendor(Run(p, steps))
    decreases |steps|
  {
    if steps != [] {
      StepKeepsOnePreparing(p, steps[0]);
      RunKeepsOnePreparing(Apply(p, steps[0]), steps[1..]);
    }
  }

  /** The wider reading: at most one order per vendor in draft, approved or in transit. */
  ghost predicate OneBlockingPerVendor(p: Procurement) {
    forall a, b | a in p.orders && b in p.orders && a != b
                  && Blocks(p.orders[a].status) && Blocks(p.orders[b].status) ::
      p.orders[a].vendor != p.orders[b].vendor
  }

  /** A partially received order goes back in transit while its vendor has another order blocking. */
  predicate Reopens(p: Procurement, id: OrderId, next: OrderStatus, fails: bool) {
    && MoveOutcome(p, id, next, fails) == Ok && p.orders[id].status == Partial && next == InTransit
    && VendorBusy(p, p.orders[id].vendor)
  }

  lemma MoveKeepsOneBlockingIff(p: Procurement, id: OrderId, next: OrderStatus, fails: bool)
    requires OneBlockingPerVendor(p)
    ensures OneBlockingPerVendor(AfterMove(p, id, next, fails)) <==> !Reopens(p, id, next, fails)
  {
    if MoveOutcome(p, id, next, fails) == Ok {
      var p' := AfterMove(p, id, next, fails);
      var vendor := p.orders[id].vendor;
      if Reopens(p, id, next, fails) {
        var b :| b in p.orders && p.orders[b].vendor == vendor && Blocks(p.orders[b].status);
        assert b in p'.orders && p'.orders[b] == p.orders[b] && b != id && id in p'.orders;
        assert Blocks(p'.orders[id].status) && p'.orders[id].vendor == p'.orders[b].vendor;
      } else if Blocks(next) && !Blocks(p.orders[id].status) {
        forall b | b in p'.orders && b != id && Blocks(p'.orders[b].status)
          ensures p'.orders[b].vendor != vendor
        {
          assert p'.orders[b] == p.orders[b];
        }
      }
    }
  }

  /** No other call makes an existing order block that did not. */
  lemma OnlyMovesStartBlocking(p: Procurement, s: Step, id: OrderId)
    requires !s.MoveOrder? && id in p.orders
    ensures id in Apply(p, s).orders && Apply(p, s).orders[id].vendor == p.orders[id].vendor
    ensures Blocks(Apply(p, s).orders[id].status) ==> Blocks(p.orders[id].status)
  {
    if s.Receive? {
      ReceiveStartsNoBlocking(p, s.receipt, s.operator, s.counts, s.now, s.faults, id);
    }
  }

  lemma ReceiveStartsNoBlocking(p: Procurement, r: ReceiptId, operator: nat, counts: map<string, Count>, now: nat,
          f: ReceiveFaults, id: OrderId)
    requires id in p.orders
    ensures var p' := AfterReceive(p, r, operator, counts, now, f);
            && id in p'.orders && p'.orders[id].vendor == p.orders[id].vendor
            && (Blocks(p'.orders[id].status) ==> Blocks(p.orders[id].status))
  {
    if Completes(p, r, operator, counts, now, f) {
      ReceiveWrites(p, r, operator, counts, now, f);
    }
  }

  lemma NoMoveKeepsOneBlocking(p: Procurement, s: Step)
    requires OneBlockingPerVendor(p) && !s.MoveOrder?
    ensures OneBlockingPerVendor(Apply(p, s))
  {
    var p' := Apply(p, s);
    StepFollows(p, s);
    forall id | id in p.orders {
      OnlyMovesStartBlocking(p, s, id);
    }
    forall a, b | a in p'.orders && b in p'.orders && a != b && Blocks(p'.orders[a].status)
        && Blocks(p'.orders[b].status)
      ensures p'.orders[a].vendor != p'.orders[b].vendor
    {
      assert a in p.orders || b in p.orders;
    }
  }

  /** So over a run the wider reading lasts exactly as long as no order is reopened: the first reopening ends it. */
  lemma {:induction false} OneBlockingUntilReopened(p: Procurement, steps: seq<Step>)
    requires OneBlockingPerVendor(p)
    ensures NothingReopened(p, steps) ==> OneBlockingPerVendor(Run(p, steps))
    ensures !NothingReopened(p, steps) ==>
              exists i :: 0 <= i < |steps| && NothingReopened(p, steps[..i])
                  && !OneBlockingPerVendor(Run(p, steps[..i + 1]))
    decreases |steps|
  {
    if steps != [] {
      var p' := Apply(p, steps[0]);
      if steps[0].MoveOrder? {
        MoveKeepsOneBlockingIff(p, steps[0].id, steps[0].next, steps[0].fails);
      } else {
        NoMoveKeepsOneBlocking(p, steps[0]);
      }
      if Reopening(p, steps[0]) {
        assert steps[..0] == [] && steps[..1][1..] == [] && Run(p, steps[..0 + 1]) == p';
      } else {
        OneBlockingUntilReopened(p', steps[1..]);
        if !NothingReopened(p', steps[1..]) {
          var i :| 0 <= i < |steps[1..]| && NothingReopened(p', steps[1..][..i])
                   && !OneBlockingPerVendor(Run(p', steps[1..][..i + 1]));
          OneStepMore(p, steps, i);
          assert NothingReopened(p, steps[..i + 1]) && !OneBlockingPerVendor(Run(p, steps[..(i + 1) + 1]));
        }
      }
    }
  }

  lemma OneStepMore(p: Procurement, steps: seq<Step>, i: nat)
    requires i + 1 < |steps| && !Reopening(p, steps[0])
    ensures NothingReopened(p, steps[..i + 1]) <==> NothingReopened(Apply(p, steps[0]), steps[1..][..i])
    ensures Run(p, steps[..i + 2]) == Run(Apply(p, steps[0]), steps[1..][..i + 1])
  {
    assert steps[..i + 1][1..] == steps[1..][..i] && steps[..i + 2][1..] == steps[1..][..i + 1];
    assert steps[..i + 1][0] == steps[0] == steps[..i + 2][0];
  }

  predicate Reopening(p: Procurement, s: Step) {
    s.MoveOrder? && Reopens(p, s.id, s.next, s.fails)
  }

  predicate NothingReopened(p: Procurement, steps: seq<Step>)
    decreases |steps|
  {
    steps == [] || (!Reopening(p, steps[0]) && NothingReopened(Apply(p, steps[0]), steps[1..]))
  }

  lemma {:induction false} RunKeepsOrder(p: Procurement, steps: seq<Step>, id: OrderId)
    requires id in p.orders
    ensures id in Run(p, steps).orders && Run(p, steps).orders[id].vendor == p.orders[id].vendor
    decreases |steps|
  {
    if steps != [] {
      StepFollows(p, steps[0]);
      assert Follows(p.orders[id], Apply(p, steps[0]).orders[id]);
      RunKeepsOrder(Apply(p, steps[0]), steps[1..], id);
    }
  }

  // ---------------------------------------------------------------- ids

  /** Every order of a year is numbered within the number of that year's orders. */
  ghost predicate NumberedWithin(p: Procurement) {
    forall id :: id in p.orders ==> id.number <= |OrdersOfYear(p, id.year)|
  }

  lemma StepKeepsNumbering(p: Procurement, s: Step)
    requires NumberedWithin(p)
    ensures NumberedWithin(Apply(p, s))
  {
    var p' := Apply(p, s);
    if s.CreateDraft? {
      DraftKeepsNumbering(p, s.vendor, s.year, s.fails);
    } else {
      assert p'.orders.Keys == p.orders.Keys by {
        StepFollows(p, s);
      }
      forall id | id in p'.orders
        ensures id.number <= |OrdersOfYear(p', id.year)|
      {
        assert OrdersOfYear(p', id.year) == OrdersOfYear(p, id.year);
      }
    }
  }

  lemma DraftKeepsNumbering(p: Procurement, vendor: nat, year: nat, fails: bool)
    requires NumberedWithin(p)
    ensures NumberedWithin(AfterDraft(p, vendor, year, fails))
  {
    var p' := AfterDraft(p, vendor, year, fails);
    if DraftOutcome(p, vendor, year, fails) == Ok {
      forall id | id in p'.orders
        ensures id.number <= |OrdersOfYear(p', id.year)|
      {
        if id.year == year {
          assert OrdersOfYear(p', year) == OrdersOfYear(p, year) + {NextOrderId(p, year)};
        } else {
          assert OrdersOfYear(p', id.year) == OrdersOfYear(p, id.year);
        }
      }
    }
  }

  /** So in every run the number a draft is given is free: drafting fails only for a busy vendor or a refused write. */
  lemma {:induction false} DraftNeverCollides(p: Procurement, steps: seq<Step>, vendor: nat, year: nat, fails: bool)
    requires NumberedWithin(p)
    ensures NumberedWithin(Run(p, steps))
    ensures DraftOutcome(Run(p, steps), vendor, year, fails) == Failed <==>
              fails && !VendorBusy(Run(p, steps), vendor)
    decreases |steps|
  {
    if steps != [] {
      StepKeepsNumbering(p, steps[0]);
      DraftNeverCollides(Apply(p, steps[0]), steps[1..], vendor, year, fails);
    } else {
      var next := NextOrderId(p, year);
      assert next in p.orders ==> next.number <= |OrdersOfYear(p, year)|;
    }
  }

  // ---------------------------------------------------------------- totals

  predicate Settled(p: Procurement, id: OrderId, value: real) {
    && id in p.orders && p.orders[id].status != Draft
    && p.orders[id].total == Value(p.orders[id].lines) == value
  }

  lemma {:induction false} RunKeepsSettled(p: Procurement, steps: seq<Step>, id: OrderId, value: real)
    requires Settled(p, id, value)
    ensures Settled(Run(p, steps), id, value)
    decreases |steps|
  {
    if steps != [] {
      StepFollows(p, steps[0]);
      assert Follows(p.orders[id], Apply(p, steps[0]).orders[id]);
      RunKeepsSettled(Apply(p, steps[0]), steps[1..], id, value);
    }
  }

  /** Once an order is approved its total is the value of its lines, in every later state. */
  lemma ApprovalFixesTotal(p: Procurement, id: OrderId, steps: seq<Step>)
    requires ApproveOutcome(p, id, false) == Ok
    ensures Settled(Run(AfterApprove(p, id, false), steps), id, Value(p.orders[id].lines))
  {
    RunKeepsSettled(AfterApprove(p, id, false), steps, id, Value(p.orders[id].lines));
  }

  ghost predicate DraftsUntotalled(p: Procurement) {
    forall id :: id in p.orders && p.orders[id].status == Draft ==> p.orders[id].total == 0.0
  }

  lemma StepKeepsDraftsUntotalled(p: Procurement, s: Step)
    requires DraftsUntotalled(p)
    ensures DraftsUntotalled(Apply(p, s))
  {
    StepFollows(p, s);
    UntotalledFollows(p, Apply(p, s));
  }

  lemma UntotalledFollows(p: Procurement, p': Procurement)
    requires DraftsUntotalled(p) && OrdersFollow(p, p')
    requires forall id :: id in p'.orders && id !in p.orders ==> p'.orders[id].total == 0.0
    ensures DraftsUntotalled(p')
  {
    forall id | id in p'.orders && p'.orders[id].status == Draft
      ensures p'.orders[id].total == 0.0
    {
      assert id in p.orders ==> Follows(p.orders[id], p'.orders[id]);
    }
  }

  lemma {:induction false} RunKeepsDraftsUntotalled(p: Procurement, steps: seq<Step>)
    requires DraftsUntotalled(p)
    ensures DraftsUntotalled(Run(p, steps))
    decreases |steps|
  {
    if steps != [] {
      StepKeepsDraftsUntotalled(p, steps[0]);
      RunKeepsDraftsUntotalled(Apply(p, steps[0]), steps[1..]);
    }
  }

  /** The general transition also leads out of draft, but computes no total: the order it leaves behind is
      settled exactly when its lines are worth nothing. */
  lemma MovingOutOfDraftSettlesIff(p: Procurement, id: OrderId, next: OrderStatus)
    requires DraftsUntotalled(p) && id in p.orders && p.orders[id].status == Draft
    requires MoveOutcome(p, id, next, false) == Ok
    ensures Settled(AfterMove(p, id, next, false), id, Value(p.orders[id].lines)) <==> Value(p.orders[id].lines) == 0.0
  {
  }
}
