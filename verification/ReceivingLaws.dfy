/**
 Receiving moves the same quantity through receipt lines, stock, ledger and purchase-order lines. This is
 where they agree, and exactly where they do not.
 */
module ReceivingLaws {
  import opened Sequences
  import opened Options
  import opened Ledger
  import opened ProcurementModel

  function Qty(stock: map<string, Stock>, k: string): int {
    if k in stock then stock[k].qty else 0
  }

  /** Stamps handed out so far are all behind the clock. */
  predicate ClockAhead(ledger: seq<Entry>, clock: nat) {
    forall i :: 0 <= i < |ledger| ==> ledger[i].createdAt < clock
  }

  // ---------------------------------------------------------------- what receiving leaves alone

  lemma FinishedKeepsStock(p: Procurement, r: ReceiptId, discrepancy: bool, operator: nat, f: ReceiveFaults)
    requires r in p.receipts
    ensures var p' := Finished(p, r, discrepancy, operator, f);
            p'.stock == p.stock && p'.ledger == p.ledger && p'.clock == p.clock
  {
  }

  lemma FinishedFrame(p: Procurement, r: ReceiptId, discrepancy: bool, operator: nat, f: ReceiveFaults)
    requires r in p.receipts
    ensures var p' := Finished(p, r, discrepancy, operator, f);
            && p'.shipments == p.shipments && p'.receipts.Keys == p.receipts.Keys
            && (forall x :: x in p.receipts && x != r ==> p'.receipts[x] == p.receipts[x])
            && p'.receipts[r].orderRef == p.receipts[r].orderRef && p'.receipts[r].hold == p.receipts[r].hold
  {
    FinishedTables(p, r, discrepancy, operator, f);
  }

  /** All that finishing writes of the receipts is the verdict on its own. */
  lemma FinishedTables(p: Procurement, r: ReceiptId, discrepancy: bool, operator: nat, f: ReceiveFaults)
    requires r in p.receipts
    ensures var p' := Finished(p, r, discrepancy, operator, f);
            && p'.shipments == p.shipments
            && (p'.receipts == p.receipts || p'.receipts == Judged(p, r, discrepancy, operator).receipts)
  {
  }

  /** Receiving touches no shipment and no other receipt, and of its own receipt neither order nor hold. */
  lemma ReceiveFrame(p: Procurement, r: ReceiptId, operator: nat, counts: map<string, Count>, now: nat,
          f: ReceiveFaults)
    ensures var p' := AfterReceive(p, r, operator, counts, now, f);
            && p'.shipments == p.shipments && p'.receipts.Keys == p.receipts.Keys
            && (forall x :: x in p.receipts && x != r ==> p'.receipts[x] == p.receipts[x])
            && (r in p.receipts ==>
                  p'.receipts[r].orderRef == p.receipts[r].orderRef && p'.receipts[r].hold == p.receipts[r].hold)
  {
    if ReceiveError(p, r, operator, now).None? {
      var counted := AfterLines(p, r, counts, now, f);
      assert counted.receipts.Keys == p.receipts.Keys;
      FinishedFrame(counted, r, Receiving(p, r, counts, now, f).discrepancy, operator, f);
    }
  }

  // ---------------------------------------------------------------- stock against ledger

  /** Units a line puts into stock without the ledger hearing of them. */
  function Missed(w: Counting, i: nat, counts: map<string, Count>, f: LineFault, k: string): int
    requires i < |w.lines|
  {
    if LineStops(w, i, counts, f) || w.lines[i].sku != k || k !in counts then 0
    else if counts[k].received > 0 && f != LedgerFailsTwice then 0
    else counts[k].received
  }

  function MissedFrom(w: Counting, i: nat, counts: map<string, Count>, now: nat, maxAge: nat, f: ReceiveFaults,
          k: string): int
    decreases |w.lines| - i
  {
    if i >= |w.lines| then 0
    else
      Missed(w, i, counts, FaultAt(f, i), k)
      + (if LineStops(w, i, counts, FaultAt(f, i)) then 0
         else MissedFrom(LineCounted(w, i, counts, now, maxAge, FaultAt(f, i)), i + 1, counts, now, maxAge, f, k))
  }

  function Gap(stock: map<string, Stock>, ledger: seq<Entry>, k: string): int {
    Qty(stock, k) - Balance(ledger, k)
  }

  lemma NewestByClock(ledger: seq<Entry>, clock: nat, sku: string, change: int)
    requires ClockAhead(ledger, clock)
    ensures Newest(ledger, Write(sku, change, clock, clock))
  {
    if Latest(ledger, sku).Some? {
      assert Latest(ledger, sku).value in ledger;
    }
  }

  lemma LineGap(w: Counting, i: nat, counts: map<string, Count>, now: nat, maxAge: nat, f: LineFault, k: string)
    requires i < |w.lines| && ClockAhead(w.ledger, w.clock)
    ensures var w' := LineCounted(w, i, counts, now, maxAge, f);
            && ClockAhead(w'.ledger, w'.clock) && |w'.lines| == |w.lines|
            && Gap(w'.stock, w'.ledger, k) == Gap(w.stock, w.ledger, k) + Missed(w, i, counts, f, k)
  {
    var sku := w.lines[i].sku;
    if sku in counts && !LineStops(w, i, counts, f) && counts[sku].received > 0 && f != LedgerFailsTwice {
      NewestByClock(w.ledger, w.clock, sku, counts[sku].received);
      RecordMovesBalance(w.ledger, Write(sku, counts[sku].received, w.clock, w.clock), k);
    }
  }

  /** Every exit of the counting loop, early or not, moves stock and ledger together but for what was missed. */
  lemma {:induction false} CountingGap(w: Counting, i: nat, counts: map<string, Count>, now: nat, maxAge: nat,
          f: ReceiveFaults, k: string)
    requires ClockAhead(w.ledger, w.clock)
    ensures var w' := CountedFrom(w, i, counts, now, maxAge, f);
            && ClockAhead(w'.ledger, w'.clock)
            && Gap(w'.stock, w'.ledger, k) == Gap(w.stock, w.ledger, k) + MissedFrom(w, i, counts, now, maxAge, f, k)
    decreases |w.lines| - i
  {
    if i < |w.lines| {
      LineGap(w, i, counts, now, maxAge, FaultAt(f, i), k);
      if !LineStops(w, i, counts, FaultAt(f, i)) {
        CountingGap(LineCounted(w, i, counts, now, maxAge, FaultAt(f, i)), i + 1, counts, now, maxAge, f, k);
      }
    }
  }

  /** Counts are not negative and no ledger write fails both its tries. */
  predicate Dependable(counts: map<string, Count>, f: ReceiveFaults) {
    && (forall k :: k in counts ==> counts[k].received >= 0)
    && (forall i :: i in f.lines ==> f.lines[i] != LedgerFailsTwice)
  }

  lemma {:induction false} NothingMissed(w: Counting, i: nat, counts: map<string, Count>, now: nat, maxAge: nat,
          f: ReceiveFaults, k: string)
    requires Dependable(counts, f)
    ensures MissedFrom(w, i, counts, now, maxAge, f, k) == 0
    decreases |w.lines| - i
  {
    if i < |w.lines| && !LineStops(w, i, counts, FaultAt(f, i)) {
      NothingMissed(LineCounted(w, i, counts, now, maxAge, FaultAt(f, i)), i + 1, counts, now, maxAge, f, k);
    }
  }

  /** Stock minus ledger balance, for every SKU, across any receiving call: it changes by what was missed,
      also when the call fails part-way. */
  lemma ReceiveGap(p: Procurement, r: ReceiptId, operator: nat, counts: map<string, Count>, now: nat,
          f: ReceiveFaults, k: string)
    requires ClockAhead(p.ledger, p.clock)
    ensures var p' := AfterReceive(p, r, operator, counts, now, f);
            && ClockAhead(p'.ledger, p'.clock)
            && Gap(p'.stock, p'.ledger, k) == Gap(p.stock, p.ledger, k)
                 + (if ReceiveError(p, r, operator, now).Some? then 0
                    else MissedFrom(Begin(p, r), 0, counts, now, p.maxAge, f, k))
  {
    if ReceiveError(p, r, operator, now).None? {
      CountingGap(Begin(p, r), 0, counts, now, p.maxAge, f, k);
      FinishedKeepsStock(AfterLines(p, r, counts, now, f), r, Receiving(p, r, counts, now, f).discrepancy, operator, f);
    }
  }

  predicate DependableStep(s: Step) {
    s.Receive? ==> Dependable(s.counts, s.faults)
  }

  /** Nothing but receiving touches stock or ledger, so over any dependable run the gap never moves. */
  lemma {:induction false} RunKeepsGap(p: Procurement, steps: seq<Step>, k: string)
    requires ClockAhead(p.ledger, p.clock) && forall s :: s in steps ==> DependableStep(s)
    ensures Gap(Run(p, steps).stock, Run(p, steps).ledger, k) == Gap(p.stock, p.ledger, k)
    ensures ClockAhead(Run(p, steps).ledger, Run(p, steps).clock)
    decreases |steps|
  {
    if steps != [] {
      assert DependableStep(steps[0]);
      if steps[0].Receive? {
        var r, operator, counts, now, f :=
          steps[0].receipt, steps[0].operator, steps[0].counts, steps[0].now, steps[0].faults;
        ReceiveGap(p, r, operator, counts, now, f, k);
        if ReceiveError(p, r, operator, now).None? {
          NothingMissed(Begin(p, r), 0, counts, now, p.maxAge, f, k);
        }
      } else {
        OnlyReceivingStocks(p, steps[0]);
      }
      RunKeepsGap(Apply(p, steps[0]), steps[1..], k);
    }
  }

  lemma OnlyReceivingStocks(p: Procurement, s: Step)
    requires !s.Receive?
    ensures var p' := Apply(p, s);
            p'.stock == p.stock && p'.ledger == p.ledger && p'.clock == p.clock
  {
    if OrderCall(s) {
      OrderCallsWriteOrders(p, s);
    }
  }

  predicate OrderCall(s: Step) {
    s.CreateDraft? || s.AddLine? || s.Approve? || s.MoveOrder?
  }

  predicate ShipmentCall(s: Step) {
    s.NewShipment? || s.LockShipment? || s.UnlockShipment? || s.Dispatch? || s.Deliver? || s.MoveShipment?
  }

  lemma OrderCallsWriteOrders(p: Procurement, s: Step)
    requires OrderCall(s)
    ensures var p' := Apply(p, s);
            && p'.stock == p.stock && p'.ledger == p.ledger && p'.clock == p.clock
            && p'.shipments == p.shipments && p'.receipts == p.receipts
  {
  }

  predicate StatusCall(s: Step) {
    s.Dispatch? || s.Deliver? || s.MoveShipment?
  }

  /** What the calls that move a shipment write of it. */
  lemma StatusCallWrites(p: Procurement, s: Step)
    requires StatusCall(s)
    ensures var after := Apply(p, s).shipments;
            if s.shipment !in p.shipments then after == p.shipments
            else
              var ship := p.shipments[s.shipment];
              var moves := if s.Dispatch? then DispatchOutcome(p, s.shipment, s.operator, s.now, s.fails) == Ok
                           else if s.MoveShipment? then ValidShipmentTransition(ship.status, s.nextShipment) && !s.fails
                           else ship.status == Underway && !s.deliverFault.StatusFails?;
              var moved := if s.Dispatch? then ship.(status := Underway, hold := FREE)
                           else ship.(status := if s.MoveShipment? then s.nextShipment else Delivered);
              after == if moves then p.shipments[s.shipment := moved] else p.shipments
  {
  }

  lemma OtherCallsKeepShipments(p: Procurement, s: Step)
    requires !ShipmentCall(s)
    ensures Apply(p, s).shipments == p.shipments
  {
    if s.Receive? {
      ReceiveFrame(p, s.receipt, s.operator, s.counts, s.now, s.faults);
    } else if OrderCall(s) {
      OrderCallsWriteOrders(p, s);
    }
  }

  // ---------------------------------------------------------------- the ledger of a run

  lemma {:induction false} CountingRecords(w: Counting, i: nat, counts: map<string, Count>, now: nat, maxAge: nat,
          f: ReceiveFaults)
    returns (ws: seq<Write>)
    requires ClockAhead(w.ledger, w.clock)
    ensures InOrder(w.ledger, ws)
    ensures CountedFrom(w, i, counts, now, maxAge, f).ledger == RecordedAll(w.ledger, ws)
    ensures ClockAhead(CountedFrom(w, i, counts, now, maxAge, f).ledger,
            CountedFrom(w, i, counts, now, maxAge, f).clock)
    decreases |w.lines| - i
  {
    ws := [];
    if i < |w.lines| {
      var f0 := FaultAt(f, i);
      var w' := LineCounted(w, i, counts, now, maxAge, f0);
      LineGap(w, i, counts, now, maxAge, f0, "");
      if !LineStops(w, i, counts, f0) {
        ws := CountingRecords(w', i + 1, counts, now, maxAge, f);
        var sku := w.lines[i].sku;
        if sku in counts && counts[sku].received > 0 && f0 != LedgerFailsTwice {
          var first := Write(sku, counts[sku].received, w.clock, w.clock);
          NewestByClock(w.ledger, w.clock, sku, counts[sku].received);
          assert ([first] + ws)[1..] == ws;
          ws := [first] + ws;
        }
      }
    }
  }

  lemma {:induction false} RecordedTogether(es: seq<Entry>, a: seq<Write>, b: seq<Write>)
    requires InOrder(es, a) && InOrder(RecordedAll(es, a), b)
    ensures InOrder(es, a + b) && RecordedAll(es, a + b) == RecordedAll(RecordedAll(es, a), b)
    decreases |a|
  {
    if a == [] {
      EmptySums(b);
    } else {
      TailOfSum(a, b);
      RecordedTogether(Recorded(es, a[0]), a[1..], b);
    }
  }

  /** Ledger and clock after a call are those after its counting loop. */
  lemma ReceivedTables(p: Procurement, r: ReceiptId, operator: nat, counts: map<string, Count>, now: nat,
          f: ReceiveFaults)
    requires ReceiveError(p, r, operator, now).None?
    ensures var p', w := AfterReceive(p, r, operator, counts, now, f),
            CountedFrom(Begin(p, r), 0, counts, now, p.maxAge, f);
            p'.ledger == w.ledger && p'.clock == w.clock
  {
  }

  lemma ReceiveRecords(p: Procurement, r: ReceiptId, operator: nat, counts: map<string, Count>, now: nat,
          f: ReceiveFaults)
    returns (ws: seq<Write>)
    requires ClockAhead(p.ledger, p.clock)
    ensures var p' := AfterReceive(p, r, operator, counts, now, f);
            InOrder(p.ledger, ws) && p'.ledger == RecordedAll(p.ledger, ws) && ClockAhead(p'.ledger, p'.clock)
  {
    ws := [];
    if ReceiveError(p, r, operator, now).None? {
      ws := CountingRecords(Begin(p, r), 0, counts, now, p.maxAge, f);
      ReceivedTables(p, r, operator, counts, now, f);
    }
  }

  lemma StepRecords(p: Procurement, s: Step) returns (ws: seq<Write>)
    requires ClockAhead(p.ledger, p.clock)
    ensures InOrder(p.ledger, ws) && Apply(p, s).ledger == RecordedAll(p.ledger, ws)
    ensures ClockAhead(Apply(p, s).ledger, Apply(p, s).clock)
  {
    ws := [];
    if !s.Receive? {
      OnlyReceivingStocks(p, s);
    } else {
      ws := ReceiveRecords(p, s.receipt, s.operator, s.counts, s.now, s.faults);
    }
  }

  /** However calls interleave, a run's ledger is the starting ledger followed by writes in order, and every
      running balance in it is the starting balance plus the SKU's changes up to that entry. */
  lemma {:induction false} RunLedgerIsOrdered(p: Procurement, steps: seq<Step>) returns (ws: seq<Write>)
    requires ClockAhead(p.ledger, p.clock)
    ensures InOrder(p.ledger, ws) && Run(p, steps).ledger == RecordedAll(p.ledger, ws)
    ensures |Run(p, steps).ledger| == |p.ledger| + |ws|
    ensures forall i :: 0 <= i < |ws| ==> Continues(p.ledger, Run(p, steps).ledger, i)
    decreases |steps|
  {
    if steps == [] {
      ws := [];
    } else {
      var first := StepRecords(p, steps[0]);
      var rest := RunLedgerIsOrdered(Apply(p, steps[0]), steps[1..]);
      RecordedTogether(p.ledger, first, rest);
      ws := first + rest;
    }
    RecordedAllExtends(p.ledger, ws);
    forall i | 0 <= i < |ws|
      ensures Continues(p.ledger, Run(p, steps).ledger, i)
    {
      RunningBalances(p.ledger, ws, i);
    }
  }

  // ---------------------------------------------------------------- stock against receipt and order lines

  /** What counting the lines from i on adds for a SKU: its count, once for each of its lines. */
  function CountedUnits(lines: seq<ReceiptLine>, counts: map<string, Count>, k: string): int {
    if lines == [] then 0
    else (if lines[0].sku == k && k in counts then counts[k].received else 0) + CountedUnits(lines[1..], counts, k)
  }

  lemma LineStocks(w: Counting, i: nat, counts: map<string, Count>, now: nat, maxAge: nat, f: LineFault, k: string)
    requires i < |w.lines| && !LineStops(w, i, counts, f)
    ensures var w' := LineCounted(w, i, counts, now, maxAge, f);
            var sku := w.lines[i].sku;
            && |w'.lines| == |w.lines| && w'.lines[..i] == w.lines[..i] && w'.lines[i + 1..] == w.lines[i + 1..]
            && w'.lines[i].sku == sku
            && w'.lines[i].received == (if sku in counts then Some(counts[sku].received) else w.lines[i].received)
            && Qty(w'.stock, k) == Qty(w.stock, k) + (if sku == k && k in counts then counts[k].received else 0)
  {
  }

  lemma {:induction false} CountingStocks(w: Counting, i: nat, counts: map<string, Count>, now: nat, maxAge: nat,
          f: ReceiveFaults, k: string)
    requires i <= |w.lines| && CountsThrough(w, i, counts, now, maxAge, f)
    ensures var w' := CountedFrom(w, i, counts, now, maxAge, f);
            && |w'.lines| == |w.lines| && w'.lines[..i] == w.lines[..i]
            && Qty(w'.stock, k) == Qty(w.stock, k) + CountedUnits(w.lines[i..], counts, k)
            && ReceivedOf(w'.lines[i..], k) ==
                 if k in counts then CountedUnits(w.lines[i..], counts, k) else ReceivedOf(w.lines[i..], k)
    decreases |w.lines| - i
  {
    if i < |w.lines| {
      var f0 := FaultAt(f, i);
      var w1 := LineCounted(w, i, counts, now, maxAge, f0);
      var w' := CountedFrom(w1, i + 1, counts, now, maxAge, f);
      LineStocks(w, i, counts, now, maxAge, f0, k);
      CountingStocks(w1, i + 1, counts, now, maxAge, f, k);
      assert w'.lines[i] == w'.lines[..i + 1][i] == w1.lines[i];
      assert w'.lines[..i] == w'.lines[..i + 1][..i] == w1.lines[..i];
      SumsFrom(w.lines, i, counts, k);
      SumsFrom(w'.lines, i, counts, k);
    } else {
      assert w.lines[i..] == [];
    }
  }

  lemma SumsFrom(lines: seq<ReceiptLine>, i: nat, counts: map<string, Count>, k: string)
    requires i < |lines|
    ensures CountedUnits(lines[i..], counts, k) ==
              (if lines[i].sku == k && k in counts then counts[k].received else 0)
                  + CountedUnits(lines[i + 1..], counts, k)
    ensures ReceivedOf(lines[i..], k) ==
              (if lines[i].sku == k && lines[i].received.Some? then lines[i].received.value else 0)
              + ReceivedOf(lines[i + 1..], k)
  {
    ShorterSuffix(lines, i);
  }

  function ReceivedTotal(lines: seq<OrderLine>, k: string): int {
    if lines == [] then 0 else (if lines[0].sku == k then lines[0].received else 0) + ReceivedTotal(lines[1..], k)
  }

  function LinesFor(lines: seq<OrderLine>, k: string): nat {
    if lines == [] then 0 else (if lines[0].sku == k then 1 else 0) + LinesFor(lines[1..], k)
  }

  /** The lines of a SKU whose credit is saved. */
  function SavedLinesFor(lines: seq<OrderLine>, k: string, lost: set<nat>, from: nat): nat
    decreases |lines|
  {
    if lines == [] then 0
    else (if lines[0].sku == k && from !in lost then 1 else 0) + SavedLinesFor(lines[1..], k, lost, from + 1)
  }

  lemma {:induction false} CreditedTotals(lines: seq<OrderLine>, counted: seq<ReceiptLine>, lost: set<nat>, from: nat,
          k: string)
    ensures ReceivedTotal(Credited(lines, counted, lost, from), k) ==
              ReceivedTotal(lines, k) + SavedLinesFor(lines, k, lost, from) * ReceivedOf(counted, k)
    ensures LinesFor(Credited(lines, counted, lost, from), k) == LinesFor(lines, k)
    decreases |lines|
  {
    if lines != [] {
      CreditedTotals(lines[1..], counted, lost, from + 1, k);
      var n, x := SavedLinesFor(lines[1..], k, lost, from + 1), ReceivedOf(counted, k);
      assert (1 + n) * x == x + n * x;
    }
  }

  lemma {:induction false} CreditedValue(lines: seq<OrderLine>, counted: seq<ReceiptLine>, lost: set<nat>, from: nat)
    ensures Value(Credited(lines, counted, lost, from)) == Value(lines)
    decreases |lines|
  {
    if lines != [] {
      CreditedValue(lines[1..], counted, lost, from + 1);
    }
  }

  lemma {:induction false} SavedAtMostAll(lines: seq<OrderLine>, k: string, lost: set<nat>, from: nat)
    ensures SavedLinesFor(lines, k, lost, from) <= LinesFor(lines, k)
    decreases |lines|
  {
    if lines != [] {
      SavedAtMostAll(lines[1..], k, lost, from + 1);
    }
  }

  /** The call counted every line and found its purchase order. */
  predicate Completes(p: Procurement, r: ReceiptId, operator: nat, counts: map<string, Count>, now: nat,
          f: ReceiveFaults) {
    && ReceiveError(p, r, operator, now).None?
    && CountsAll(p, r, counts, now, f)
    && p.receipts[r].orderRef in p.orders
  }

  function StockRise(p: Procurement, p': Procurement, k: string): int {
    Qty(p'.stock, k) - Qty(p.stock, k)
  }

  function OrderRise(p: Procurement, p': Procurement, id: OrderId, k: string): int
    requires id in p.orders && id in p'.orders
  {
    ReceivedTotal(p'.orders[id].lines, k) - ReceivedTotal(p.orders[id].lines, k)
  }

  /** What one completed call adds: to stock, the count once per receipt line; to each order line of the SKU whose
      credit is saved, everything the receipt's lines now say was received. */
  lemma ReceiveRises(p: Procurement, r: ReceiptId, operator: nat, counts: map<string, Count>, now: nat,
          f: ReceiveFaults, k: string)
    requires Completes(p, r, operator, counts, now, f)
    ensures var p' := AfterReceive(p, r, operator, counts, now, f);
            var id := p.receipts[r].orderRef;
            && id in p'.orders
            && StockRise(p, p', k) == CountedUnits(p.receipts[r].lines, counts, k)
            && OrderRise(p, p', id, k) == SavedLinesFor(p.orders[id].lines, k, f.lostCredits, 0) *
                 (if k in counts then StockRise(p, p', k) else ReceivedOf(p.receipts[r].lines, k))
  {
    var w := Begin(p, r);
    var id := p.receipts[r].orderRef;
    CountingStocks(w, 0, counts, now, p.maxAge, f, k);
    assert w.lines[0..] == w.lines;
    var w' := CountedFrom(w, 0, counts, now, p.maxAge, f);
    assert w'.lines[0..] == w'.lines;
    CreditedTotals(p.orders[id].lines, w'.lines, f.lostCredits, 0, k);
  }

  /** For a SKU on one order line, order and stock rise alike exactly when the SKU is counted in this call or
      its receipt lines held nothing from an earlier one; if the line's credit is lost, only when nothing is counted.
      A repeated call that leaves out a SKU credits the purchase order with it a second time. */
  lemma RisesAgreeIff(p: Procurement, r: ReceiptId, operator: nat, counts: map<string, Count>, now: nat,
          f: ReceiveFaults, k: string)
    requires Completes(p, r, operator, counts, now, f)
    requires LinesFor(p.orders[p.receipts[r].orderRef].lines, k) == 1
    ensures var p' := AfterReceive(p, r, operator, counts, now, f);
            var id := p.receipts[r].orderRef;
            && id in p'.orders
            && (OrderRise(p, p', id, k) == StockRise(p, p', k) <==>
                  if SavedLinesFor(p.orders[id].lines, k, f.lostCredits, 0) == 1
                  then k in counts || ReceivedOf(p.receipts[r].lines, k) == 0
                  else CountedUnits(p.receipts[r].lines, counts, k) == 0)
  {
    ReceiveRises(p, r, operator, counts, now, f, k);
    SavedAtMostAll(p.orders[p.receipts[r].orderRef].lines, k, f.lostCredits, 0);
    UncountedUnits(p.receipts[r].lines, counts, k);
  }

  lemma {:induction false} UncountedUnits(lines: seq<ReceiptLine>, counts: map<string, Count>, k: string)
    ensures k !in counts ==> CountedUnits(lines, counts, k) == 0
  {
    if lines != [] {
      UncountedUnits(lines[1..], counts, k);
    }
  }

  predicate Uncounted(lines: seq<ReceiptLine>) {
    forall i :: 0 <= i < |lines| ==> lines[i].received.None?
  }

  lemma {:induction false} UncountedReceived(lines: seq<ReceiptLine>, k: string)
    requires Uncounted(lines)
    ensures ReceivedOf(lines, k) == 0
  {
    if lines != [] {
      UncountedReceived(lines[1..], k);
    }
  }

  /** A first, complete receipt raises stock, ledger balance and order line of every SKU on one order line by
      the same amount, however many receipt lines the SKU has. */
  lemma FirstReceiptAgrees(p: Procurement, r: ReceiptId, operator: nat, counts: map<string, Count>, now: nat,
          f: ReceiveFaults, k: string)
    requires ClockAhead(p.ledger, p.clock) && Completes(p, r, operator, counts, now, f) && Dependable(counts, f)
    requires Uncounted(p.receipts[r].lines)
    requires SavedLinesFor(p.orders[p.receipts[r].orderRef].lines, k, f.lostCredits, 0) == 1
    ensures var p' := AfterReceive(p, r, operator, counts, now, f);
            var id := p.receipts[r].orderRef;
            && id in p'.orders
            && OrderRise(p, p', id, k) == StockRise(p, p', k) == CountedUnits(p.receipts[r].lines, counts, k)
            && Balance(p'.ledger, k) - Balance(p.ledger, k) == StockRise(p, p', k)
  {
    ReceiveRises(p, r, operator, counts, now, f, k);
    UncountedUnits(p.receipts[r].lines, counts, k);
    UncountedReceived(p.receipts[r].lines, k);
    ReceiveGap(p, r, operator, counts, now, f, k);
    NothingMissed(Begin(p, r), 0, counts, now, p.maxAge, f, k);
  }
}
