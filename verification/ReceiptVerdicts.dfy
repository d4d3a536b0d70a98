/**
 How a blind receipt ends, said of the tables before the call and of the counts: which lines it writes, whether the
 receipt is complete or a discrepancy, and whether its purchase order is received or partial.
 */
module ReceiptVerdicts {
  import opened Sequences
  import opened Options
  import opened ProcurementModel
  import opened ReceivingLaws
  import OrderLaws

  // ---------------------------------------------------------------- counted lines

  /** What counting makes of a receipt line; a line whose SKU is not in the counts is left alone. */
  predicate IsCounted(l: ReceiptLine, l': ReceiptLine, counts: map<string, Count>, now: nat, maxAge: nat) {
    if l.sku !in counts then l' == l
    else
      && l'.sku == l.sku && l'.ordered == l.ordered
      && l'.received == Some(counts[l.sku].received) && l'.defective == Some(counts[l.sku].defective)
      && l'.agingSensitive == l.agingSensitive && l'.produced == l.produced
      && (l'.overAge <==> l.overAge || (l.agingSensitive && l.produced.Some? && now > l.produced.value + maxAge))
  }

  /** The count of a line is not what was ordered, or some of it is defective. */
  predicate Differs(l: ReceiptLine, counts: map<string, Count>) {
    l.sku in counts && (counts[l.sku].received != l.ordered || counts[l.sku].defective > 0)
  }

  /** What a line says was received once the counts are in. */
  function LineCredit(l: ReceiptLine, counts: map<string, Count>): int {
    if l.sku in counts then counts[l.sku].received
    else if l.received.Some? then l.received.value
    else 0
  }

  /** What the lines of a receipt credit a SKU with, from the last line down. */
  function Credit(lines: seq<ReceiptLine>, counts: map<string, Count>, sku: string): int {
    if lines == [] then 0
    else
      var last := lines[|lines| - 1];
      Credit(lines[..|lines| - 1], counts, sku) + (if last.sku == sku then LineCredit(last, counts) else 0)
  }

  /** A loop that gets through has counted every line from i on, and notices every difference. */
  lemma {:induction false} CountingLines(w: Counting, i: nat, counts: map<string, Count>, now: nat, maxAge: nat,
          f: ReceiveFaults)
    requires i <= |w.lines| && CountsThrough(w, i, counts, now, maxAge, f)
    ensures var w' := CountedFrom(w, i, counts, now, maxAge, f);
            && |w'.lines| == |w.lines|
            && (forall j :: 0 <= j < i ==> w'.lines[j] == w.lines[j])
            && (forall j :: i <= j < |w.lines| ==> IsCounted(w.lines[j], w'.lines[j], counts, now, maxAge))
            && (w'.discrepancy <==> w.discrepancy || exists j :: i <= j < |w.lines| && Differs(w.lines[j], counts))
    decreases |w.lines| - i
  {
    if i < |w.lines| {
      CountingLines(LineCounted(w, i, counts, now, maxAge, FaultAt(f, i)), i + 1, counts, now, maxAge, f);
    }
  }

  /** A line that cannot be entered: it cannot be saved, or its stock row is missing, unreadable or cannot be saved. */
  predicate Blocked(l: ReceiptLine, stock: map<string, Stock>, counts: map<string, Count>, f: LineFault) {
    l.sku in counts && (f == SaveFails || f == StockUnread || f == StockUnsaved || l.sku !in stock)
  }

  /** A loop breaks off at its first blocked line: the lines before it are counted, the line itself is unless just its
      save failed, and the lines behind it are as they were. */
  lemma {:induction false} CountingBreaksOff(w: Counting, i: nat, counts: map<string, Count>, now: nat, maxAge: nat,
          f: ReceiveFaults, n: nat)
    requires i <= n <= |w.lines|
    requires forall j :: i <= j < n ==> !Blocked(w.lines[j], w.stock, counts, FaultAt(f, j))
    requires n < |w.lines| ==> Blocked(w.lines[n], w.stock, counts, FaultAt(f, n))
    ensures var w' := CountedFrom(w, i, counts, now, maxAge, f);
            && |w'.lines| == |w.lines|
            && (forall j :: i <= j < n ==> IsCounted(w.lines[j], w'.lines[j], counts, now, maxAge))
            && (forall j :: n < j < |w.lines| ==> w'.lines[j] == w.lines[j])
            && (forall j :: 0 <= j < i ==> w'.lines[j] == w.lines[j])
            && (n < |w.lines| ==>
                  if FaultAt(f, n) == SaveFails then w'.lines[n] == w.lines[n]
                  else IsCounted(w.lines[n], w'.lines[n], counts, now, maxAge))
    decreases |w.lines| - i
  {
    if i < n {
      var w1 := LineCounted(w, i, counts, now, maxAge, FaultAt(f, i));
      assert w1.stock.Keys == w.stock.Keys;
      CountingBreaksOff(w1, i + 1, counts, now, maxAge, f, n);
    }
  }

  lemma {:induction false} ReceivedOfAppend(lines: seq<ReceiptLine>, l: ReceiptLine, sku: string)
    ensures ReceivedOf(lines + [l], sku)
         == ReceivedOf(lines, sku) + (if l.sku == sku && l.received.Some? then l.received.value else 0)
  {
    if lines == [] {
      EmptySums([l]);
    } else {
      TailOfSum(lines, [l]);
      ReceivedOfAppend(lines[1..], l, sku);
    }
  }

  lemma {:induction false} CountedIsCredited(lines: seq<ReceiptLine>, lines': seq<ReceiptLine>,
          counts: map<string, Count>, now: nat, maxAge: nat, sku: string)
    requires |lines'| == |lines|
    requires forall j :: 0 <= j < |lines| ==> IsCounted(lines[j], lines'[j], counts, now, maxAge)
    ensures ReceivedOf(lines', sku) == Credit(lines, counts, sku)
  {
    if lines != [] {
      var n := |lines| - 1;
      CountedIsCredited(lines[..n], lines'[..n], counts, now, maxAge, sku);
      assert lines' == lines'[..n] + [lines'[n]];
      ReceivedOfAppend(lines'[..n], lines'[n], sku);
    } else {
      assert lines' == [];
    }
  }

  // ---------------------------------------------------------------- order lines

  /** An order line has what was ordered, once it is credited with the receipt. */
  predicate Filled(l: OrderLine, lines: seq<ReceiptLine>, counts: map<string, Count>) {
    l.received + Credit(lines, counts, l.sku) >= l.ordered
  }

  /** Another receipt of the order that is neither complete nor a discrepancy. */
  predicate OthersOpen(p: Procurement, r: ReceiptId, id: OrderId) {
    exists x :: x in p.receipts && x != r && p.receipts[x].orderRef == id
             && p.receipts[x].status != Complete && p.receipts[x].status != Discrepancy
  }

  // ---------------------------------------------------------------- the verdict

  /** The call got to its purchase order: the receipt is the operator's, no counted line is blocked, and the order
      exists. */
  predicate GetsThrough(p: Procurement, r: ReceiptId, operator: nat, counts: map<string, Count>, now: nat,
          f: ReceiveFaults) {
    && r in p.receipts && p.receipts[r].hold.owner == Some(operator)
    && (p.receipts[r].hold.expires.Some? ==> now <= p.receipts[r].hold.expires.value)
    && (forall j :: 0 <= j < |p.receipts[r].lines| ==>
          !Blocked(p.receipts[r].lines[j], p.stock, counts, FaultAt(f, j)))
    && p.receipts[r].orderRef in p.orders
  }

  lemma {:induction false} NothingBlocks(w: Counting, i: nat, counts: map<string, Count>, now: nat, maxAge: nat,
          f: ReceiveFaults)
    requires i <= |w.lines|
    ensures CountsThrough(w, i, counts, now, maxAge, f)
       <==> forall j :: i <= j < |w.lines| ==> !Blocked(w.lines[j], w.stock, counts, FaultAt(f, j))
    decreases |w.lines| - i
  {
    if i < |w.lines| && !Blocked(w.lines[i], w.stock, counts, FaultAt(f, i)) {
      var w1 := LineCounted(w, i, counts, now, maxAge, FaultAt(f, i));
      assert w1.stock.Keys == w.stock.Keys;
      NothingBlocks(w1, i + 1, counts, now, maxAge, f);
    }
  }

  lemma GetsThroughIff(p: Procurement, r: ReceiptId, operator: nat, counts: map<string, Count>, now: nat,
          f: ReceiveFaults)
    ensures Completes(p, r, operator, counts, now, f) <==> GetsThrough(p, r, operator, counts, now, f)
  {
    if r in p.receipts {
      NothingBlocks(Begin(p, r), 0, counts, now, p.maxAge, f);
    }
  }

  /** What the call answers, refusal by refusal. */
  lemma ReceiveAnswers(p: Procurement, r: ReceiptId, operator: nat, counts: map<string, Count>, now: nat,
          f: ReceiveFaults)
    ensures ReceiveOutcome(p, r, operator, counts, now, f)
         == if r !in p.receipts then NotFound
            else if p.receipts[r].hold.owner != Some(operator) then AlreadyLocked
            else if p.receipts[r].hold.expires.Some? && p.receipts[r].hold.expires.value < now then LockExpired
            else if GetsThrough(p, r, operator, counts, now, f) && !f.receiptFails
                    && (f.orderFails ==> OthersOpen(p, r, p.receipts[r].orderRef)) then Ok
            else Failed
  {
    GetsThroughIff(p, r, operator, counts, now, f);
    if GetsThrough(p, r, operator, counts, now, f) {
      StillOpen(p, r, counts, now, f, operator);
    }
  }

  /** After the verdict the receipts still open are the others that were. */
  lemma StillOpen(p: Procurement, r: ReceiptId, counts: map<string, Count>, now: nat, f: ReceiveFaults, operator: nat)
    requires r in p.receipts && p.receipts[r].orderRef in p.orders
    ensures var counted := AfterLines(p, r, counts, now, f);
            var judged := Judged(WithCredits(counted, r, f.lostCredits), r,
                                 Receiving(p, r, counts, now, f).discrepancy, operator);
            OpenReceipts(judged, p.receipts[r].orderRef) <==> OthersOpen(p, r, p.receipts[r].orderRef)
  {
    var id := p.receipts[r].orderRef;
    var judged := Judged(WithCredits(AfterLines(p, r, counts, now, f), r, f.lostCredits), r,
                         Receiving(p, r, counts, now, f).discrepancy, operator);
    forall x | x in p.receipts && x != r
      ensures x in judged.receipts && judged.receipts[x] == p.receipts[x]
    {
    }
  }

  /** A call that gets through makes its receipt a discrepancy exactly if some counted line differs from what was
      ordered or has defects, and complete otherwise; and if no other receipt of the order is open, it makes the order
      received exactly if every line is filled, and partial otherwise. A write that fails leaves its status. */
  lemma Verdict(p: Procurement, r: ReceiptId, operator: nat, counts: map<string, Count>, now: nat, f: ReceiveFaults)
    requires GetsThrough(p, r, operator, counts, now, f)
    ensures var p' := AfterReceive(p, r, operator, counts, now, f);
            var rec, id := p.receipts[r], p.receipts[r].orderRef;
            && r in p'.receipts && id in p'.orders
            && p'.receipts[r].status ==
                 (if f.receiptFails then rec.status
                  else if exists j :: 0 <= j < |rec.lines| && Differs(rec.lines[j], counts) then Discrepancy
                  else Complete)
            && p'.receipts[r].operator == (if f.receiptFails then rec.operator else operator)
            && p'.orders[id].status ==
                 (if f.receiptFails || f.orderFails || OthersOpen(p, r, id) then p.orders[id].status
                  else if forall j :: 0 <= j < |p.orders[id].lines| ==>
                            Filled(p.orders[id].lines[j], rec.lines, counts) then Received
                  else Partial)
  {
    var w, w' := Begin(p, r), Receiving(p, r, counts, now, f);
    var id := p.receipts[r].orderRef;
    GetsThroughIff(p, r, operator, counts, now, f);
    CountingLines(w, 0, counts, now, p.maxAge, f);
    StillOpen(p, r, counts, now, f, operator);
    AllInIff(p, r, counts, now, f);
  }

  lemma AllInIff(p: Procurement, r: ReceiptId, counts: map<string, Count>, now: nat, f: ReceiveFaults)
    requires r in p.receipts && p.receipts[r].orderRef in p.orders && CountsAll(p, r, counts, now, f)
    ensures var o := p.orders[p.receipts[r].orderRef];
            AllIn(AfterLines(p, r, counts, now, f), r)
            <==> forall j :: 0 <= j < |o.lines| ==> Filled(o.lines[j], p.receipts[r].lines, counts)
  {
    var o, counted := p.orders[p.receipts[r].orderRef], Receiving(p, r, counts, now, f).lines;
    CountingLines(Begin(p, r), 0, counts, now, p.maxAge, f);
    var credited := Credited(o.lines, counted, {}, 0);
    forall j | 0 <= j < |o.lines|
      ensures credited[j].received >= credited[j].ordered <==> Filled(o.lines[j], p.receipts[r].lines, counts)
    {
      CreditedAt(o.lines, counted, {}, 0, j);
      CountedIsCredited(p.receipts[r].lines, counted, counts, now, p.maxAge, o.lines[j].sku);
    }
  }

  /** And what it writes of the lines: each receipt line is counted, each order line credited unless its save failed. */
  lemma WrittenLines(p: Procurement, r: ReceiptId, operator: nat, counts: map<string, Count>, now: nat,
          f: ReceiveFaults)
    requires GetsThrough(p, r, operator, counts, now, f)
    ensures var p' := AfterReceive(p, r, operator, counts, now, f);
            var rec, id := p.receipts[r], p.receipts[r].orderRef;
            && r in p'.receipts && id in p'.orders && p'.orders.Keys == p.orders.Keys
            && |p'.receipts[r].lines| == |rec.lines| && |p'.orders[id].lines| == |p.orders[id].lines|
            && (forall j :: 0 <= j < |rec.lines| ==>
                  IsCounted(rec.lines[j], p'.receipts[r].lines[j], counts, now, p.maxAge))
            && (forall j :: 0 <= j < |p.orders[id].lines| ==>
                  var l := p.orders[id].lines[j];
                  p'.orders[id].lines[j]
                  == if j in f.lostCredits then l
                     else OrderLine(l.sku, l.ordered, l.received + Credit(rec.lines, counts, l.sku), l.price))
            && (forall x :: x in p.orders && x != id ==> p'.orders[x] == p.orders[x])
            && p'.orders[id].vendor == p.orders[id].vendor && p'.orders[id].total == p.orders[id].total
  {
    var counted := Receiving(p, r, counts, now, f).lines;
    GetsThroughIff(p, r, operator, counts, now, f);
    CountingLines(Begin(p, r), 0, counts, now, p.maxAge, f);
    OrderLaws.ReceiveWrites(p, r, operator, counts, now, f);
    WrittenReceipt(p, r, operator, counts, now, f);
    WrittenCredits(p.orders[p.receipts[r].orderRef].lines, p.receipts[r].lines, counted, counts, now, p.maxAge,
                   f.lostCredits);
  }

  lemma WrittenReceipt(p: Procurement, r: ReceiptId, operator: nat, counts: map<string, Count>, now: nat,
          f: ReceiveFaults)
    requires Completes(p, r, operator, counts, now, f)
    ensures var p' := AfterReceive(p, r, operator, counts, now, f);
            r in p'.receipts && p'.receipts[r].lines == Receiving(p, r, counts, now, f).lines
  {
    FinishedTables(AfterLines(p, r, counts, now, f), r, Receiving(p, r, counts, now, f).discrepancy, operator, f);
  }

  lemma WrittenCredits(lines: seq<OrderLine>, receipt: seq<ReceiptLine>, counted: seq<ReceiptLine>,
          counts: map<string, Count>, now: nat, maxAge: nat, lost: set<nat>)
    requires |counted| == |receipt|
    requires forall j :: 0 <= j < |receipt| ==> IsCounted(receipt[j], counted[j], counts, now, maxAge)
    ensures forall j :: 0 <= j < |lines| ==>
              Credited(lines, counted, lost, 0)[j]
              == if j in lost then lines[j]
                 else OrderLine(lines[j].sku, lines[j].ordered,
                                lines[j].received + Credit(receipt, counts, lines[j].sku), lines[j].price)
  {
    forall j | 0 <= j < |lines|
      ensures Credited(lines, counted, lost, 0)[j]
              == if j in lost then lines[j]
                 else OrderLine(lines[j].sku, lines[j].ordered,
                                lines[j].received + Credit(receipt, counts, lines[j].sku), lines[j].price)
    {
      CreditedAt(lines, counted, lost, 0, j);
      CountedIsCredited(receipt, counted, counts, now, maxAge, lines[j].sku);
    }
  }
}
