/**
 Choosing the best supplier of a SKU, the supplier metrics the choice rests on, and the shortage
 summary shown to buyers. Scores and prices are exact reals.
 */
module VendorRouting {
  import opened Sequences
  import opened Options
  import opened DeficitPool
  import opened DeficitLaws

  datatype Supplier = Supplier(name: string, quality: real, onTime: real)
  datatype Mapping = Mapping(supplierId: nat, sku: string, price: real)
  datatype Receipt = Receipt(vendor: nat, complete: bool, defective: seq<Option<int>>)
  datatype Choice = Choice(supplier: Supplier, mapping: Mapping)

  datatype Vendors = Vendors(suppliers: map<nat, Supplier>, mappings: seq<Mapping>, receipts: seq<Receipt>)

  const NO_SCORE := -1.0

  function Score(s: Supplier, m: Mapping): real {
    (s.quality * 0.6 + s.onTime * 0.4) - m.price / 10000.0
  }

  // ---------------------------------------------------------------- mappings of a SKU, cheapest first

  function OfSku(ms: seq<Mapping>, sku: string): seq<Mapping> {
    if ms == [] then [] else (if ms[0].sku == sku then [ms[0]] else []) + OfSku(ms[1..], sku)
  }

  function InsertByPrice(m: Mapping, sorted: seq<Mapping>): seq<Mapping> {
    if sorted == [] || m.price <= sorted[0].price then [m] + sorted
    else [sorted[0]] + InsertByPrice(m, sorted[1..])
  }

  /** Ascending by price; equal prices keep table order. */
  function ByPrice(ms: seq<Mapping>): seq<Mapping> {
    if ms == [] then [] else InsertByPrice(ms[0], ByPrice(ms[1..]))
  }

  function FindBySku(v: Vendors, sku: string): seq<Mapping> {
    ByPrice(OfSku(v.mappings, sku))
  }

  lemma {:induction false} InsertKeepsElements(m: Mapping, sorted: seq<Mapping>)
    ensures multiset(InsertByPrice(m, sorted)) == multiset{m} + multiset(sorted)
  {
    if sorted == [] || m.price <= sorted[0].price {
    } else {
      InsertKeepsElements(m, sorted[1..]);
      assert sorted == [sorted[0]] + sorted[1..];
    }
  }

  predicate Ascending(ms: seq<Mapping>) {
    forall i, j :: 0 <= i < j < |ms| ==> ms[i].price <= ms[j].price
  }

  lemma {:induction false} InsertKeepsAscending(m: Mapping, sorted: seq<Mapping>)
    requires Ascending(sorted)
    ensures Ascending(InsertByPrice(m, sorted))
    ensures forall e :: e in InsertByPrice(m, sorted) ==> e == m || e in sorted
  {
    if sorted == [] || m.price <= sorted[0].price {
    } else {
      InsertKeepsAscending(m, sorted[1..]);
      var rest := InsertByPrice(m, sorted[1..]);
      forall j | 0 <= j < |rest|
        ensures sorted[0].price <= rest[j].price
      {
        assert rest[j] in rest;
      }
    }
  }

  lemma {:induction false} ByPriceAscends(ms: seq<Mapping>)
    ensures Ascending(ByPrice(ms))
  {
    if ms != [] {
      ByPriceAscends(ms[1..]);
      InsertKeepsAscending(ms[0], ByPrice(ms[1..]));
    }
  }

  lemma {:induction false} ByPriceKeepsElements(ms: seq<Mapping>)
    ensures multiset(ByPrice(ms)) == multiset(ms)
  {
    if ms != [] {
      ByPriceKeepsElements(ms[1..]);
      InsertKeepsElements(ms[0], ByPrice(ms[1..]));
      assert ms == [ms[0]] + ms[1..];
    }
  }

  lemma {:induction false} OfSkuMembers(ms: seq<Mapping>, sku: string)
    ensures forall m :: m in OfSku(ms, sku) <==> m in ms && m.sku == sku
  {
    if ms != [] {
      OfSkuMembers(ms[1..], sku);
    }
  }

  lemma {:induction false} OfSkuAppend(ms: seq<Mapping>, m: Mapping, sku: string)
    ensures OfSku(ms + [m], sku) == OfSku(ms, sku) + (if m.sku == sku then [m] else [])
  {
    var last := if m.sku == sku then [m] else [];
    if ms == [] {
      EmptySums([m]);
      EmptySums(last);
    } else {
      TailOfSum(ms, [m]);
      OfSkuAppend(ms[1..], m, sku);
      Associate(if ms[0].sku == sku then [ms[0]] else [], OfSku(ms[1..], sku), last);
    }
  }

  // ---------------------------------------------------------------- the best supplier

  /** The scan over the first n mappings: the index it holds as best. */
  function Pick(ms: seq<Mapping>, suppliers: map<nat, Supplier>, n: nat): (r: Option<nat>)
    requires n <= |ms|
    ensures r.Some? ==> r.value < n && ms[r.value].supplierId in suppliers
  {
    if n == 0 then None
    else
      var best := Pick(ms, suppliers, n - 1);
      if ms[n - 1].supplierId in suppliers && ScoreAt(ms, suppliers, n - 1) > BestScore(ms, suppliers, best)
      then Some(n - 1) else best
  }

  function ScoreAt(ms: seq<Mapping>, suppliers: map<nat, Supplier>, i: nat): real
    requires i < |ms| && ms[i].supplierId in suppliers
  {
    Score(suppliers[ms[i].supplierId], ms[i])
  }

  function BestScore(ms: seq<Mapping>, suppliers: map<nat, Supplier>, best: Option<nat>): real
    requires best.Some? ==> best.value < |ms| && ms[best.value].supplierId in suppliers
  {
    if best.None? then NO_SCORE else ScoreAt(ms, suppliers, best.value)
  }

  /** What the scan is for: the first mapping of maximal score above the floor, among the mappings
      whose supplier can be resolved. */
  predicate IsFirstBest(ms: seq<Mapping>, suppliers: map<nat, Supplier>, best: nat) {
    && best < |ms| && ms[best].supplierId in suppliers
    && ScoreAt(ms, suppliers, best) > NO_SCORE
    && (forall j :: 0 <= j < |ms| && ms[j].supplierId in suppliers ==>
          if j < best then ScoreAt(ms, suppliers, j) < ScoreAt(ms, suppliers, best)
          else ScoreAt(ms, suppliers, j) <= ScoreAt(ms, suppliers, best))
  }

  lemma {:induction false} PickScan(ms: seq<Mapping>, suppliers: map<nat, Supplier>, n: nat)
    requires n <= |ms|
    ensures var best := Pick(ms, suppliers, n);
            && (best.None? ==> forall j :: 0 <= j < n && ms[j].supplierId in suppliers ==>
                 ScoreAt(ms, suppliers, j) <= NO_SCORE)
            && (best.Some? ==> IsFirstBest(ms[..n], suppliers, best.value))
  {
    if n > 0 {
      PickScan(ms, suppliers, n - 1);
      assert forall j :: 0 <= j < n ==> ms[..n][j] == ms[j];
      assert forall j :: 0 <= j < n - 1 ==> ms[..n - 1][j] == ms[j];
    }
  }

  /** The scan returns index i exactly when i is the first best, and nothing exactly when no resolvable
      mapping scores above the floor. */
  lemma PickIsFirstBest(ms: seq<Mapping>, suppliers: map<nat, Supplier>, i: nat)
    ensures Pick(ms, suppliers, |ms|) == Some(i) <==> IsFirstBest(ms, suppliers, i)
    ensures Pick(ms, suppliers, |ms|) == None <==>
              forall j :: 0 <= j < |ms| && ms[j].supplierId in suppliers ==> ScoreAt(ms, suppliers, j) <= NO_SCORE
  {
    PickScan(ms, suppliers, |ms|);
    WholePrefix(ms);
  }

  function Optimal(v: Vendors, sku: string): Option<Choice> {
    var ms := FindBySku(v, sku);
    var best := Pick(ms, v.suppliers, |ms|);
    if best.None? then None
    else Some(Choice(v.suppliers[ms[best.value].supplierId], ms[best.value]))
  }

  lemma {:induction false} PickReadsOnlyItsSuppliers(ms: seq<Mapping>, s0: map<nat, Supplier>,
          s1: map<nat, Supplier>, n: nat)
    requires n <= |ms|
    requires forall m :: m in ms ==> (m.supplierId in s0 <==> m.supplierId in s1)
    requires forall m :: m in ms && m.supplierId in s0 ==> s0[m.supplierId] == s1[m.supplierId]
    ensures Pick(ms, s0, n) == Pick(ms, s1, n)
  {
    if n > 0 {
      PickReadsOnlyItsSuppliers(ms, s0, s1, n - 1);
      assert ms[n - 1] in ms;
    }
  }

  /** The frame of the choice: a supplier that a SKU has no mapping for does not bear on it. */
  lemma OptimalIgnoresOthers(v: Vendors, id: nat, s: Supplier, sku: string)
    requires forall m :: m in v.mappings && m.sku == sku ==> m.supplierId != id
    ensures Optimal(v.(suppliers := v.suppliers[id := s]), sku) == Optimal(v, sku)
  {
    var ms := FindBySku(v, sku);
    forall m | m in ms
      ensures m.supplierId != id
    {
      ByPriceKeepsElements(OfSku(v.mappings, sku));
      OfSkuMembers(v.mappings, sku);
      assert m in multiset(ms);
      assert m in OfSku(v.mappings, sku);
    }
    PickReadsOnlyItsSuppliers(ms, v.suppliers, v.suppliers[id := s], |ms|);
  }

  // ---------------------------------------------------------------- supplier metrics

  function ReceiptsOf(rs: seq<Receipt>, vendor: nat): nat {
    if rs == [] then 0 else (if rs[0].vendor == vendor then 1 else 0) + ReceiptsOf(rs[1..], vendor)
  }

  function CompleteOf(rs: seq<Receipt>, vendor: nat): (n: nat)
    ensures n <= ReceiptsOf(rs, vendor)
  {
    if rs == [] then 0
    else (if rs[0].vendor == vendor && rs[0].complete then 1 else 0) + CompleteOf(rs[1..], vendor)
  }

  function DefectiveLines(ds: seq<Option<int>>): nat {
    if ds == [] then 0 else (if ds[0].Some? && ds[0].value > 0 then 1 else 0) + DefectiveLines(ds[1..])
  }

  /** Defective lines, not receipts, although the rate divides by receipts. */
  function DefectsOf(rs: seq<Receipt>, vendor: nat): nat {
    if rs == [] then 0
    else (if rs[0].vendor == vendor then DefectiveLines(rs[0].defective) else 0) + DefectsOf(rs[1..], vendor)
  }

  /** Rounding to the nearest integer, halves away from zero. */
  function Round(x: real): int {
    if x >= 0.0 then (x + 0.5).Floor else -((-x + 0.5).Floor)
  }

  function Round2(x: real): real {
    Round(x * 100.0) as real / 100.0
  }

  function Percent(part: nat, whole: nat): real
    requires whole > 0
  {
    part as real / whole as real * 100.0
  }

  function OnTimeRate(rs: seq<Receipt>, vendor: nat): real {
    var total := ReceiptsOf(rs, vendor);
    if total == 0 then 0.0 else Round2(Percent(CompleteOf(rs, vendor), total))
  }

  function QualityScore(rs: seq<Receipt>, vendor: nat): real {
    var total := ReceiptsOf(rs, vendor);
    if total == 0 then 100.0 else Round2(100.0 - Percent(DefectsOf(rs, vendor), total))
  }

  lemma PercentInRange(part: nat, whole: nat)
    requires whole > 0
    ensures 0.0 <= Percent(part, whole)
    ensures part <= whole <==> Percent(part, whole) <= 100.0
  {
    assert Percent(part, whole) * whole as real == part as real * 100.0;
  }

  lemma RoundInRange(x: real)
    ensures x <= 100.0 ==> Round2(x) <= 100.0
    ensures x >= 0.0 ==> Round2(x) >= 0.0
  {
    var y := x * 100.0;
    assert x <= 100.0 ==> y <= 10000.0;
    assert Round(y) as real <= y + 0.5 || y < 0.0;
    assert y <= 10000.0 ==> Round(y) <= 10000;
    assert y >= 0.0 ==> Round(y) >= 0;
  }

  lemma RoundNotNegativeIff(x: real)
    ensures Round2(x) >= 0.0 <==> x * 100.0 > -0.5
  {
  }

  /** Both sides of the rounding, cleared of fractions. */
  lemma ClearedOfFractions(receipts: nat, defects: nat)
    requires receipts > 0
    ensures (100.0 - Percent(defects, receipts)) * 100.0 > -0.5
            <==> 20000 * (defects as int - receipts as int) < receipts
  {
    var r, d := receipts as real, defects as real;
    var p := Percent(defects, receipts);
    assert p * r == d * 100.0;
    var y := (100.0 - p) * 100.0 + 0.5;
    assert y * r == 10000.0 * r - 10000.0 * d + 0.5 * r;
    assert y > 0.0 <==> y * r > 0.0;
  }

  lemma OnTimeInRange(rs: seq<Receipt>, vendor: nat)
    ensures 0.0 <= OnTimeRate(rs, vendor) <= 100.0
  {
    var total := ReceiptsOf(rs, vendor);
    if total > 0 {
      PercentInRange(CompleteOf(rs, vendor), total);
      RoundInRange(Percent(CompleteOf(rs, vendor), total));
    }
  }

  lemma RoundedQuality(receipts: nat, defects: nat)
    requires receipts > 0
    ensures var score := Round2(100.0 - Percent(defects, receipts));
            score <= 100.0 && (score >= 0.0 <==> 20000 * (defects as int - receipts as int) < receipts)
  {
    var x := 100.0 - Percent(defects, receipts);
    PercentInRange(defects, receipts);
    RoundInRange(x);
    RoundNotNegativeIff(x);
    ClearedOfFractions(receipts, defects);
  }

  lemma QualityInRange(rs: seq<Receipt>, vendor: nat)
    ensures QualityScore(rs, vendor) <= 100.0
    ensures var receipts, defects := ReceiptsOf(rs, vendor), DefectsOf(rs, vendor);
            QualityScore(rs, vendor) >= 0.0 <==> receipts == 0 || 20000 * (defects - receipts) < receipts
  {
    var receipts, defects := ReceiptsOf(rs, vendor), DefectsOf(rs, vendor);
    if receipts > 0 {
      RoundedQuality(receipts, defects);
    }
  }

  /** Rates are percentages, but for a quality score below zero: that happens exactly when the defective lines
      outnumber the receipts by at least one twenty-thousandth of them, which is where rounding to two places stops
      hiding it. */
  lemma MetricsInRange(rs: seq<Receipt>, vendor: nat)
    ensures 0.0 <= OnTimeRate(rs, vendor) <= 100.0
    ensures QualityScore(rs, vendor) <= 100.0
    ensures var receipts, defects := ReceiptsOf(rs, vendor), DefectsOf(rs, vendor);
            QualityScore(rs, vendor) >= 0.0 <==> receipts == 0 || 20000 * (defects - receipts) < receipts
  {
    OnTimeInRange(rs, vendor);
    QualityInRange(rs, vendor);
  }

  /** With one mapping there is a choice exactly if its supplier resolves and scores above the floor. */
  lemma OnlyMappingChosenIff(v: Vendors, m: Mapping)
    requires OfSku(v.mappings, m.sku) == [m]
    ensures Optimal(v, m.sku) == None
       <==> m.supplierId !in v.suppliers || Score(v.suppliers[m.supplierId], m) <= NO_SCORE
  {
    assert [m][1..] == [];
    assert ByPrice([m]) == [m];
    PickIsFirstBest([m], v.suppliers, 0);
  }

  /** When recomputing its metrics hides the only supplier of a SKU, in terms of its receipts and its price: sixty
      times the quality and forty times the on-time rate, both in hundredths, stay at least 10000 below the price. */
  lemma MetricsHideTheOnlySupplierIff(v: Vendors, m: Mapping)
    requires OfSku(v.mappings, m.sku) == [m] && m.supplierId in v.suppliers && ReceiptsOf(v.receipts, m.supplierId) > 0
    ensures var id := m.supplierId;
            var total := ReceiptsOf(v.receipts, id);
            var quality := Round((100.0 - Percent(DefectsOf(v.receipts, id), total)) * 100.0);
            var onTime := Round(Percent(CompleteOf(v.receipts, id), total) * 100.0);
            Optimal(AfterMetrics(v, id), m.sku) == None <==> (60 * quality + 40 * onTime) as real <= m.price - 10000.0
  {
    OnlyMappingChosenIff(AfterMetrics(v, m.supplierId), m);
  }

  lemma ThreefoldDefects(receipts: nat, defects: nat)
    requires receipts > 0 && defects >= 3 * receipts
    ensures Round2(100.0 - Percent(defects, receipts)) <= -200.0
  {
    var p := Percent(defects, receipts);
    assert p * receipts as real == defects as real * 100.0;
    assert (p - 300.0) * receipts as real >= 0.0;
    assert p >= 300.0;
    assert Round((100.0 - p) * 100.0) <= -20000;
  }

  /** So with three defective lines a receipt nobody is offered any more, whatever the price. */
  lemma DefectiveLinesHideTheOnlySupplier(v: Vendors, m: Mapping)
    requires OfSku(v.mappings, m.sku) == [m] && m.supplierId in v.suppliers && m.price >= 0.0
    requires ReceiptsOf(v.receipts, m.supplierId) > 0
    requires DefectsOf(v.receipts, m.supplierId) >= 3 * ReceiptsOf(v.receipts, m.supplierId)
    ensures QualityScore(v.receipts, m.supplierId) <= -200.0
    ensures Optimal(AfterMetrics(v, m.supplierId), m.sku) == None
  {
    ThreefoldDefects(ReceiptsOf(v.receipts, m.supplierId), DefectsOf(v.receipts, m.supplierId));
    MetricsInRange(v.receipts, m.supplierId);
    OnlyMappingChosenIff(AfterMetrics(v, m.supplierId), m);
  }

  // ---------------------------------------------------------------- the shortage summary

  datatype SummaryRow = SummaryRow(position: nat, sku: string, reqQty: int, bestSupplier: string)

  /** The SKUs of the well-formed messages, each once, in order of first appearance. */
  function SkusOf(s: seq<Delivery>): seq<string> {
    if s == [] then []
    else
      var before := SkusOf(s[..|s| - 1]);
      var d := s[|s| - 1];
      if d.Deficit? && d.sku !in before then before + [d.sku] else before
  }

  lemma {:induction false} SkusOfSound(s: seq<Delivery>)
    ensures forall k :: k in SkusOf(s) <==> exists i :: 0 <= i < |s| && s[i].Deficit? && s[i].sku == k
    ensures forall i, j :: 0 <= i < j < |SkusOf(s)| ==> SkusOf(s)[i] != SkusOf(s)[j]
  {
    if s != [] {
      var before := s[..|s| - 1];
      SkusOfSound(before);
      assert forall i :: 0 <= i < |before| ==> before[i] == s[i];
      forall k
        ensures k in SkusOf(s) <==> exists i :: 0 <= i < |s| && s[i].Deficit? && s[i].sku == k
      {
        if k in SkusOf(before) {
          var i :| 0 <= i < |before| && before[i].Deficit? && before[i].sku == k;
          assert s[i].Deficit? && s[i].sku == k;
        } else if exists i :: 0 <= i < |s| && s[i].Deficit? && s[i].sku == k {
          var i :| 0 <= i < |s| && s[i].Deficit? && s[i].sku == k;
          assert i == |s| - 1 || before[i] == s[i];
        }
      }
    }
  }

  /** They come in the order in which they first appear. */
  lemma {:induction false} SkusInOrder(s: seq<Delivery>, i: nat, j: nat)
    requires i < j < |SkusOf(s)|
    ensures exists a :: 0 <= a < |s| && s[a].Deficit? && s[a].sku == SkusOf(s)[i]
                        && forall b :: 0 <= b <= a && s[b].Deficit? ==> s[b].sku != SkusOf(s)[j]
  {
    var before := s[..|s| - 1];
    assert forall b :: 0 <= b < |before| ==> s[b] == before[b];
    SkusOfSound(before);
    if j < |SkusOf(before)| {
      SkusInOrder(before, i, j);
      var a :| 0 <= a < |before| && before[a].Deficit? && before[a].sku == SkusOf(before)[i]
               && forall b :: 0 <= b <= a && before[b].Deficit? ==> before[b].sku != SkusOf(before)[j];
    } else {
      assert SkusOf(before)[i] in SkusOf(before);
      var a :| 0 <= a < |before| && before[a].Deficit? && before[a].sku == SkusOf(before)[i];
      assert s[a] == before[a];
    }
  }

  /** The first of the cheapest mappings. */
  predicate IsCheapest(ms: seq<Mapping>, i: nat) {
    && i < |ms|
    && (forall j :: 0 <= j < i ==> ms[i].price < ms[j].price)
    && (forall j :: i <= j < |ms| ==> ms[i].price <= ms[j].price)
  }

  const NO_MAPPING := "No Supplier Mapping"

  /** The name shown for a SKU: the supplier of its first cheapest mapping, if there is one. */
  ghost predicate IsShownSupplier(v: Vendors, sku: string, name: string) {
    var ms := FindBySku(v, sku);
    if ms == [] then name == NO_MAPPING
    else
      exists c: nat :: IsCheapest(ms, c) && name ==
        if ms[c].supplierId in v.suppliers then v.suppliers[ms[c].supplierId].name else NO_MAPPING
  }

  /** The i-th summary row of a pool. */
  ghost predicate IsRow(v: Vendors, pool: seq<Delivery>, i: nat, row: SummaryRow) {
    && i < |SkusOf(pool)|
    && row.position == i + 1 && row.sku == SkusOf(pool)[i]
    && row.reqQty == Units(pool, row.sku)
    && IsShownSupplier(v, row.sku, row.bestSupplier)
  }

  class VendorService {
    var suppliers: map<nat, Supplier>
    var mappings: seq<Mapping>
    var receipts: seq<Receipt>

    constructor ()
      ensures View() == Vendors(map[], [], [])
    {
      suppliers, mappings, receipts := map[], [], [];
    }

    ghost function View(): Vendors
      reads this
    {
      Vendors(suppliers, mappings, receipts)
    }

    method GetOptimalSupplier(sku: string) returns (r: Option<Choice>)
      ensures r == Optimal(View(), sku)
    {
      var ms := ByPrice(OfSku(mappings, sku));
      var bestScore: real, best: Option<nat> := NO_SCORE, None;
      r := None;
      for i := 0 to |ms|
        invariant best == Pick(ms, suppliers, i)
        invariant bestScore == BestScore(ms, suppliers, best)
        invariant r == if best.None? then None
                       else Some(Choice(suppliers[ms[best.value].supplierId], ms[best.value]))
      {
        if ms[i].supplierId in suppliers {
          var supplier := suppliers[ms[i].supplierId];
          var score := Score(supplier, ms[i]);
          if score > bestScore {
            bestScore, best, r := score, Some(i), Some(Choice(supplier, ms[i]));
          }
        }
      }
    }

    method UpdateSupplierMetrics(id: nat)
      modifies this
      ensures View() == old(AfterMetrics(View(), id))
    {
      var total, complete, defects := 0, 0, 0;
      for i := 0 to |receipts|
        invariant total + ReceiptsOf(receipts[i..], id) == ReceiptsOf(receipts, id)
        invariant complete + CompleteOf(receipts[i..], id) == CompleteOf(receipts, id)
        invariant defects + DefectsOf(receipts[i..], id) == DefectsOf(receipts, id)
        invariant receipts == old(receipts) && suppliers == old(suppliers) && mappings == old(mappings)
      {
        assert receipts[i..][1..] == receipts[i + 1..];
        if receipts[i].vendor == id {
          total := total + 1;
          var lines := receipts[i].defective;
          ghost var before := defects;
          for j := 0 to |lines|
            invariant defects + DefectiveLines(lines[j..]) == before + DefectiveLines(lines)
            invariant receipts == old(receipts) && suppliers == old(suppliers) && mappings == old(mappings)
          {
            assert lines[j..][1..] == lines[j + 1..];
            if lines[j].Some? && lines[j].value > 0 {
              defects := defects + 1;
            }
          }
          if receipts[i].complete {
            complete := complete + 1;
          }
        }
      }
      var onTime, quality := 0.0, 100.0;
      if total > 0 {
        onTime := Round2(complete as real / total as real * 100.0);
        quality := Round2(100.0 - defects as real / total as real * 100.0);
      }
      if id in suppliers {
        suppliers := suppliers[id := suppliers[id].(onTime := onTime, quality := quality)];
      }
    }

    method CreateSupplier(id: nat, s: Supplier) returns (ok: bool)
      modifies this
      ensures ok == (id !in old(suppliers))
      ensures View() == old(AfterSupplier(View(), id, s))
    {
      ok := id !in suppliers;
      if ok {
        suppliers := suppliers[id := s];
      }
    }

    method CreateSkuMapping(m: Mapping)
      modifies this
      ensures View() == old(View()).(mappings := old(mappings) + [m])
    {
      mappings := mappings + [m];
    }

    /** The quantity of each SKU in the pool, and the SKUs in order of first appearance. */
    method AggregatePool(pool: seq<Delivery>) returns (qtyBySku: map<string, int>, skuOrder: seq<string>)
      ensures skuOrder == SkusOf(pool)
      ensures forall k :: k in skuOrder ==> k in qtyBySku && qtyBySku[k] == Units(pool, k)
    {
      qtyBySku, skuOrder := map[], [];
      for i := 0 to |pool|
        invariant skuOrder == SkusOf(pool[..i])
        invariant forall k :: k in qtyBySku <==> k in skuOrder
        invariant forall k :: Units(pool[..i], k) == if k in qtyBySku then qtyBySku[k] else 0
      {
        var d := pool[i];
        assert pool[..i + 1][..i] == pool[..i];
        forall k
          ensures Units(pool[..i + 1], k) == Units(pool[..i], k) + UnitsOf(k)(d)
        {
          assert pool[..i + 1] == pool[..i] + [d];
          SumAppend(UnitsOf(k), pool[..i], [d]);
        }
        if d.Deficit? {
          if d.sku !in qtyBySku {
            skuOrder := skuOrder + [d.sku];
            qtyBySku := qtyBySku[d.sku := 0];
          }
          qtyBySku := qtyBySku[d.sku := qtyBySku[d.sku] + d.qty];
        }
      }
      WholePrefix(pool);
    }

    /** One row for each SKU of the peeked pool, in order of first appearance, with the total asked for
        and the supplier of its cheapest mapping. */
    method GetShortageSummary(pool: seq<Delivery>) returns (rows: seq<SummaryRow>)
      ensures |rows| == |SkusOf(pool)|
      ensures forall i :: 0 <= i < |rows| ==> IsRow(View(), pool, i, rows[i])
    {
      var qtyBySku, skuOrder := AggregatePool(pool);
      rows := [];
      for i := 0 to |skuOrder|
        invariant |rows| == i
        invariant forall j :: 0 <= j < i ==> IsRow(View(), pool, j, rows[j])
      {
        var sku := skuOrder[i];
        var name := CheapestSupplier(sku);
        var row := SummaryRow(i + 1, sku, qtyBySku[sku], name);
        assert IsRow(View(), pool, i, row);
        rows := rows + [row];
      }
    }

    method CheapestSupplier(sku: string) returns (name: string)
      ensures IsShownSupplier(View(), sku, name)
    {
      var ms := ByPrice(OfSku(mappings, sku));
      name := NO_MAPPING;
      if ms == [] {
        return;
      }
      var c := 0;
      for i := 1 to |ms|
        invariant c < i && IsCheapest(ms[..i], c)
      {
        if ms[i].price < ms[c].price {
          c := i;
        }
      }
      WholePrefix(ms);
      if ms[c].supplierId in suppliers {
        name := suppliers[ms[c].supplierId].name;
      }
      assert IsCheapest(ms, c);
    }
  }

  function AfterMetrics(v: Vendors, id: nat): Vendors {
    if id in v.suppliers then
      v.(suppliers := v.suppliers[id := v.suppliers[id].(onTime := OnTimeRate(v.receipts, id),
                                                         quality := QualityScore(v.receipts, id))])
    else v
  }

  function AfterSupplier(v: Vendors, id: nat, s: Supplier): Vendors {
    if id in v.suppliers then v else v.(suppliers := v.suppliers[id := s])
  }

  /** The row shows exactly what can be locked, for every positive quantity, if and only if no prefix of the pool
      exceeds its total; it does so on every pool without negative quantities. */
  lemma SummaryIsLockable(b: Broker, v: Vendors, i: nat, row: SummaryRow)
    requires IsRow(v, b.pool, i, row)
    ensures (forall qty :: qty >= 1 ==> (LockOutcome(b, row.sku, qty, NO_FAULTS) == Locked <==> qty <= row.reqQty))
       <==> NoPrefixExceeds(b.pool, row.sku)
    ensures NonNegative(b.pool) ==> NoPrefixExceeds(b.pool, row.sku)
  {
    TotalIsLockableIff(b, row.sku);
    if NonNegative(b.pool) {
      NonNegativePoolsDoNotExceed(b.pool, row.sku);
    }
  }
}
