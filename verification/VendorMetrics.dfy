/**
 What a supplier's two rates say: how many of its receipts there are, how many are complete, and how many of their
 lines have defects, each counted once, and the percentages to the nearest hundredth.
 */
module VendorMetrics {
  import opened Sequences
  import opened Options
  import opened VendorRouting

  // ---------------------------------------------------------------- counting

  function ReceiptSet(rs: seq<Receipt>, vendor: nat): set<nat> {
    set i: nat | i < |rs| && rs[i].vendor == vendor
  }

  function CompleteSet(rs: seq<Receipt>, vendor: nat): set<nat> {
    set i: nat | i < |rs| && rs[i].vendor == vendor && rs[i].complete
  }

  function DefectiveSet(ds: seq<Option<int>>): set<nat> {
    set j: nat | j < |ds| && ds[j].Some? && ds[j].value > 0
  }

  /** The defective lines of a vendor, each as its receipt and its place there. */
  function DefectSet(rs: seq<Receipt>, vendor: nat): set<(nat, nat)> {
    set i: nat, j: nat | i < |rs| && rs[i].vendor == vendor && j < |rs[i].defective|
                         && j in DefectiveSet(rs[i].defective) :: (i, j)
  }

  lemma {:induction false} ReceiptsAppend(rs: seq<Receipt>, r: Receipt, vendor: nat)
    ensures ReceiptsOf(rs + [r], vendor) == ReceiptsOf(rs, vendor) + (if r.vendor == vendor then 1 else 0)
    ensures CompleteOf(rs + [r], vendor)
         == CompleteOf(rs, vendor) + (if r.vendor == vendor && r.complete then 1 else 0)
    ensures DefectsOf(rs + [r], vendor)
         == DefectsOf(rs, vendor) + (if r.vendor == vendor then DefectiveLines(r.defective) else 0)
  {
    if rs == [] {
      EmptySums([r]);
    } else {
      TailOfSum(rs, [r]);
      ReceiptsAppend(rs[1..], r, vendor);
    }
  }

  lemma {:induction false} DefectiveAppend(ds: seq<Option<int>>, d: Option<int>)
    ensures DefectiveLines(ds + [d]) == DefectiveLines(ds) + (if d.Some? && d.value > 0 then 1 else 0)
  {
    if ds == [] {
      EmptySums([d]);
    } else {
      TailOfSum(ds, [d]);
      DefectiveAppend(ds[1..], d);
    }
  }

  lemma OneMore(s: set<nat>, n: nat, more: bool)
    requires n !in s
    ensures |s + (if more then {n} else {})| == |s| + (if more then 1 else 0)
  {
    assert s + {} == s;
  }

  lemma ReceiptSetsGrow(rs: seq<Receipt>, r: Receipt, vendor: nat)
    ensures ReceiptSet(rs + [r], vendor) == ReceiptSet(rs, vendor) + (if r.vendor == vendor then {|rs|} else {})
    ensures CompleteSet(rs + [r], vendor)
         == CompleteSet(rs, vendor) + (if r.vendor == vendor && r.complete then {|rs|} else {})
  {
    assert forall i :: 0 <= i < |rs| ==> (rs + [r])[i] == rs[i];
  }

  lemma {:induction false} ReceiptsAreCounted(rs: seq<Receipt>, vendor: nat)
    ensures ReceiptsOf(rs, vendor) == |ReceiptSet(rs, vendor)|
    ensures CompleteOf(rs, vendor) == |CompleteSet(rs, vendor)|
  {
    if rs != [] {
      var n := |rs| - 1;
      var before, last := rs[..n], rs[n];
      ReceiptsAreCounted(before, vendor);
      assert rs == before + [last];
      ReceiptsAppend(before, last, vendor);
      ReceiptSetsGrow(before, last, vendor);
      OneMore(ReceiptSet(before, vendor), n, last.vendor == vendor);
      OneMore(CompleteSet(before, vendor), n, last.vendor == vendor && last.complete);
    }
  }

  lemma DefectiveSetGrows(ds: seq<Option<int>>, d: Option<int>)
    ensures DefectiveSet(ds + [d]) == DefectiveSet(ds) + (if d.Some? && d.value > 0 then {|ds|} else {})
  {
    assert forall j :: 0 <= j < |ds| ==> (ds + [d])[j] == ds[j];
  }

  lemma {:induction false} DefectiveLinesAreCounted(ds: seq<Option<int>>)
    ensures DefectiveLines(ds) == |DefectiveSet(ds)|
  {
    if ds != [] {
      var n := |ds| - 1;
      DefectiveLinesAreCounted(ds[..n]);
      assert ds == ds[..n] + [ds[n]];
      DefectiveAppend(ds[..n], ds[n]);
      DefectiveSetGrows(ds[..n], ds[n]);
      OneMore(DefectiveSet(ds[..n]), n, ds[n].Some? && ds[n].value > 0);
    }
  }

  function PairsWith(i: nat, js: set<nat>): set<(nat, nat)> {
    set j | j in js :: (i, j)
  }

  lemma {:induction false} AsManyPairs(i: nat, js: set<nat>)
    ensures |PairsWith(i, js)| == |js|
    decreases |js|
  {
    if js != {} {
      var j :| j in js;
      AsManyPairs(i, js - {j});
      assert PairsWith(i, js) == PairsWith(i, js - {j}) + {(i, j)};
    }
  }

  lemma DefectSetGrows(rs: seq<Receipt>, r: Receipt, vendor: nat)
    ensures var added := if r.vendor == vendor then PairsWith(|rs|, DefectiveSet(r.defective)) else {};
            DefectSet(rs + [r], vendor) == DefectSet(rs, vendor) + added && DefectSet(rs, vendor) !! added
  {
    var added := if r.vendor == vendor then PairsWith(|rs|, DefectiveSet(r.defective)) else {};
    forall i: nat, j: nat
      ensures (i, j) in DefectSet(rs + [r], vendor) <==> (i, j) in DefectSet(rs, vendor) + added
    {
      if i < |rs| {
        assert (rs + [r])[i] == rs[i];
      }
    }
  }

  lemma {:induction false} DefectsAreCounted(rs: seq<Receipt>, vendor: nat)
    ensures DefectsOf(rs, vendor) == |DefectSet(rs, vendor)|
  {
    if rs != [] {
      var n := |rs| - 1;
      DefectsAreCounted(rs[..n], vendor);
      assert rs == rs[..n] + [rs[n]];
      ReceiptsAppend(rs[..n], rs[n], vendor);
      DefectSetGrows(rs[..n], rs[n], vendor);
      DefectiveLinesAreCounted(rs[n].defective);
      AsManyPairs(n, DefectiveSet(rs[n].defective));
    }
  }

  // ---------------------------------------------------------------- rounding

  /** The nearest integer, and of two equally near ones the one further from zero. */
  lemma RoundIsNearest(x: real)
    ensures -0.5 <= Round(x) as real - x <= 0.5
    ensures Round(x) as real - x == 0.5 ==> x > 0.0
    ensures Round(x) as real - x == -0.5 ==> x < 0.0
  {
  }

  predicate ToTheHundredth(x: real, exact: real) {
    -0.005 <= x - exact <= 0.005
  }

  lemma Round2IsNear(x: real)
    ensures ToTheHundredth(Round2(x), x)
  {
    RoundIsNearest(x * 100.0);
  }

  /** After an update a supplier without receipts has the rates 0 and 100; any other the share of its receipts that is
      complete, and 100 less its defective lines for every hundred receipts, to the nearest hundredth. */
  lemma RatesFromReceipts(v: Vendors, id: nat)
    requires id in v.suppliers
    ensures var s, s' := v.suppliers[id], AfterMetrics(v, id).suppliers[id];
            var receipts, complete := |ReceiptSet(v.receipts, id)|, |CompleteSet(v.receipts, id)|;
            var defects := |DefectSet(v.receipts, id)|;
            && s'.name == s.name
            && (receipts == 0 ==> s'.onTime == 0.0 && s'.quality == 100.0)
            && (receipts > 0 ==>
                  && ToTheHundredth(s'.onTime, complete as real / receipts as real * 100.0)
                  && ToTheHundredth(s'.quality, 100.0 - defects as real / receipts as real * 100.0))
    ensures AfterMetrics(v, id) == v.(suppliers := v.suppliers[id := AfterMetrics(v, id).suppliers[id]])
  {
    ReceiptsAreCounted(v.receipts, id);
    DefectsAreCounted(v.receipts, id);
    var receipts := ReceiptsOf(v.receipts, id);
    if receipts > 0 {
      Round2IsNear(Percent(CompleteOf(v.receipts, id), receipts));
      Round2IsNear(100.0 - Percent(DefectsOf(v.receipts, id), receipts));
    }
  }
}
