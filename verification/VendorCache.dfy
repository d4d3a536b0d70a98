/**
 The read-through cache in front of the optimal-supplier choice, and why it stays right: a write
 drops the entries of exactly those SKUs whose choice it could change.
 */
module VendorCache {
  import opened Sequences
  import opened Options
  import opened VendorRouting

  datatype Cached = Cached(vendors: Vendors, cache: map<string, Choice>)

  /** What may fail around a call: reading or filling the cache, the uncached write, looking up the SKUs to drop,
      and dropping any of them. */
  datatype CacheFaults = CacheFaults(readFails: bool, writeFails: bool, storeFails: bool, lookupFails: bool,
                                     lostDeletes: set<string>)

  const NO_FAULTS := CacheFaults(false, false, false, false, {})

  datatype Step =
    | Get(sku: string)
    | UpdateMetrics(id: nat)
    | NewSupplier(id: nat, supplier: Supplier)
    | NewMapping(mapping: Mapping)
    | NewReceipt(receipt: Receipt)

  function SkusOfSupplier(ms: seq<Mapping>, id: nat): set<string> {
    set m | m in ms && m.supplierId == id :: m.sku
  }

  function Answer(c: Cached, sku: string, f: CacheFaults): Option<Choice> {
    if !f.readFails && sku in c.cache then Some(c.cache[sku]) else Optimal(c.vendors, sku)
  }

  /** The keys a metric update drops. */
  function Dropped(c: Cached, id: nat, f: CacheFaults): set<string> {
    if f.lookupFails then {} else SkusOfSupplier(c.vendors.mappings, id) - f.lostDeletes
  }

  function Apply(c: Cached, s: Step, f: CacheFaults): Cached {
    match s
    case Get(sku) =>
      if (!f.readFails && sku in c.cache) || Optimal(c.vendors, sku).None? || f.writeFails then c
      else c.(cache := c.cache[sku := Optimal(c.vendors, sku).value])
    case UpdateMetrics(id) =>
      if f.storeFails then c else Cached(AfterMetrics(c.vendors, id), c.cache - Dropped(c, id, f))
    case NewSupplier(id, supplier) =>
      if f.storeFails then c else c.(vendors := AfterSupplier(c.vendors, id, supplier))
    case NewMapping(m) =>
      if f.storeFails then c
      else Cached(c.vendors.(mappings := c.vendors.mappings + [m]), c.cache - ({m.sku} - f.lostDeletes))
    case NewReceipt(r) =>
      c.(vendors := c.vendors.(receipts := c.vendors.receipts + [r]))
  }

  ghost predicate Coherent(c: Cached) {
    forall sku :: sku in c.cache ==> Optimal(c.vendors, sku) == Some(c.cache[sku])
  }

  /** Invalidations go through, and a new supplier's id is one no mapping mentions yet. */
  predicate Reliable(c: Cached, s: Step, f: CacheFaults) {
    match s
    case Get(_) => true
    case UpdateMetrics(_) => f.storeFails || (!f.lookupFails && f.lostDeletes == {})
    case NewSupplier(id, _) => forall m :: m in c.vendors.mappings ==> m.supplierId != id
    case NewMapping(_) => f.storeFails || f.lostDeletes == {}
    case NewReceipt(_) => true
  }

  lemma UpdateKeepsCoherent(c: Cached, id: nat, f: CacheFaults)
    requires Coherent(c) && !f.storeFails && !f.lookupFails && f.lostDeletes == {}
    ensures Coherent(Apply(c, UpdateMetrics(id), f))
  {
    var c' := Apply(c, UpdateMetrics(id), f);
    forall sku | sku in c'.cache && id in c.vendors.suppliers
      ensures Optimal(c'.vendors, sku) == Some(c'.cache[sku])
    {
      forall m | m in c.vendors.mappings && m.sku == sku
        ensures m.supplierId != id
      {
        assert sku !in SkusOfSupplier(c.vendors.mappings, id);
      }
      OptimalIgnoresOthers(c.vendors, id, c'.vendors.suppliers[id], sku);
    }
  }

  lemma NewMappingKeepsCoherent(c: Cached, m: Mapping, f: CacheFaults)
    requires Coherent(c) && !f.storeFails && f.lostDeletes == {}
    ensures Coherent(Apply(c, NewMapping(m), f))
  {
    var c' := Apply(c, NewMapping(m), f);
    forall sku | sku in c'.cache
      ensures Optimal(c'.vendors, sku) == Some(c'.cache[sku])
    {
      OfSkuAppend(c.vendors.mappings, m, sku);
      assert sku != m.sku && OfSku(c.vendors.mappings, sku) + [] == OfSku(c.vendors.mappings, sku);
      assert FindBySku(c'.vendors, sku) == FindBySku(c.vendors, sku);
    }
  }

  lemma NewSupplierKeepsCoherent(c: Cached, id: nat, s: Supplier, f: CacheFaults)
    requires Coherent(c) && forall m :: m in c.vendors.mappings ==> m.supplierId != id
    ensures Coherent(Apply(c, NewSupplier(id, s), f))
  {
    var c' := Apply(c, NewSupplier(id, s), f);
    forall sku | sku in c'.cache
      ensures Optimal(c'.vendors, sku) == Some(c'.cache[sku])
    {
      if id !in c.vendors.suppliers {
        OptimalIgnoresOthers(c.vendors, id, s, sku);
      }
    }
  }

  lemma StepKeepsCoherent(c: Cached, s: Step, f: CacheFaults)
    requires Coherent(c) && Reliable(c, s, f)
    ensures Coherent(Apply(c, s, f))
  {
    match s
    case Get(_) =>
    case UpdateMetrics(id) =>
      if !f.storeFails {
        UpdateKeepsCoherent(c, id, f);
      }
    case NewSupplier(id, supplier) =>
      NewSupplierKeepsCoherent(c, id, supplier, f);
    case NewMapping(m) =>
      if !f.storeFails {
        NewMappingKeepsCoherent(c, m, f);
      }
    case NewReceipt(r) =>
      assert forall sku :: FindBySku(Apply(c, s, f).vendors, sku) == FindBySku(c.vendors, sku);
  }

  function Run(c: Cached, steps: seq<(Step, CacheFaults)>): Cached
    decreases |steps|
  {
    if steps == [] then c else Run(Apply(c, steps[0].0, steps[0].1), steps[1..])
  }

  predicate AllReliable(c: Cached, steps: seq<(Step, CacheFaults)>)
    decreases |steps|
  {
    steps == [] ||
    (Reliable(c, steps[0].0, steps[0].1) && AllReliable(Apply(c, steps[0].0, steps[0].1), steps[1..]))
  }

  /** In every such run every read, cached or not, gives what the uncached choice would give. */
  lemma {:induction false} RunAnswersOptimally(c: Cached, steps: seq<(Step, CacheFaults)>, sku: string, f: CacheFaults)
    requires Coherent(c) && AllReliable(c, steps)
    ensures Coherent(Run(c, steps))
    ensures Answer(Run(c, steps), sku, f) == Optimal(Run(c, steps).vendors, sku)
    decreases |steps|
  {
    if steps != [] {
      StepKeepsCoherent(c, steps[0].0, steps[0].1);
      RunAnswersOptimally(Apply(c, steps[0].0, steps[0].1), steps[1..], sku, f);
    }
  }

  // ---------------------------------------------------------------- what the reliability conditions rule out

  /** The winner of a SKU is somebody else's mapping, and each of id's mappings would score below it under record
      s; only behind the winner may it score the same. */
  predicate WinnerStays(v: Vendors, id: nat, s: Supplier, sku: string)
    requires Optimal(v, sku).Some?
  {
    var ms := FindBySku(v, sku);
    var w := Pick(ms, v.suppliers, |ms|).value;
    && ms[w].supplierId != id
    && forall j :: 0 <= j < |ms| && ms[j].supplierId == id ==>
         if j < w then Score(s, ms[j]) < ScoreAt(ms, v.suppliers, w) else Score(s, ms[j]) <= ScoreAt(ms, v.suppliers, w)
  }

  /** Giving supplier id the record s leaves a choice alone exactly when that is the record it had, or the winner
      stays. All of it can be read off before the write. */
  lemma ChoiceStaysIff(v: Vendors, id: nat, s: Supplier, sku: string)
    requires Optimal(v, sku).Some?
    ensures Optimal(v.(suppliers := v.suppliers[id := s]), sku) == Optimal(v, sku)
       <==> (id in v.suppliers && v.suppliers[id] == s) || WinnerStays(v, id, s, sku)
  {
    var ms, after := FindBySku(v, sku), v.suppliers[id := s];
    var w := Pick(ms, v.suppliers, |ms|).value;
    PickIsFirstBest(ms, v.suppliers, w);
    if id in v.suppliers && v.suppliers[id] == s {
      assert after == v.suppliers;
    } else if ms[w].supplierId != id {
      SameWinnerIff(ms, v.suppliers, id, s, w);
      if !WinnerStays(v, id, s, sku) {
        OtherWinnerIsTheirs(ms, v.suppliers, id, s, w);
      }
    }
  }

  lemma SameWinnerIff(ms: seq<Mapping>, suppliers: map<nat, Supplier>, id: nat, s: Supplier, w: nat)
    requires IsFirstBest(ms, suppliers, w) && ms[w].supplierId != id
    ensures Pick(ms, suppliers[id := s], |ms|) == Some(w) <==>
              forall j :: 0 <= j < |ms| && ms[j].supplierId == id ==>
                if j < w then Score(s, ms[j]) < ScoreAt(ms, suppliers, w)
                  else Score(s, ms[j]) <= ScoreAt(ms, suppliers, w)
  {
    var after := suppliers[id := s];
    PickIsFirstBest(ms, after, w);
    assert ScoreAt(ms, after, w) == ScoreAt(ms, suppliers, w);
    forall j | 0 <= j < |ms| && ms[j].supplierId in after
      ensures ScoreAt(ms, after, j) == if ms[j].supplierId == id then Score(s, ms[j]) else ScoreAt(ms, suppliers, j)
    {
    }
  }

  /** If the winner changes, the new one is one of id's mappings. */
  lemma OtherWinnerIsTheirs(ms: seq<Mapping>, suppliers: map<nat, Supplier>, id: nat, s: Supplier, w: nat)
    requires IsFirstBest(ms, suppliers, w) && ms[w].supplierId != id
    requires Pick(ms, suppliers[id := s], |ms|) != Some(w)
    ensures var best := Pick(ms, suppliers[id := s], |ms|);
            best.None? || ms[best.value].supplierId == id
  {
    var after := suppliers[id := s];
    var best := Pick(ms, after, |ms|);
    PickIsFirstBest(ms, after, w);
    if best.Some? {
      PickIsFirstBest(ms, after, best.value);
      assert ScoreAt(ms, after, w) == ScoreAt(ms, suppliers, w);
    }
  }

  /** The record a metric update gives a supplier. */
  function Recomputed(v: Vendors, id: nat): Supplier
    requires id in v.suppliers
  {
    v.suppliers[id].(onTime := OnTimeRate(v.receipts, id), quality := QualityScore(v.receipts, id))
  }

  /** After a metric update the cache is right exactly when, for each cached SKU of the supplier whose key was not
      dropped, the metrics came out as they were or the winner stays. A failed lookup of the SKUs drops none, and is
      reported as success. */
  lemma LostInvalidationIff(c: Cached, id: nat, f: CacheFaults)
    requires Coherent(c) && !f.storeFails && id in c.vendors.suppliers
    ensures Coherent(Apply(c, UpdateMetrics(id), f)) <==>
              forall sku :: sku in c.cache && sku in SkusOfSupplier(c.vendors.mappings, id) - Dropped(c, id, f) ==>
                Recomputed(c.vendors, id) == c.vendors.suppliers[id]
                || WinnerStays(c.vendors, id, Recomputed(c.vendors, id), sku)
  {
    var c', s := Apply(c, UpdateMetrics(id), f), Recomputed(c.vendors, id);
    assert c'.vendors == c.vendors.(suppliers := c.vendors.suppliers[id := s]);
    forall sku | sku in c.cache
      ensures Optimal(c'.vendors, sku) == Optimal(c.vendors, sku)
         <==> s == c.vendors.suppliers[id] || WinnerStays(c.vendors, id, s, sku)
      ensures sku !in SkusOfSupplier(c.vendors.mappings, id) ==> Optimal(c'.vendors, sku) == Optimal(c.vendors, sku)
    {
      ChoiceStaysIff(c.vendors, id, s, sku);
      if sku !in SkusOfSupplier(c.vendors.mappings, id) {
        assert forall m :: m in c.vendors.mappings && m.sku == sku ==> m.supplierId != id;
        OptimalIgnoresOthers(c.vendors, id, s, sku);
      }
    }
  }

  /** Creating a supplier drops nothing: the cache stays right exactly when the winner of every cached SKU stays,
      though mappings may already name the new id. */
  lemma NewSupplierIff(c: Cached, id: nat, s: Supplier, f: CacheFaults)
    requires Coherent(c) && !f.storeFails && id !in c.vendors.suppliers
    ensures Coherent(Apply(c, NewSupplier(id, s), f)) <==>
              forall sku :: sku in c.cache ==> WinnerStays(c.vendors, id, s, sku)
  {
    forall sku | sku in c.cache
      ensures Optimal(AfterSupplier(c.vendors, id, s), sku) == Optimal(c.vendors, sku)
         <==> WinnerStays(c.vendors, id, s, sku)
    {
      ChoiceStaysIff(c.vendors, id, s, sku);
    }
  }

  lemma TwoMappings(v: Vendors, a: Mapping, b: Mapping)
    requires v.mappings == [a, b] && a.sku == b.sku && a.price <= b.price
    ensures FindBySku(v, a.sku) == [a, b]
  {
    assert [a, b][1..] == [b] && [b][1..] == [];
    assert OfSku([b], a.sku) == [b] && OfSku([a, b], a.sku) == [a, b];
    assert ByPrice([b]) == [b];
    assert [b][0].price >= a.price;
    assert InsertByPrice(a, [b]) == [a] + [b];
  }

  /** Two mappings of a SKU, of which the first wins. */
  predicate FirstWins(v: Vendors, a: Mapping, b: Mapping) {
    && v.mappings == [a, b] && a.sku == b.sku && a.price <= b.price
    && a.supplierId in v.suppliers && a.supplierId != b.supplierId
    && Score(v.suppliers[a.supplierId], a) > NO_SCORE
    && (b.supplierId in v.suppliers ==> Score(v.suppliers[b.supplierId], b) <= Score(v.suppliers[a.supplierId], a))
  }

  lemma FirstOfTwo(v: Vendors, a: Mapping, b: Mapping, s: Supplier)
    requires FirstWins(v, a, b)
    ensures Optimal(v, a.sku) == Some(Choice(v.suppliers[a.supplierId], a))
    ensures WinnerStays(v, b.supplierId, s, a.sku) ==> Score(s, b) <= Score(v.suppliers[a.supplierId], a)
  {
    TwoMappings(v, a, b);
    var ms := [a, b];
    PickIsFirstBest(ms, v.suppliers, 0);
    assert ms[1].supplierId == b.supplierId;
  }

  function Caching(v: Vendors, a: Mapping): Cached
    requires a.supplierId in v.suppliers
  {
    Cached(v, map[a.sku := Choice(v.suppliers[a.supplierId], a)])
  }

  /** Both do go wrong: a supplier created late, whose mapping was there before it, overtakes the cached winner. */
  lemma LateSupplierOvertakes(v: Vendors, a: Mapping, b: Mapping, late: Supplier)
    requires FirstWins(v, a, b) && b.supplierId !in v.suppliers
    requires Score(late, b) > Score(v.suppliers[a.supplierId], a)
    ensures Coherent(Caching(v, a)) && !Coherent(Apply(Caching(v, a), NewSupplier(b.supplierId, late), NO_FAULTS))
  {
    var c := Caching(v, a);
    FirstOfTwo(v, a, b, late);
    NewSupplierIff(c, b.supplierId, late, NO_FAULTS);
    assert a.sku in c.cache && !WinnerStays(v, b.supplierId, late, a.sku);
  }

  /** And one whose metrics recover does, when the lookup of its SKUs fails. */
  lemma RecoveredSupplierOvertakes(v: Vendors, a: Mapping, b: Mapping)
    requires FirstWins(v, a, b) && b.supplierId in v.suppliers
    requires Score(Recomputed(v, b.supplierId), b) > Score(v.suppliers[a.supplierId], a)
    ensures Coherent(Caching(v, a))
    ensures !Coherent(Apply(Caching(v, a), UpdateMetrics(b.supplierId), NO_FAULTS.(lookupFails := true)))
  {
    var c, f := Caching(v, a), NO_FAULTS.(lookupFails := true);
    var s := Recomputed(v, b.supplierId);
    FirstOfTwo(v, a, b, s);
    assert [a, b][1] in v.mappings;
    assert a.sku in SkusOfSupplier(v.mappings, b.supplierId) - Dropped(c, b.supplierId, f);
    LostInvalidationIff(c, b.supplierId, f);
    assert a.sku in c.cache && !WinnerStays(v, b.supplierId, s, a.sku);
  }

  class CachedVendorService {
    const base: VendorService
    var cache: map<string, Choice>

    constructor (base: VendorService)
      ensures this.base == base && cache == map[]
    {
      this.base, cache := base, map[];
    }

    ghost function View(): Cached
      reads this, base
    {
      Cached(base.View(), cache)
    }

    method GetOptimalSupplier(sku: string, f: CacheFaults) returns (r: Option<Choice>)
      modifies this
      ensures r == old(Answer(View(), sku, f))
      ensures View() == old(Apply(View(), Get(sku), f))
    {
      if !f.readFails && sku in cache {
        return Some(cache[sku]);
      }
      r := base.GetOptimalSupplier(sku);
      if r.Some? && !f.writeFails {
        cache := cache[sku := r.value];
      }
    }

    method UpdateSupplierMetrics(id: nat, f: CacheFaults) returns (ok: bool)
      modifies this, base
      ensures View() == old(Apply(View(), UpdateMetrics(id), f))
      ensures ok == !f.storeFails
    {
      if f.storeFails {
        return false;
      }
      base.UpdateSupplierMetrics(id);
      ok := true;
      if f.lookupFails {
        return;
      }
      var ms := base.mappings;
      for i := 0 to |ms|
        invariant base.View() == old(AfterMetrics(base.View(), id)) && ms == base.mappings
        invariant cache == old(cache) - (SkusOfSupplier(ms[..i], id) - f.lostDeletes)
      {
        LongerPrefix(ms, i);
        if ms[i].supplierId == id {
          assert SkusOfSupplier(ms[..i + 1], id) == SkusOfSupplier(ms[..i], id) + {ms[i].sku};
          if ms[i].sku !in f.lostDeletes {
            cache := cache - {ms[i].sku};
          }
        } else {
          assert SkusOfSupplier(ms[..i + 1], id) == SkusOfSupplier(ms[..i], id);
        }
      }
      WholePrefix(ms);
    }

    method CreateSupplier(id: nat, s: Supplier, f: CacheFaults) returns (ok: bool)
      modifies this, base
      ensures View() == old(Apply(View(), NewSupplier(id, s), f))
      ensures ok == (!f.storeFails && id !in old(base.suppliers))
    {
      if f.storeFails {
        return false;
      }
      ok := base.CreateSupplier(id, s);
    }

    method CreateSkuMapping(m: Mapping, f: CacheFaults) returns (ok: bool)
      modifies this, base
      ensures View() == old(Apply(View(), NewMapping(m), f))
      ensures ok == !f.storeFails
    {
      if f.storeFails {
        return false;
      }
      base.CreateSkuMapping(m);
      ok := true;
      if m.sku !in f.lostDeletes {
        cache := cache - {m.sku};
      }
    }
  }
}
