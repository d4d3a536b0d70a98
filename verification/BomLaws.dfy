/**
 The cache agrees with the table after every successful write, so an assembly reads back as it was written;
 and where a failed write or a where-used read breaks that, exactly when.
 */
module BomLaws {
  import opened Sequences
  import opened Options
  import opened Text
  import opened BomModel

  // ---------------------------------------------------------------- reads and writes of the table

  lemma {:induction false} LiveAppend(a: seq<Row>, b: seq<Row>)
    ensures Live(a + b) == Live(a) + Live(b)
  {
    if a == [] {
      EmptySums(b);
    } else {
      TailOfSum(a, b);
      LiveAppend(a[1..], b);
    }
  }

  lemma {:induction false} OfModelAppend(a: seq<Entry>, b: seq<Entry>, m: nat)
    ensures OfModel(a + b, m) == OfModel(a, m) + OfModel(b, m)
  {
    if a == [] {
      EmptySums(b);
      EmptySums(OfModel(b, m));
    } else {
      TailOfSum(a, b);
      OfModelAppend(a[1..], b, m);
      Associate(if a[0].model == m then [a[0]] else [], OfModel(a[1..], m), OfModel(b, m));
    }
  }

  lemma {:induction false} OfPartAppend(a: seq<Entry>, b: seq<Entry>, p: nat)
    ensures OfPart(a + b, p) == OfPart(a, p) + OfPart(b, p)
  {
    if a == [] {
      EmptySums(b);
      EmptySums(OfPart(b, p));
    } else {
      TailOfSum(a, b);
      OfPartAppend(a[1..], b, p);
      Associate(if a[0].part == p then [a[0]] else [], OfPart(a[1..], p), OfPart(b, p));
    }
  }

  lemma OfAppend(a: seq<Entry>, b: seq<Entry>, k: nat)
    ensures OfModel(a + b, k) == OfModel(a, k) + OfModel(b, k)
    ensures OfPart(a + b, k) == OfPart(a, k) + OfPart(b, k)
    ensures OfModel(a, k) == [] ==> OfModel(a + b, k) == OfModel(b, k)
    ensures OfPart(a, k) == [] ==> OfPart(a + b, k) == OfPart(b, k)
  {
    OfModelAppend(a, b, k);
    OfPartAppend(a, b, k);
    EmptySums(OfModel(b, k));
    EmptySums(OfPart(b, k));
  }

  lemma {:induction false} InsertAmongOthers(e: Entry, sorted: seq<Entry>, m: nat)
    ensures OfModel(InsertByModel(e, sorted), m) == (if e.model == m then [e] else []) + OfModel(sorted, m)
  {
    if sorted == [] || e.model <= sorted[0].model {
      TailOfSum([e], sorted);
      EmptySums(sorted);
      EmptySums(OfModel(sorted, m));
    } else {
      InsertAmongOthers(e, sorted[1..], m);
      var first, rest := [sorted[0]], InsertByModel(e, sorted[1..]);
      TailOfSum(first, rest);
      EmptySums(rest);
      EmptySums(OfModel(sorted[1..], m));
      EmptySums(OfModel(rest, m));
    }
  }

  /** Ordering the whole table by model keeps each model's entries in id order. */
  lemma {:induction false} OrderingKeepsModels(es: seq<Entry>, m: nat)
    ensures OfModel(ByModelOrder(es), m) == OfModel(es, m)
  {
    if es != [] {
      OrderingKeepsModels(es[1..], m);
      InsertAmongOthers(es[0], ByModelOrder(es[1..]), m);
    }
  }

  lemma LiveRowReads(r: Row, k: nat)
    ensures OfModel(LiveRow(r), k) == if r.model == k then LiveRow(r) else []
    ensures OfPart(LiveRow(r), k) == if r.part == k then LiveRow(r) else []
  {
    assert LiveRow(r) != [] ==> LiveRow(r)[1..] == [];
  }

  lemma FirstRowReads(rows: seq<Row>, m: nat)
    requires rows != []
    ensures OfModel(Live(rows), m)
         == (if rows[0].model == m && !rows[0].deleted then [Entry(rows[0].id, m, rows[0].part, rows[0].qty)] else [])
            + OfModel(Live(rows[1..]), m)
  {
    OfAppend(LiveRow(rows[0]), Live(rows[1..]), m);
    LiveRowReads(rows[0], m);
  }

  lemma {:induction false} HardDeleteReads(rows: seq<Row>, m: nat, k: nat)
    ensures OfModel(Live(WithoutModel(rows, m)), k) == if k == m then [] else OfModel(Live(rows), k)
  {
    if rows != [] {
      HardDeleteReads(rows[1..], m, k);
      OfAppend(LiveRow(rows[0]), Live(rows[1..]), k);
      OfAppend(LiveRow(rows[0]), Live(WithoutModel(rows[1..], m)), k);
      WithoutModelStep(rows, m);
      LiveRowReads(rows[0], k);
    }
  }

  lemma WithoutModelStep(rows: seq<Row>, m: nat)
    requires rows != []
    ensures Live(WithoutModel(rows, m)) ==
              if rows[0].model == m then Live(WithoutModel(rows[1..], m))
              else LiveRow(rows[0]) + Live(WithoutModel(rows[1..], m))
  {
    LiveAppend(if rows[0].model == m then [] else [rows[0]], WithoutModel(rows[1..], m));
    assert rows[0].model != m ==> Live([rows[0]]) == LiveRow(rows[0]);
  }

  lemma {:induction false} SoftDeleteReads(rows: seq<Row>, m: nat)
    ensures Live(SoftDeleted(rows, m)) == Live(WithoutModel(rows, m))
  {
    if rows != [] {
      SoftDeleteReads(rows[1..], m);
      WithoutModelStep(rows, m);
    }
  }

  function Fresh(nextId: nat, m: nat, es: seq<NewEntry>): (r: seq<Entry>)
    ensures |r| == |es|
    decreases |es|
  {
    if es == [] then [] else [Entry(nextId, m, es[0].part, es[0].qty)] + Fresh(nextId + 1, m, es[1..])
  }

  lemma {:induction false} AppendReads(rows: seq<Row>, nextId: nat, m: nat, es: seq<NewEntry>)
    ensures Live(Appended(rows, nextId, m, es)) == Live(rows) + Fresh(nextId, m, es)
    decreases |es|
  {
    if es != [] {
      var row := Row(nextId, m, es[0].part, es[0].qty, false);
      AppendReads(rows + [row], nextId + 1, m, es[1..]);
      LiveAppend(rows, [row]);
      assert Live([row]) == [Entry(nextId, m, es[0].part, es[0].qty)];
    }
  }

  lemma {:induction false} FreshOfModel(nextId: nat, m: nat, es: seq<NewEntry>, k: nat)
    ensures OfModel(Fresh(nextId, m, es), k) == if k == m then Fresh(nextId, m, es) else []
    decreases |es|
  {
    if es != [] {
      FreshOfModel(nextId + 1, m, es[1..], k);
    }
  }

  /** What a replacement leaves for each model: the new entries for its own, the old ones for the rest. */
  lemma ReplacementReads(rows: seq<Row>, nextId: nat, m: nat, es: seq<NewEntry>, k: nat)
    requires m != 0 && k != 0
    ensures ReadModel(Appended(HardDeleted(rows, m), nextId, m, es), k) ==
              if k == m then Fresh(nextId, m, es) else ReadModel(rows, k)
  {
    var cleared := HardDeleted(rows, m);
    AppendReads(cleared, nextId, m, es);
    OfAppend(Live(cleared), Fresh(nextId, m, es), k);
    HardDeleteReads(rows, m, k);
    FreshOfModel(nextId, m, es, k);
  }

  // ---------------------------------------------------------------- cache coherence

  ghost predicate Coherent(b: Boms) {
    && (forall m :: m in b.byModel ==> m != 0 && b.byModel[m] == ReadModel(b.rows, m))
    && (b.all.Some? ==> b.all.value == ReadAll(b.rows))
  }

  datatype Step =
    | Create(model: nat, components: seq<Component>, catalogue: Catalogue, faults: WriteFaults)
    | Update(model: nat, components: seq<Component>, catalogue: Catalogue, faults: WriteFaults)
    | Delete(model: nat, faults: WriteFaults)
    | GetModel(model: nat, readFaults: ReadFaults)
    | GetAll(readFaults: ReadFaults)
    | GetWhereUsed(part: nat, readFaults: ReadFaults)

  function Apply(b: Boms, s: Step): Boms {
    match s
    case Create(m, cs, c, f) => AfterReplace(b, m, cs, true, c, f)
    case Update(m, cs, c, f) => AfterReplace(b, m, cs, false, c, f)
    case Delete(m, f) => AfterRemove(b, m, f)
    case GetModel(m, f) => AfterModelRead(b, m, f)
    case GetAll(f) => AfterAllRead(b, f)
    case GetWhereUsed(p, f) => AfterWhereUsedRead(b, p, f)
  }

  predicate WriteSound(b: Boms, m: nat, cs: seq<Component>, rejectRepeats: bool, c: Catalogue, f: WriteFaults) {
    || !Accepted(m, cs, rejectRepeats, c) || f.deleteFails
    || (Replaces(b, m, cs, rejectRepeats, c, f) && !f.invalidateFails)
  }

  /** A write that deletes the old rows also inserts the new ones and drops the cached reads. */
  predicate Sound(b: Boms, s: Step) {
    match s
    case Create(m, cs, c, f) => WriteSound(b, m, cs, true, c, f)
    case Update(m, cs, c, f) => WriteSound(b, m, cs, false, c, f)
    case Delete(_, f) => !f.invalidateFails
    case _ => true
  }

  lemma ReplaceKeepsCoherent(b: Boms, m: nat, cs: seq<Component>, rejectRepeats: bool, c: Catalogue, f: WriteFaults)
    requires Coherent(b) && WriteSound(b, m, cs, rejectRepeats, c, f)
    ensures Coherent(AfterReplace(b, m, cs, rejectRepeats, c, f))
  {
    if Replaces(b, m, cs, rejectRepeats, c, f) {
      var es := Resolve(cs, {}, rejectRepeats, c).value;
      var b' := AfterReplace(b, m, cs, rejectRepeats, c, f);
      forall k | k in b'.byModel
        ensures k != 0 && b'.byModel[k] == ReadModel(b'.rows, k)
      {
        ReplacementReads(b.rows, b.nextId, m, es, k);
      }
    }
  }

  lemma RemoveKeepsCoherent(b: Boms, m: nat, f: WriteFaults)
    requires Coherent(b) && !f.invalidateFails
    ensures Coherent(AfterRemove(b, m, f))
  {
    if m != 0 && !f.deleteFails {
      forall k | k in b.byModel && k != m
        ensures ReadModel(SoftDeleted(b.rows, m), k) == ReadModel(b.rows, k)
      {
        SoftDeleteReads(b.rows, m);
        HardDeleteReads(b.rows, m, k);
      }
    }
  }

  lemma StepKeepsCoherent(b: Boms, s: Step)
    requires Coherent(b) && Sound(b, s)
    ensures Coherent(Apply(b, s))
  {
    match s
    case Create(m, cs, c, f) => ReplaceKeepsCoherent(b, m, cs, true, c, f);
    case Update(m, cs, c, f) => ReplaceKeepsCoherent(b, m, cs, false, c, f);
    case Delete(m, f) => RemoveKeepsCoherent(b, m, f);
    case GetModel(_, _) =>
    case GetAll(_) =>
    case GetWhereUsed(_, _) =>
  }

  function Run(b: Boms, steps: seq<Step>): Boms
    decreases |steps|
  {
    if steps == [] then b else Run(Apply(b, steps[0]), steps[1..])
  }

  predicate AllSound(b: Boms, steps: seq<Step>)
    decreases |steps|
  {
    steps == [] || (Sound(b, steps[0]) && AllSound(Apply(b, steps[0]), steps[1..]))
  }

  /** In every run of sound writes and any reads, every read by model and of the whole table, cached or not,
      gives what the table holds, unless it misses and the table cannot be read. */
  lemma {:induction false} RunReadsTheTable(b: Boms, steps: seq<Step>, m: nat, f: ReadFaults)
    requires Coherent(b) && AllSound(b, steps)
    ensures Coherent(Run(b, steps))
    ensures ModelAnswer(Run(b, steps), m, f) in {None, Some(ReadModel(Run(b, steps).rows, m))}
    ensures AllAnswer(Run(b, steps), f) in {None, Some(ReadAll(Run(b, steps).rows))}
    ensures !f.loadFails ==> ModelAnswer(Run(b, steps), m, f).Some? && AllAnswer(Run(b, steps), f).Some?
    decreases |steps|
  {
    if steps != [] {
      StepKeepsCoherent(b, steps[0]);
      RunReadsTheTable(Apply(b, steps[0]), steps[1..], m, f);
    }
  }

  // ---------------------------------------------------------------- failed writes

  lemma {:induction false} ResolvedEntries(cs: seq<Component>, seen: set<string>, rejectRepeats: bool, c: Catalogue)
    requires Resolve(cs, seen, rejectRepeats, c).Some?
    ensures var es := Resolve(cs, seen, rejectRepeats, c).value;
            && |es| == |cs|
            && forall i :: 0 <= i < |es| ==>
                 PartId(c, cs[i].sku) == Some(es[i].part) && es[i].part != 0 && es[i].qty == cs[i].qty > 0
    decreases |cs|
  {
    if cs != [] {
      ResolvedEntries(cs[1..], seen + {cs[0].sku}, rejectRepeats, c);
    }
  }

  lemma {:induction false} WithoutModelHasNone(rows: seq<Row>, m: nat)
    ensures forall i :: 0 <= i < |WithoutModel(rows, m)| ==> WithoutModel(rows, m)[i].model != m
  {
    if rows != [] {
      WithoutModelHasNone(rows[1..], m);
    }
  }

  /** Once the old rows are gone, the insert is refused exactly when two components are the same part. An update
      does not look for that beforehand; a creation only compares SKU texts. */
  lemma InsertRefusedIff(rows: seq<Row>, m: nat, cs: seq<Component>, rejectRepeats: bool, c: Catalogue)
    requires Accepted(m, cs, rejectRepeats, c)
    ensures Insertable(HardDeleted(rows, m), m, Resolve(cs, {}, rejectRepeats, c).value) <==>
              forall i, j :: 0 <= i < j < |cs| ==> PartId(c, cs[i].sku) != PartId(c, cs[j].sku)
  {
    ResolvedEntries(cs, {}, rejectRepeats, c);
    WithoutModelHasNone(rows, m);
    var es := Resolve(cs, {}, rejectRepeats, c).value;
    assert forall i :: 0 <= i < |cs| ==> PartId(c, cs[i].sku) == Some(es[i].part);
  }

  lemma {:induction false} OrderingKeepsElements(es: seq<Entry>)
    ensures |ByModelOrder(es)| == |es|
  {
    if es != [] {
      OrderingKeepsElements(es[1..]);
      InsertAddsOne(es[0], ByModelOrder(es[1..]));
    }
  }

  lemma {:induction false} InsertAddsOne(e: Entry, sorted: seq<Entry>)
    ensures |InsertByModel(e, sorted)| == |sorted| + 1
  {
    if sorted == [] || e.model <= sorted[0].model {
    } else {
      InsertAddsOne(e, sorted[1..]);
    }
  }

  lemma {:induction false} ClearingShrinks(rows: seq<Row>, m: nat)
    ensures |Live(WithoutModel(rows, m))| + |OfModel(Live(rows), m)| == |Live(rows)|
    ensures OfModel(Live(rows), m) == [] ==> Live(WithoutModel(rows, m)) == Live(rows)
  {
    if rows != [] {
      ClearingShrinks(rows[1..], m);
      WithoutModelStep(rows, m);
      OfAppend(LiveRow(rows[0]), Live(rows[1..]), m);
    }
  }

  /** A replacement that fails between its two transactions leaves the model empty and drops nothing. The cache
      is then right exactly when the model had no live entries, or neither it nor the whole table was cached. */
  lemma HalfReplacementCoherentIff(b: Boms, m: nat, cs: seq<Component>, rejectRepeats: bool, c: Catalogue,
          f: WriteFaults)
    requires Coherent(b) && Accepted(m, cs, rejectRepeats, c) && !f.deleteFails
    requires !Replaces(b, m, cs, rejectRepeats, c, f)
    ensures Coherent(AfterReplace(b, m, cs, rejectRepeats, c, f)) <==>
              ReadModel(b.rows, m) == [] || (m !in b.byModel && b.all.None?)
    ensures ReadModel(AfterReplace(b, m, cs, rejectRepeats, c, f).rows, m) == []
  {
    var rows' := AfterReplace(b, m, cs, rejectRepeats, c, f).rows;
    HardDeleteReads(b.rows, m, m);
    ClearingShrinks(b.rows, m);
    OrderingKeepsElements(Live(b.rows));
    OrderingKeepsElements(Live(rows'));
    forall k | k != m && k != 0
      ensures ReadModel(rows', k) == ReadModel(b.rows, k)
    {
      HardDeleteReads(b.rows, m, k);
    }
  }

  // ---------------------------------------------------------------- where-used

  predicate WhereUsedRight(b: Boms, p: nat) {
    p in b.whereUsed ==> b.whereUsed[p] == ReadWhereUsed(b.rows, p)
  }

  lemma {:induction false} HardDeletePart(rows: seq<Row>, m: nat, p: nat)
    ensures |OfPart(Live(WithoutModel(rows, m)), p)| + |OfPart(OfModel(Live(rows), m), p)| == |OfPart(Live(rows), p)|
    ensures OfPart(OfModel(Live(rows), m), p) == [] ==> OfPart(Live(WithoutModel(rows, m)), p) == OfPart(Live(rows), p)
  {
    if rows != [] {
      HardDeletePart(rows[1..], m, p);
      WithoutModelStep(rows, m);
      OfAppend(LiveRow(rows[0]), Live(rows[1..]), m);
      OfAppend(LiveRow(rows[0]), Live(rows[1..]), p);
      OfAppend(LiveRow(rows[0]), Live(WithoutModel(rows[1..], m)), p);
      OfAppend(OfModel(LiveRow(rows[0]), m), OfModel(Live(rows[1..]), m), p);
      LiveRowReads(rows[0], m);
    }
  }

  lemma {:induction false} FreshOfPart(nextId: nat, m: nat, es: seq<NewEntry>, p: nat)
    requires forall i :: 0 <= i < |es| ==> es[i].part != p
    ensures OfPart(Fresh(nextId, m, es), p) == []
    decreases |es|
  {
    if es != [] {
      FreshOfPart(nextId + 1, m, es[1..], p);
    }
  }

  /** A successful replacement drops the where-used reads of the parts it introduces, not of those it removes:
      a cached where-used read that was right stays right exactly when the part is in the new bill, or was not
      in the old one. */
  lemma WhereUsedRightIff(b: Boms, m: nat, cs: seq<Component>, rejectRepeats: bool, c: Catalogue, f: WriteFaults,
          p: nat)
    requires Replaces(b, m, cs, rejectRepeats, c, f) && !f.invalidateFails
    requires p != 0 && p in b.whereUsed && WhereUsedRight(b, p)
    ensures WhereUsedRight(AfterReplace(b, m, cs, rejectRepeats, c, f), p) <==>
              p in Parts(Resolve(cs, {}, rejectRepeats, c).value) || OfPart(ReadModel(b.rows, m), p) == []
  {
    var es := Resolve(cs, {}, rejectRepeats, c).value;
    if p !in Parts(es) {
      var cleared := HardDeleted(b.rows, m);
      forall i | 0 <= i < |es|
        ensures es[i].part != p
      {
        assert es[i] in es;
      }
      AppendReads(cleared, b.nextId, m, es);
      OfAppend(Live(cleared), Fresh(b.nextId, m, es), p);
      FreshOfPart(b.nextId, m, es, p);
      HardDeletePart(b.rows, m, p);
    }
  }

  // ---------------------------------------------------------------- assemblies

  lemma {:induction false} NamesSound(es: seq<Entry>, c: Catalogue)
    ensures forall k :: k in Names(es, c) <==> exists i :: 0 <= i < |es| && Name(es[i], c) == k
    ensures forall i, j :: 0 <= i < j < |Names(es, c)| ==> Names(es, c)[i] != Names(es, c)[j]
  {
    if es != [] {
      var before := es[..|es| - 1];
      NamesSound(before, c);
      assert forall i :: 0 <= i < |es| - 1 ==> es[i] == before[i];
      forall k
        ensures k in Names(es, c) <==> exists i :: 0 <= i < |es| && Name(es[i], c) == k
      {
        if k in Names(before, c) {
          var i :| 0 <= i < |before| && Name(before[i], c) == k;
          assert Name(es[i], c) == k;
        }
      }
    }
  }

  lemma {:induction false} NeededAppend(a: seq<Entry>, e: Entry, c: Catalogue, sku: string)
    ensures Needed(a + [e], c, sku) == Needed(a, c, sku) + (if Name(e, c) == sku then e.qty else 0)
  {
    if a == [] {
      assert a + [e] == [e];
    } else {
      TailOfSum(a, [e]);
      NeededAppend(a[1..], e, c, sku);
    }
  }

  /** The catalogue reads a part back under the text it was found by. */
  predicate ReadsBack(c: Catalogue, sku: string) {
    PartId(c, sku).Some? ==> SkuOf(c, PartId(c, sku).value) == Some(Trim(sku))
  }

  lemma {:induction false} FreshEntries(nextId: nat, m: nat, es: seq<NewEntry>)
    ensures forall i :: 0 <= i < |es| ==> Fresh(nextId, m, es)[i] == Entry(nextId + i, m, es[i].part, es[i].qty)
    decreases |es|
  {
    if es != [] {
      FreshEntries(nextId + 1, m, es[1..]);
    }
  }

  lemma DistinctNames(es: seq<Entry>, c: Catalogue)
    requires forall i, j :: 0 <= i < j < |es| ==> Name(es[i], c) != Name(es[j], c)
    ensures |Names(es, c)| == |es|
    ensures forall i :: 0 <= i < |es| ==>
              Names(es, c)[i] == Name(es[i], c) && Needed(es, c, Name(es[i], c)) == es[i].qty
  {
    AllNamed(es, c);
    forall i | 0 <= i < |es|
      ensures Needed(es, c, Name(es[i], c)) == es[i].qty
    {
      NeededOfOne(es, c, i);
    }
  }

  lemma {:induction false} AllNamed(es: seq<Entry>, c: Catalogue)
    requires forall i, j :: 0 <= i < j < |es| ==> Name(es[i], c) != Name(es[j], c)
    ensures |Names(es, c)| == |es| && forall i :: 0 <= i < |es| ==> Names(es, c)[i] == Name(es[i], c)
  {
    if es != [] {
      var before := es[..|es| - 1];
      AllNamed(before, c);
      NamesSound(before, c);
    }
  }

  lemma {:induction false} NeededOfOne(es: seq<Entry>, c: Catalogue, i: nat)
    requires forall i, j :: 0 <= i < j < |es| ==> Name(es[i], c) != Name(es[j], c)
    requires i < |es|
    ensures Needed(es, c, Name(es[i], c)) == es[i].qty
  {
    assert forall j :: 0 <= j < |es[1..]| ==> es[1..][j] == es[j + 1];
    if i == 0 {
      NeededAbsent(es[1..], c, Name(es[0], c));
    } else {
      NeededOfOne(es[1..], c, i - 1);
    }
  }

  lemma {:induction false} NeededAbsent(es: seq<Entry>, c: Catalogue, sku: string)
    requires forall i :: 0 <= i < |es| ==> Name(es[i], c) != sku
    ensures Needed(es, c, sku) == 0
  {
    if es != [] {
      NeededAbsent(es[1..], c, sku);
    }
  }

  /** The text under which a requested component is read back: that of the part it was resolved to. */
  function Shown(sku: string, c: Catalogue, reading: Catalogue): string {
    var part := PartId(c, sku);
    if part.Some? && SkuOf(reading, part.value).Some? then SkuOf(reading, part.value).value else []
  }

  /** The texts of a request's components, each once, in order of first appearance. */
  function FirstShown(cs: seq<Component>, c: Catalogue, reading: Catalogue): seq<string> {
    if cs == [] then []
    else
      var before, k := FirstShown(cs[..|cs| - 1], c, reading), Shown(cs[|cs| - 1].sku, c, reading);
      if k in before then before else before + [k]
  }

  /** What a request asks for under one text, over all its components. */
  function Requested(cs: seq<Component>, c: Catalogue, reading: Catalogue, sku: string): int {
    if cs == [] then 0
    else (if Shown(cs[0].sku, c, reading) == sku then cs[0].qty else 0) + Requested(cs[1..], c, reading, sku)
  }

  /** es holds the request's components one for one. */
  ghost predicate Holds(es: seq<Entry>, cs: seq<Component>, c: Catalogue, reading: Catalogue) {
    && |es| == |cs|
    && forall i :: 0 <= i < |es| ==> Name(es[i], reading) == Shown(cs[i].sku, c, reading) && es[i].qty == cs[i].qty
  }

  lemma {:induction false} HeldNames(es: seq<Entry>, cs: seq<Component>, c: Catalogue, reading: Catalogue)
    requires Holds(es, cs, c, reading)
    ensures Names(es, reading) == FirstShown(cs, c, reading)
  {
    if es != [] {
      HeldNames(es[..|es| - 1], cs[..|cs| - 1], c, reading);
    }
  }

  lemma {:induction false} HeldQuantities(es: seq<Entry>, cs: seq<Component>, c: Catalogue, reading: Catalogue,
          sku: string)
    requires Holds(es, cs, c, reading)
    ensures Needed(es, reading, sku) == Requested(cs, c, reading, sku)
  {
    if es != [] {
      HeldQuantities(es[1..], cs[1..], c, reading, sku);
    }
  }

  predicate WritesModel(s: Step, m: nat) {
    match s
    case Create(model, _, _, _) => model == m
    case Update(model, _, _, _) => model == m
    case Delete(model, _) => model == m
    case _ => false
  }

  lemma ReplaceKeepsOthers(b: Boms, model: nat, cs: seq<Component>, rejectRepeats: bool, c: Catalogue, f: WriteFaults,
          m: nat)
    requires model != m
    ensures ReadModel(AfterReplace(b, model, cs, rejectRepeats, c, f).rows, m) == ReadModel(b.rows, m)
  {
    HardDeleteReads(b.rows, model, m);
    if m != 0 && Replaces(b, model, cs, rejectRepeats, c, f) {
      ReplacementReads(b.rows, b.nextId, model, Resolve(cs, {}, rejectRepeats, c).value, m);
    }
  }

  lemma StepKeepsOthers(b: Boms, s: Step, m: nat)
    requires !WritesModel(s, m)
    ensures ReadModel(Apply(b, s).rows, m) == ReadModel(b.rows, m)
  {
    match s
    case Create(model, cs, c, f) => ReplaceKeepsOthers(b, model, cs, true, c, f, m);
    case Update(model, cs, c, f) => ReplaceKeepsOthers(b, model, cs, false, c, f, m);
    case Delete(model, f) =>
      SoftDeleteReads(b.rows, model);
      HardDeleteReads(b.rows, model, m);
    case _ =>
  }

  lemma {:induction false} RunKeepsOthers(b: Boms, steps: seq<Step>, m: nat)
    requires forall s :: s in steps ==> !WritesModel(s, m)
    ensures ReadModel(Run(b, steps).rows, m) == ReadModel(b.rows, m)
    decreases |steps|
  {
    if steps != [] {
      StepKeepsOthers(b, steps[0], m);
      RunKeepsOthers(Apply(b, steps[0]), steps[1..], m);
    }
  }

  lemma WrittenIsHeld(b: Boms, m: nat, cs: seq<Component>, rejectRepeats: bool, c: Catalogue, f: WriteFaults,
          reading: Catalogue)
    requires Replaces(b, m, cs, rejectRepeats, c, f)
    ensures Holds(ReadModel(AfterReplace(b, m, cs, rejectRepeats, c, f).rows, m), cs, c, reading)
  {
    var ns := Resolve(cs, {}, rejectRepeats, c).value;
    ReplacementReads(b.rows, b.nextId, m, ns, m);
    ResolvedEntries(cs, {}, rejectRepeats, c);
    FreshEntries(b.nextId, m, ns);
  }

  /** The last assembly written is read back in every run that does not write its model again, cached or not: one
      component for each text its parts now have, in order of first appearance, with the quantities of parts that
      share a text added up. */
  lemma AssemblyReadsBack(b: Boms, m: nat, cs: seq<Component>, rejectRepeats: bool, c: Catalogue, f: WriteFaults,
          steps: seq<Step>, rf: ReadFaults, reading: Catalogue)
    requires Coherent(b) && Replaces(b, m, cs, rejectRepeats, c, f) && !f.invalidateFails && !rf.loadFails
    requires AllSound(AfterReplace(b, m, cs, rejectRepeats, c, f), steps)
    requires forall s :: s in steps ==> !WritesModel(s, m)
    ensures var es := ModelAnswer(Run(AfterReplace(b, m, cs, rejectRepeats, c, f), steps), m, rf);
            && es.Some?
            && |Assembled(es.value, reading)| == |FirstShown(cs, c, reading)|
            && forall i :: 0 <= i < |FirstShown(cs, c, reading)| ==>
                 Assembled(es.value, reading)[i] == Component(FirstShown(cs, c, reading)[i],
                                                              Requested(cs, c, reading, FirstShown(cs, c, reading)[i]))
  {
    var b' := AfterReplace(b, m, cs, rejectRepeats, c, f);
    ReplaceKeepsCoherent(b, m, cs, rejectRepeats, c, f);
    RunReadsTheTable(b', steps, m, rf);
    RunKeepsOthers(b', steps, m);
    WrittenIsHeld(b, m, cs, rejectRepeats, c, f, reading);
    var es := ReadModel(b'.rows, m);
    HeldNames(es, cs, c, reading);
    forall k {
      HeldQuantities(es, cs, c, reading, k);
    }
  }

  /** With a catalogue that reads parts back under the texts they were found by, nothing is merged: the components
      come back as written, trimmed. */
  lemma ReadsBackAsWritten(b: Boms, m: nat, cs: seq<Component>, rejectRepeats: bool, c: Catalogue, f: WriteFaults,
          i: nat)
    requires Replaces(b, m, cs, rejectRepeats, c, f) && i < |cs|
    requires forall j :: 0 <= j < |cs| ==> ReadsBack(c, cs[j].sku)
    ensures |FirstShown(cs, c, c)| == |cs| && FirstShown(cs, c, c)[i] == Trim(cs[i].sku)
    ensures Requested(cs, c, c, Trim(cs[i].sku)) == cs[i].qty
  {
    var ns := Resolve(cs, {}, rejectRepeats, c).value;
    var es := Fresh(b.nextId, m, ns);
    ResolvedEntries(cs, {}, rejectRepeats, c);
    FreshEntries(b.nextId, m, ns);
    forall j | 0 <= j < |es|
      ensures Name(es[j], c) == Trim(cs[j].sku) == Shown(cs[j].sku, c, c)
    {
      assert PartId(c, cs[j].sku) == Some(ns[j].part);
    }
    forall j, k | 0 <= j < k < |es|
      ensures Name(es[j], c) != Name(es[k], c)
    {
      assert ns[j].part != ns[k].part;
      assert c.partOf[Trim(cs[j].sku)] == ns[j].part && c.partOf[Trim(cs[k].sku)] == ns[k].part;
    }
    DistinctNames(es, c);
    HeldNames(es, cs, c, c);
    HeldQuantities(es, cs, c, c, Trim(cs[i].sku));
  }

  /** Grouping the whole table gives each model the assembly its own read gives. */
  lemma GroupsAgreeWithModels(rows: seq<Row>, m: nat, c: Catalogue)
    requires m != 0
    ensures Assembled(OfModel(ReadAll(rows), m), c) == Assembled(ReadModel(rows, m), c)
  {
    OrderingKeepsModels(Live(rows), m);
  }
}
