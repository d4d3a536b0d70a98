/**
 What the catalogue calls answer, which rows they leave, and what reads of the table hold, row by row.
 */
module BomAnswers {
  import opened Sequences
  import opened Options
  import opened Text
  import opened BomModel
  import opened BomLaws

  // ---------------------------------------------------------------- requests

  /** The part a SKU text stands for: the catalogue's, which has to be a part, for the trimmed and not empty text. */
  predicate StandsFor(c: Catalogue, sku: string, part: nat) {
    Trim(sku) != [] && Trim(sku) in c.partOf && c.partOf[Trim(sku)] == part && part != 0
  }

  /** And the text a part is shown under, if the catalogue has one for it that is not empty. */
  lemma SkuOfIff(c: Catalogue, part: nat, sku: string)
    ensures SkuOf(c, part) == Some(sku) <==> part != 0 && part in c.skuOf && c.skuOf[part] == sku && Trim(sku) != []
  {
  }

  lemma ResolvableIff(es: seq<Entry>, c: Catalogue)
    ensures Resolvable(es, c) <==> forall e :: e in es ==> SkuOf(c, e.part).Some?
  {
    if Resolvable(es, c) {
      forall e | e in es
        ensures SkuOf(c, e.part).Some?
      {
        var i :| 0 <= i < |es| && es[i] == e;
      }
    } else {
      var i :| 0 <= i < |es| && SkuOf(c, es[i].part).None?;
      assert es[i] in es;
    }
  }

  predicate Known(c: Catalogue, sku: string) {
    Trim(sku) in c.partOf && StandsFor(c, sku, c.partOf[Trim(sku)])
  }

  lemma PartIdIff(c: Catalogue, sku: string, part: nat)
    ensures PartId(c, sku) == Some(part) <==> StandsFor(c, sku, part)
    ensures PartId(c, sku).Some? <==> Known(c, sku)
  {
  }

  /** No text was seen before or is given twice. */
  predicate Apart(cs: seq<Component>, seen: set<string>) {
    && (forall i :: 0 <= i < |cs| ==> cs[i].sku !in seen)
    && forall i, j :: 0 <= i < j < |cs| ==> cs[i].sku != cs[j].sku
  }

  /** Every quantity is positive, every SKU known, and, where repeats are looked for, no text is given twice. */
  predicate Resolves(cs: seq<Component>, seen: set<string>, rejectRepeats: bool, c: Catalogue) {
    && (forall i :: 0 <= i < |cs| ==> cs[i].qty > 0 && Known(c, cs[i].sku))
    && (rejectRepeats ==> Apart(cs, seen))
  }

  /** A request resolves exactly then, component by component to the part and the quantity. */
  lemma {:induction false} ResolveAnswers(cs: seq<Component>, seen: set<string>, rejectRepeats: bool, c: Catalogue)
    ensures Resolve(cs, seen, rejectRepeats, c).Some? <==> Resolves(cs, seen, rejectRepeats, c)
    ensures Resolve(cs, seen, rejectRepeats, c).Some? ==>
              var es := Resolve(cs, seen, rejectRepeats, c).value;
              && |es| == |cs|
              && forall i :: 0 <= i < |cs| ==> StandsFor(c, cs[i].sku, es[i].part) && es[i].qty == cs[i].qty
    decreases |cs|
  {
    if cs != [] {
      var seen' := seen + {cs[0].sku};
      ResolveAnswers(cs[1..], seen', rejectRepeats, c);
      PartIdIff(c, cs[0].sku, if PartId(c, cs[0].sku).Some? then PartId(c, cs[0].sku).value else 0);
      assert forall i :: 0 < i < |cs| ==> cs[i] == cs[1..][i - 1];
      if rejectRepeats {
        ApartFromFirst(cs, seen);
      }
    }
  }

  lemma ApartFromFirst(cs: seq<Component>, seen: set<string>)
    requires cs != []
    ensures Apart(cs, seen) <==> cs[0].sku !in seen && Apart(cs[1..], seen + {cs[0].sku})
  {
    var rest := cs[1..];
    assert forall i :: 0 <= i < |rest| ==> rest[i] == cs[i + 1];
    if Apart(cs, seen) {
      forall i | 0 <= i < |rest|
        ensures rest[i].sku !in seen + {cs[0].sku}
      {
        assert cs[i + 1].sku !in seen && cs[0].sku != cs[i + 1].sku;
      }
    }
    if cs[0].sku !in seen && Apart(rest, seen + {cs[0].sku}) {
      forall i | 0 <= i < |cs|
        ensures cs[i].sku !in seen && (i > 0 ==> cs[i].sku != cs[0].sku)
      {
        if i > 0 {
          assert rest[i - 1].sku !in seen + {cs[0].sku};
        }
      }
      forall i, j | 0 <= i < j < |cs|
        ensures cs[i].sku != cs[j].sku
      {
        if i > 0 {
          assert rest[i - 1].sku != rest[j - 1].sku;
        }
      }
    }
  }

  // ---------------------------------------------------------------- rows

  /** New rows come last, in the order of the entries, with the next ids. */
  lemma {:induction false} AppendedRows(rows: seq<Row>, nextId: nat, m: nat, es: seq<NewEntry>)
    ensures |Appended(rows, nextId, m, es)| == |rows| + |es|
    ensures forall i :: 0 <= i < |rows| ==> Appended(rows, nextId, m, es)[i] == rows[i]
    ensures forall i :: 0 <= i < |es| ==>
              Appended(rows, nextId, m, es)[|rows| + i] == Row(nextId + i, m, es[i].part, es[i].qty, false)
    decreases |es|
  {
    if es != [] {
      var row := Row(nextId, m, es[0].part, es[0].qty, false);
      AppendedRows(rows + [row], nextId + 1, m, es[1..]);
      var after := Appended(rows, nextId, m, es);
      forall i | 0 <= i < |es|
        ensures after[|rows| + i] == Row(nextId + i, m, es[i].part, es[i].qty, false)
      {
        assert i > 0 ==> after[|rows + [row]| + (i - 1)] == Row(nextId + 1 + (i - 1), m, es[i].part, es[i].qty, false);
        assert i == 0 ==> after[|rows|] == (rows + [row])[|rows|];
      }
    }
  }

  /** A hard delete drops the rows of its model, deleted ones too, and keeps the others in their order. */
  lemma {:induction false} WithoutModelAppend(rows: seq<Row>, r: Row, m: nat)
    ensures WithoutModel([], m) == []
    ensures WithoutModel(rows + [r], m) == WithoutModel(rows, m) + (if r.model == m then [] else [r])
  {
    if rows == [] {
      EmptySums([r]);
    } else {
      TailOfSum(rows, [r]);
      WithoutModelAppend(rows[1..], r, m);
      Associate(if rows[0].model == m then [] else [rows[0]], WithoutModel(rows[1..], m),
                if r.model == m then [] else [r]);
    }
  }

  /** A soft delete marks the rows of its model, row by row, and nothing else. */
  lemma {:induction false} SoftDeletedRows(rows: seq<Row>, m: nat)
    ensures |SoftDeleted(rows, m)| == |rows|
    ensures forall i :: 0 <= i < |rows| ==>
              var r := rows[i];
              SoftDeleted(rows, m)[i] == Row(r.id, r.model, r.part, r.qty, r.deleted || r.model == m)
  {
    if rows != [] {
      SoftDeletedRows(rows[1..], m);
      assert forall i :: 0 < i < |rows| ==> rows[i] == rows[1..][i - 1];
    }
  }

  // ---------------------------------------------------------------- reads

  lemma {:induction false} OneMoreRow(rows: seq<Row>, r: Row)
    ensures Live([]) == []
    ensures Live(rows + [r]) == Live(rows) + (if r.deleted then [] else [Entry(r.id, r.model, r.part, r.qty)])
  {
    LiveAppend(rows, [r]);
    assert [r][1..] == [] && Live([r]) == LiveRow(r) + Live([]);
    EmptySums(LiveRow(r));
  }

  /** A read of a model follows the rows: one more row adds its entry at the end if it is the model's and not
      deleted. */
  lemma ModelReadFollowsRows(rows: seq<Row>, r: Row, m: nat)
    requires m != 0
    ensures ReadModel([], m) == [] && ReadModel(rows, 0) == []
    ensures ReadModel(rows + [r], m)
         == ReadModel(rows, m)
            + (if r.model == m && !r.deleted then [Entry(r.id, r.model, r.part, r.qty)] else [])
  {
    OneMoreRow(rows, r);
    OfAppend(Live(rows), LiveRow(r), m);
    LiveRowReads(r, m);
  }

  /** So does a read of where a part is used. */
  lemma WhereUsedReadFollowsRows(rows: seq<Row>, r: Row, p: nat)
    requires p != 0
    ensures ReadWhereUsed([], p) == [] && ReadWhereUsed(rows, 0) == []
    ensures ReadWhereUsed(rows + [r], p)
         == ReadWhereUsed(rows, p)
            + (if r.part == p && !r.deleted then [Entry(r.id, r.model, r.part, r.qty)] else [])
  {
    OneMoreRow(rows, r);
    OfAppend(Live(rows), LiveRow(r), p);
    LiveRowReads(r, p);
  }

  lemma {:induction false} InsertHolds(e: Entry, sorted: seq<Entry>, x: Entry)
    ensures x in InsertByModel(e, sorted) <==> x in sorted || x == e
  {
    if sorted != [] && e.model > sorted[0].model {
      InsertHolds(e, sorted[1..], x);
      assert sorted == [sorted[0]] + sorted[1..];
    }
  }

  ghost predicate AscendingModels(es: seq<Entry>) {
    forall i, j :: 0 <= i < j < |es| ==> es[i].model <= es[j].model
  }

  lemma {:induction false} InsertAscends(e: Entry, sorted: seq<Entry>)
    requires AscendingModels(sorted)
    ensures AscendingModels(InsertByModel(e, sorted))
  {
    if sorted != [] && e.model > sorted[0].model {
      InsertAscends(e, sorted[1..]);
      var rest := InsertByModel(e, sorted[1..]);
      forall j | 0 <= j < |rest|
        ensures sorted[0].model <= rest[j].model
      {
        assert rest[j] in rest;
        InsertHolds(e, sorted[1..], rest[j]);
      }
    }
  }

  lemma {:induction false} OrderingHolds(es: seq<Entry>, x: Entry)
    ensures x in ByModelOrder(es) <==> x in es
  {
    if es != [] {
      OrderingHolds(es[1..], x);
      InsertHolds(es[0], ByModelOrder(es[1..]), x);
      assert es == [es[0]] + es[1..];
    }
  }

  /** A read of the whole table holds the live entries, model after model. */
  lemma {:induction false} TableReadAscends(es: seq<Entry>)
    ensures |ByModelOrder(es)| == |es| && AscendingModels(ByModelOrder(es))
    ensures forall x :: x in ByModelOrder(es) <==> x in es
  {
    OrderingKeepsElements(es);
    forall x: Entry {
      OrderingHolds(es, x);
    }
    if es != [] {
      TableReadAscends(es[1..]);
      InsertAscends(es[0], ByModelOrder(es[1..]));
    }
  }

  // ---------------------------------------------------------------- order of appearance

  /** The names come in the order in which they first appear. */
  lemma {:induction false} NamesInOrder(es: seq<Entry>, c: Catalogue, i: nat, j: nat)
    requires i < j < |Names(es, c)|
    ensures exists a :: 0 <= a < |es| && Name(es[a], c) == Names(es, c)[i]
                        && forall b :: 0 <= b <= a ==> Name(es[b], c) != Names(es, c)[j]
  {
    var before := es[..|es| - 1];
    NamesSound(before, c);
    if j < |Names(before, c)| {
      NamesInOrder(before, c, i, j);
      var a :| 0 <= a < |before| && Name(before[a], c) == Names(before, c)[i]
               && forall b :: 0 <= b <= a ==> Name(before[b], c) != Names(before, c)[j];
      assert forall b :: 0 <= b <= a ==> es[b] == before[b];
    } else {
      assert Names(before, c)[i] in Names(before, c);
      var a :| 0 <= a < |before| && Name(before[a], c) == Names(before, c)[i];
      assert forall b :: 0 <= b < |before| ==> es[b] == before[b];
    }
  }

  lemma {:induction false} ModelsSound(es: seq<Entry>)
    ensures forall m :: m in Models(es) <==> exists i :: 0 <= i < |es| && es[i].model == m
    ensures forall i, j :: 0 <= i < j < |Models(es)| ==> Models(es)[i] != Models(es)[j]
  {
    if es != [] {
      var before := es[..|es| - 1];
      ModelsSound(before);
      assert forall i :: 0 <= i < |es| - 1 ==> es[i] == before[i];
      forall m
        ensures m in Models(es) <==> exists i :: 0 <= i < |es| && es[i].model == m
      {
        if m in Models(before) {
          var i :| 0 <= i < |before| && before[i].model == m;
          assert es[i].model == m;
        }
      }
    }
  }

  /** And so do the models. */
  lemma {:induction false} ModelsInOrder(es: seq<Entry>, i: nat, j: nat)
    requires i < j < |Models(es)|
    ensures exists a :: 0 <= a < |es| && es[a].model == Models(es)[i]
                        && forall b :: 0 <= b <= a ==> es[b].model != Models(es)[j]
  {
    var before := es[..|es| - 1];
    ModelsSound(before);
    if j < |Models(before)| {
      ModelsInOrder(before, i, j);
      var a :| 0 <= a < |before| && before[a].model == Models(before)[i]
               && forall b :: 0 <= b <= a ==> before[b].model != Models(before)[j];
      assert forall b :: 0 <= b <= a ==> es[b] == before[b];
    } else {
      assert Models(before)[i] in Models(before);
      var a :| 0 <= a < |before| && before[a].model == Models(before)[i];
      assert forall b :: 0 <= b < |before| ==> es[b] == before[b];
    }
  }

  // ---------------------------------------------------------------- calls

  /** The insert of these entries is accepted: all quantities positive, no part twice, and none the model still has. */
  predicate Fits(rows: seq<Row>, m: nat, es: seq<NewEntry>) {
    && (forall i :: 0 <= i < |es| ==> es[i].qty > 0)
    && (forall i, j :: 0 <= i < j < |es| ==> es[i].part != es[j].part)
    && forall r, e :: r in rows && e in es && r.model == m ==> r.part != e.part
  }

  lemma FitsIff(rows: seq<Row>, m: nat, es: seq<NewEntry>)
    ensures Insertable(rows, m, es) <==> Fits(rows, m, es)
  {
    if Fits(rows, m, es) {
      forall i, j | 0 <= i < |es| && 0 <= j < |rows| && rows[j].model == m
        ensures rows[j].part != es[i].part
      {
        assert rows[j] in rows && es[i] in es;
      }
    }
  }

  /** A write of an assembly is refused exactly for the nil model or a request that does not resolve. Otherwise it first
      drops the model's rows, then inserts the new ones, then drops the cached reads of the whole table, the model and
      the parts it names; it goes through if the first two work and the entries fit, and answers so if the part service
      was told as well. */
  lemma ReplaceAnswers(b: Boms, m: nat, cs: seq<Component>, rejectRepeats: bool, c: Catalogue, f: WriteFaults)
    ensures ReplaceOutcome(b, m, cs, rejectRepeats, c, f) == Refused
       <==> m == 0 || !Resolves(cs, {}, rejectRepeats, c)
    ensures ReplaceOutcome(b, m, cs, rejectRepeats, c, f) in {Ok, Refused, Failed}
    ensures var b' := AfterReplace(b, m, cs, rejectRepeats, c, f);
            if m == 0 || !Resolves(cs, {}, rejectRepeats, c) || f.deleteFails then
              b' == b && ReplaceOutcome(b, m, cs, rejectRepeats, c, f) != Ok
            else
              var es, kept := Resolve(cs, {}, rejectRepeats, c).value, WithoutModel(b.rows, m);
              if f.insertFails || !Fits(kept, m, es) then
                b' == b.(rows := kept) && ReplaceOutcome(b, m, cs, rejectRepeats, c, f) == Failed
              else
                && b'.rows == Appended(kept, b.nextId, m, es) && b'.nextId == b.nextId + |es|
                && (ReplaceOutcome(b, m, cs, rejectRepeats, c, f) == Ok <==> !f.syncFails)
                && Dropped(b, b', m, set e | e in es && e.part != 0 :: e.part, f.invalidateFails)
  {
    ResolveAnswers(cs, {}, rejectRepeats, c);
    if m != 0 && Resolves(cs, {}, rejectRepeats, c) {
      FitsIff(WithoutModel(b.rows, m), m, Resolve(cs, {}, rejectRepeats, c).value);
    }
  }

  /** The cached reads that an invalidation drops, together or not at all. */
  ghost predicate Dropped(b: Boms, b': Boms, m: nat, parts: set<nat>, fails: bool) {
    if fails then b'.all == b.all && b'.byModel == b.byModel && b'.whereUsed == b.whereUsed
    else
      && b'.all == None
      && (forall k :: k in b'.byModel <==> k in b.byModel && k != m)
      && (forall k :: k in b'.byModel ==> b'.byModel[k] == b.byModel[k])
      && (forall p :: p in b'.whereUsed <==> p in b.whereUsed && p !in parts)
      && (forall p :: p in b'.whereUsed ==> b'.whereUsed[p] == b.whereUsed[p])
  }

  /** A removal marks the model's rows and drops the reads of the whole table and the model, not those of its parts. */
  lemma RemoveAnswers(b: Boms, m: nat, f: WriteFaults)
    ensures var b' := AfterRemove(b, m, f);
            if m == 0 || f.deleteFails then b' == b
            else b'.rows == SoftDeleted(b.rows, m) && b'.nextId == b.nextId && Dropped(b, b', m, {}, f.invalidateFails)
  {
  }

  /** A read answers from the cache if it can be read and has the key, from the table if that can be read, and not at
      all otherwise; only an answer from the table is kept, if keeping it works. Nil keys are answered with nothing. */
  lemma ReadAnswers(b: Boms, k: nat, f: ReadFaults)
    requires k != 0
    ensures ModelAnswer(b, k, f) == (if !f.readFails && k in b.byModel then Some(b.byModel[k])
                                     else if f.loadFails then None else Some(ReadModel(b.rows, k)))
    ensures AfterModelRead(b, k, f)
         == if !(!f.readFails && k in b.byModel) && !f.loadFails && !f.fillFails
            then b.(byModel := b.byModel[k := ReadModel(b.rows, k)]) else b
    ensures WhereUsedAnswer(b, k, f) == (if !f.readFails && k in b.whereUsed then Some(b.whereUsed[k])
                                         else if f.loadFails then None else Some(ReadWhereUsed(b.rows, k)))
    ensures AfterWhereUsedRead(b, k, f)
         == if !(!f.readFails && k in b.whereUsed) && !f.loadFails && !f.fillFails
            then b.(whereUsed := b.whereUsed[k := ReadWhereUsed(b.rows, k)]) else b
    ensures AllAnswer(b, f) == (if !f.readFails && b.all.Some? then b.all
                                else if f.loadFails then None else Some(ByModelOrder(Live(b.rows))))
    ensures AfterAllRead(b, f)
         == if !(!f.readFails && b.all.Some?) && !f.loadFails && !f.fillFails
            then b.(all := Some(ByModelOrder(Live(b.rows)))) else b
    ensures ModelAnswer(b, 0, f) == WhereUsedAnswer(b, 0, f) == Some([])
    ensures AfterModelRead(b, 0, f) == AfterWhereUsedRead(b, 0, f) == b
  {
  }
}
