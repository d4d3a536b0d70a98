/**
 The bill-of-materials table keeps its constraints over whole runs, so the components of a model are distinct
 parts with positive quantities.
 */
module BomTable {
  import opened BomModel
  import opened BomLaws

  /** (model, part) is unique, deleted rows included, and every quantity is positive. */
  ghost predicate Constrained(rows: seq<Row>) {
    && (forall i :: 0 <= i < |rows| ==> rows[i].qty > 0)
    && forall i, j :: 0 <= i < j < |rows| && rows[i].model == rows[j].model ==> rows[i].part != rows[j].part
  }

  lemma {:induction false} HardDeleteKeepsConstraints(rows: seq<Row>, m: nat)
    requires Constrained(rows)
    ensures Constrained(WithoutModel(rows, m))
    ensures forall r :: r in WithoutModel(rows, m) ==> r in rows
  {
    if rows != [] {
      HardDeleteKeepsConstraints(rows[1..], m);
      var rest := WithoutModel(rows[1..], m);
      forall j | 0 <= j < |rest|
        ensures rows[0].model == rest[j].model ==> rows[0].part != rest[j].part
      {
        assert rest[j] in rows[1..];
      }
    }
  }

  lemma {:induction false} SoftDeleteKeepsRows(rows: seq<Row>, m: nat)
    ensures |SoftDeleted(rows, m)| == |rows|
    ensures forall i :: 0 <= i < |rows| ==> SoftDeleted(rows, m)[i].(deleted := rows[i].deleted) == rows[i]
  {
    if rows != [] {
      SoftDeleteKeepsRows(rows[1..], m);
    }
  }

  lemma {:induction false} InsertKeepsConstraints(rows: seq<Row>, nextId: nat, m: nat, es: seq<NewEntry>)
    requires Constrained(rows) && Insertable(rows, m, es)
    ensures Constrained(Appended(rows, nextId, m, es))
    decreases |es|
  {
    if es != [] {
      var rows' := rows + [Row(nextId, m, es[0].part, es[0].qty, false)];
      forall i, j | 0 <= i < |es[1..]| && 0 <= j < |rows'| && rows'[j].model == m
        ensures rows'[j].part != es[1..][i].part
      {
        assert es[1..][i] == es[i + 1];
      }
      InsertKeepsConstraints(rows', nextId + 1, m, es[1..]);
    }
  }

  lemma ReplaceKeepsConstraints(b: Boms, m: nat, cs: seq<Component>, rejectRepeats: bool, c: Catalogue, f: WriteFaults)
    requires Constrained(b.rows)
    ensures Constrained(AfterReplace(b, m, cs, rejectRepeats, c, f).rows)
  {
    HardDeleteKeepsConstraints(b.rows, m);
    if Replaces(b, m, cs, rejectRepeats, c, f) {
      InsertKeepsConstraints(HardDeleted(b.rows, m), b.nextId, m, Resolve(cs, {}, rejectRepeats, c).value);
    }
  }

  lemma StepKeepsConstraints(b: Boms, s: Step)
    requires Constrained(b.rows)
    ensures Constrained(Apply(b, s).rows)
  {
    match s
    case Create(m, cs, c, f) => ReplaceKeepsConstraints(b, m, cs, true, c, f);
    case Update(m, cs, c, f) => ReplaceKeepsConstraints(b, m, cs, false, c, f);
    case Delete(m, f) => SoftDeleteKeepsRows(b.rows, m);
    case GetModel(_, _) =>
    case GetAll(_) =>
    case GetWhereUsed(_, _) =>
  }

  ghost predicate DistinctComponents(es: seq<Entry>) {
    && (forall i :: 0 <= i < |es| ==> es[i].qty > 0)
    && forall i, j :: 0 <= i < j < |es| ==> es[i].part != es[j].part
  }

  lemma {:induction false} ComponentHasRow(rows: seq<Row>, m: nat, e: Entry) returns (i: nat)
    requires e in OfModel(Live(rows), m)
    ensures i < |rows| && rows[i].model == m && rows[i].part == e.part && rows[i].qty == e.qty
  {
    FirstRowReads(rows, m);
    if e in OfModel(Live(rows[1..]), m) {
      i := ComponentHasRow(rows[1..], m, e);
      i := i + 1;
    } else {
      i := 0;
    }
  }

  lemma {:induction false} ComponentsAreDistinct(rows: seq<Row>, m: nat)
    requires Constrained(rows)
    ensures DistinctComponents(OfModel(Live(rows), m))
  {
    if rows != [] {
      ComponentsAreDistinct(rows[1..], m);
      FirstRowReads(rows, m);
      var rest := OfModel(Live(rows[1..]), m);
      forall j | 0 <= j < |rest|
        ensures rows[0].model == m ==> rest[j].part != rows[0].part
      {
        var i := ComponentHasRow(rows[1..], m, rest[j]);
        assert rows[i + 1].part == rest[j].part;
      }
    }
  }

  /** In every run, whatever fails in it, the table hands out bills of materials without a repeated part. */
  lemma {:induction false} RunHandsOutDistinctComponents(b: Boms, steps: seq<Step>, m: nat)
    requires Constrained(b.rows)
    ensures Constrained(Run(b, steps).rows)
    ensures DistinctComponents(ReadModel(Run(b, steps).rows, m))
    decreases |steps|
  {
    if steps != [] {
      StepKeepsConstraints(b, steps[0]);
      RunHandsOutDistinctComponents(Apply(b, steps[0]), steps[1..], m);
    } else {
      ComponentsAreDistinct(b.rows, m);
    }
  }
}
