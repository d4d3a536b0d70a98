/**
 The bill-of-materials table, its read-through cache, and the assemblies read out of it. Model 0 is the empty
 model code and part 0 the nil part. The table keeps (model, part) unique over all rows, deleted ones included.
 */
module BomModel {
  import opened Options
  import opened Text

  datatype Row = Row(id: nat, model: nat, part: nat, qty: int, deleted: bool)
  datatype Entry = Entry(id: nat, model: nat, part: nat, qty: int)
  datatype NewEntry = NewEntry(part: nat, qty: int)

  /** rows are in id order. Each cache key holds what a read returned when it was filled. */
  datatype Boms = Boms(
    rows: seq<Row>,
    nextId: nat,
    byModel: map<nat, seq<Entry>>,
    all: Option<seq<Entry>>,
    whereUsed: map<nat, seq<Entry>>)

  // ---------------------------------------------------------------- reads

  function LiveRow(r: Row): seq<Entry> {
    if r.deleted then [] else [Entry(r.id, r.model, r.part, r.qty)]
  }

  function Live(rows: seq<Row>): seq<Entry> {
    if rows == [] then [] else LiveRow(rows[0]) + Live(rows[1..])
  }

  function OfModel(es: seq<Entry>, m: nat): seq<Entry> {
    if es == [] then [] else (if es[0].model == m then [es[0]] else []) + OfModel(es[1..], m)
  }

  function OfPart(es: seq<Entry>, p: nat): seq<Entry> {
    if es == [] then [] else (if es[0].part == p then [es[0]] else []) + OfPart(es[1..], p)
  }

  function InsertByModel(e: Entry, sorted: seq<Entry>): seq<Entry> {
    if sorted == [] || e.model <= sorted[0].model then [e] + sorted
    else [sorted[0]] + InsertByModel(e, sorted[1..])
  }

  /** By model, and by id within a model. */
  function ByModelOrder(es: seq<Entry>): seq<Entry> {
    if es == [] then [] else InsertByModel(es[0], ByModelOrder(es[1..]))
  }

  function ReadModel(rows: seq<Row>, m: nat): seq<Entry> {
    if m == 0 then [] else OfModel(Live(rows), m)
  }

  function ReadAll(rows: seq<Row>): seq<Entry> {
    ByModelOrder(Live(rows))
  }

  function ReadWhereUsed(rows: seq<Row>, p: nat): seq<Entry> {
    if p == 0 then [] else OfPart(Live(rows), p)
  }

  // ---------------------------------------------------------------- writes

  function WithoutModel(rows: seq<Row>, m: nat): seq<Row> {
    if rows == [] then [] else (if rows[0].model == m then [] else [rows[0]]) + WithoutModel(rows[1..], m)
  }

  function HardDeleted(rows: seq<Row>, m: nat): seq<Row> {
    if m == 0 then rows else WithoutModel(rows, m)
  }

  function SoftDeleted(rows: seq<Row>, m: nat): seq<Row> {
    if rows == [] then []
    else [rows[0].(deleted := rows[0].deleted || rows[0].model == m)] + SoftDeleted(rows[1..], m)
  }

  function MarkedDeleted(rows: seq<Row>, m: nat): seq<Row> {
    if m == 0 then rows else SoftDeleted(rows, m)
  }

  function Appended(rows: seq<Row>, nextId: nat, m: nat, es: seq<NewEntry>): seq<Row>
    decreases |es|
  {
    if es == [] then rows
    else Appended(rows + [Row(nextId, m, es[0].part, es[0].qty, false)], nextId + 1, m, es[1..])
  }

  predicate DistinctParts(es: seq<NewEntry>) {
    forall i, j :: 0 <= i < j < |es| ==> es[i].part != es[j].part
  }

  /** The table's constraints: (model, part) unique, quantities positive. */
  predicate Insertable(rows: seq<Row>, m: nat, es: seq<NewEntry>) {
    && DistinctParts(es)
    && (forall i :: 0 <= i < |es| ==> es[i].qty > 0)
    && (forall i, j :: 0 <= i < |es| && 0 <= j < |rows| && rows[j].model == m ==> rows[j].part != es[i].part)
  }

  // ---------------------------------------------------------------- catalogue and requests

  /** The parts service, read both ways. */
  datatype Catalogue = Catalogue(partOf: map<string, nat>, skuOf: map<nat, string>)

  datatype Component = Component(sku: string, qty: int)

  function PartId(c: Catalogue, sku: string): Option<nat> {
    var k := Trim(sku);
    if k != [] && k in c.partOf && c.partOf[k] != 0 then Some(c.partOf[k]) else None
  }

  function SkuOf(c: Catalogue, part: nat): Option<string> {
    if part != 0 && part in c.skuOf && Trim(c.skuOf[part]) != [] then Some(c.skuOf[part]) else None
  }

  /** The request's components as table entries; creation also rejects a SKU text given twice. */
  function Resolve(cs: seq<Component>, seen: set<string>, rejectRepeats: bool, c: Catalogue): Option<seq<NewEntry>>
    decreases |cs|
  {
    if cs == [] then Some([])
    else if cs[0].qty <= 0 || (rejectRepeats && cs[0].sku in seen) || PartId(c, cs[0].sku).None? then None
    else
      var rest := Resolve(cs[1..], seen + {cs[0].sku}, rejectRepeats, c);
      if rest.None? then None else Some([NewEntry(PartId(c, cs[0].sku).value, cs[0].qty)] + rest.value)
  }

  datatype WriteFaults = WriteFaults(deleteFails: bool, insertFails: bool, invalidateFails: bool, syncFails: bool)

  datatype CallResult = Ok | Refused | Failed

  function Parts(es: seq<NewEntry>): set<nat> {
    set e | e in es && e.part != 0 :: e.part
  }

  function Invalidated(b: Boms, m: nat, parts: set<nat>, fails: bool): Boms {
    if fails then b
    else b.(all := None, byModel := if m == 0 then b.byModel else b.byModel - {m}, whereUsed := b.whereUsed - parts)
  }

  predicate Accepted(m: nat, cs: seq<Component>, rejectRepeats: bool, c: Catalogue) {
    m != 0 && Resolve(cs, {}, rejectRepeats, c).Some?
  }

  /** Deleting the old rows and inserting the new ones are two transactions. */
  function AfterReplace(b: Boms, m: nat, cs: seq<Component>, rejectRepeats: bool, c: Catalogue, f: WriteFaults): Boms {
    if !Accepted(m, cs, rejectRepeats, c) || f.deleteFails then b
    else
      var es := Resolve(cs, {}, rejectRepeats, c).value;
      var cleared := b.(rows := HardDeleted(b.rows, m));
      if f.insertFails || !Insertable(cleared.rows, m, es) then cleared
      else
        Invalidated(cleared.(rows := Appended(cleared.rows, b.nextId, m, es), nextId := b.nextId + |es|),
                    m, Parts(es), f.invalidateFails)
  }

  predicate Replaces(b: Boms, m: nat, cs: seq<Component>, rejectRepeats: bool, c: Catalogue, f: WriteFaults) {
    && Accepted(m, cs, rejectRepeats, c) && !f.deleteFails && !f.insertFails
    && Insertable(HardDeleted(b.rows, m), m, Resolve(cs, {}, rejectRepeats, c).value)
  }

  function ReplaceOutcome(b: Boms, m: nat, cs: seq<Component>, rejectRepeats: bool, c: Catalogue,
          f: WriteFaults): CallResult {
    if !Accepted(m, cs, rejectRepeats, c) then Refused
    else if !Replaces(b, m, cs, rejectRepeats, c, f) || f.syncFails then Failed
    else Ok
  }

  function AfterRemove(b: Boms, m: nat, f: WriteFaults): Boms {
    if m == 0 || f.deleteFails then b
    else Invalidated(b.(rows := MarkedDeleted(b.rows, m)), m, {}, f.invalidateFails)
  }

  // ---------------------------------------------------------------- cached reads

  /** Reading or filling the cache may fail, and so may reading the table behind it. */
  datatype ReadFaults = ReadFaults(readFails: bool, fillFails: bool, loadFails: bool)

  predicate ModelHit(b: Boms, m: nat, f: ReadFaults) {
    m != 0 && !f.readFails && m in b.byModel
  }

  /** The empty model code is answered without the table. */
  function ModelAnswer(b: Boms, m: nat, f: ReadFaults): Option<seq<Entry>> {
    if ModelHit(b, m, f) then Some(b.byModel[m])
    else if m != 0 && f.loadFails then None
    else Some(ReadModel(b.rows, m))
  }

  function AfterModelRead(b: Boms, m: nat, f: ReadFaults): Boms {
    if m == 0 || ModelHit(b, m, f) || f.loadFails || f.fillFails then b
    else b.(byModel := b.byModel[m := ReadModel(b.rows, m)])
  }

  predicate AllHit(b: Boms, f: ReadFaults) {
    !f.readFails && b.all.Some?
  }

  function AllAnswer(b: Boms, f: ReadFaults): Option<seq<Entry>> {
    if AllHit(b, f) then b.all else if f.loadFails then None else Some(ReadAll(b.rows))
  }

  function AfterAllRead(b: Boms, f: ReadFaults): Boms {
    if AllHit(b, f) || f.loadFails || f.fillFails then b else b.(all := Some(ReadAll(b.rows)))
  }

  predicate WhereUsedHit(b: Boms, p: nat, f: ReadFaults) {
    p != 0 && !f.readFails && p in b.whereUsed
  }

  function WhereUsedAnswer(b: Boms, p: nat, f: ReadFaults): Option<seq<Entry>> {
    if WhereUsedHit(b, p, f) then Some(b.whereUsed[p])
    else if p != 0 && f.loadFails then None
    else Some(ReadWhereUsed(b.rows, p))
  }

  function AfterWhereUsedRead(b: Boms, p: nat, f: ReadFaults): Boms {
    if p == 0 || WhereUsedHit(b, p, f) || f.loadFails || f.fillFails then b
    else b.(whereUsed := b.whereUsed[p := ReadWhereUsed(b.rows, p)])
  }

  // ---------------------------------------------------------------- assemblies

  datatype Assembly = Assembly(model: nat, components: seq<Component>)

  predicate Resolvable(es: seq<Entry>, c: Catalogue) {
    forall i :: 0 <= i < |es| ==> SkuOf(c, es[i].part).Some?
  }

  function Name(e: Entry, c: Catalogue): string {
    if SkuOf(c, e.part).Some? then SkuOf(c, e.part).value else []
  }

  /** The SKUs of the entries, each once, in order of first appearance. */
  function Names(es: seq<Entry>, c: Catalogue): seq<string> {
    if es == [] then []
    else
      var before, k := Names(es[..|es| - 1], c), Name(es[|es| - 1], c);
      if k in before then before else before + [k]
  }

  function Needed(es: seq<Entry>, c: Catalogue, sku: string): int {
    if es == [] then 0 else (if Name(es[0], c) == sku then es[0].qty else 0) + Needed(es[1..], c, sku)
  }

  /** Repeats of a SKU are merged into its first appearance by adding their quantities. */
  function Assembled(es: seq<Entry>, c: Catalogue): (r: seq<Component>)
    ensures |r| == |Names(es, c)|
  {
    seq(|Names(es, c)|, i requires 0 <= i < |Names(es, c)| =>
      Component(Names(es, c)[i], Needed(es, c, Names(es, c)[i])))
  }

  /** The models of the entries, each once, in order of first appearance. */
  function Models(es: seq<Entry>): seq<nat> {
    if es == [] then []
    else
      var before, m := Models(es[..|es| - 1]), es[|es| - 1].model;
      if m in before then before else before + [m]
  }
}
