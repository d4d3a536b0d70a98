/**
 The assembly part of the production service over the bill-of-materials table and its cache.
 */
module CatalogService {
  import opened Sequences
  import opened Options
  import opened BomModel
  import opened BomLaws

  /** A running merge: the SKUs met so far in order, and what is needed of each. */
  ghost predicate Tracks(es: seq<Entry>, c: Catalogue, order: seq<string>, sums: map<string, int>) {
    && order == Names(es, c)
    && (forall k :: k in sums <==> k in order)
    && forall k :: k in sums ==> sums[k] == Needed(es, c, k)
  }

  lemma {:induction false} NeededOfAbsentName(es: seq<Entry>, c: Catalogue, sku: string)
    requires sku !in Names(es, c)
    ensures Needed(es, c, sku) == 0
  {
    NamesSound(es, c);
    NeededAbsent(es, c, sku);
  }

  method Track(ghost es: seq<Entry>, e: Entry, sku: string, ghost c: Catalogue, order: seq<string>,
          sums: map<string, int>)
    returns (order': seq<string>, sums': map<string, int>)
    requires Tracks(es, c, order, sums) && sku == Name(e, c)
    ensures Tracks(es + [e], c, order', sums')
  {
    assert (es + [e])[..|es|] == es;
    forall k
      ensures Needed(es + [e], c, k) == Needed(es, c, k) + (if sku == k then e.qty else 0)
    {
      NeededAppend(es, e, c, k);
    }
    order', sums' := order, sums;
    if sku !in sums' {
      NeededOfAbsentName(es, c, sku);
      order' := order' + [sku];
      sums' := sums'[sku := 0];
    }
    sums' := sums'[sku := sums'[sku] + e.qty];
  }

  method Components(ghost es: seq<Entry>, ghost c: Catalogue, order: seq<string>, sums: map<string, int>)
    returns (components: seq<Component>)
    requires Tracks(es, c, order, sums)
    ensures components == Assembled(es, c)
  {
    components := [];
    for i := 0 to |order|
      invariant |components| == i
      invariant forall j :: 0 <= j < i ==> components[j] == Component(order[j], Needed(es, c, order[j]))
    {
      components := components + [Component(order[i], sums[order[i]])];
    }
  }

  function Prefixed(out: seq<NewEntry>, rest: Option<seq<NewEntry>>): Option<seq<NewEntry>> {
    if rest.None? then None else Some(out + rest.value)
  }

  lemma PrefixedByNothing(rest: Option<seq<NewEntry>>)
    ensures Prefixed([], rest) == rest
  {
    assert rest.Some? ==> [] + rest.value == rest.value;
  }

  lemma PrefixedTwice(out: seq<NewEntry>, e: NewEntry, rest: Option<seq<NewEntry>>)
    ensures Prefixed(out, Prefixed([e], rest)) == Prefixed(out + [e], rest)
  {
    assert rest.Some? ==> out + ([e] + rest.value) == out + [e] + rest.value;
  }

  /** A merge for every model among the entries. */
  ghost predicate TracksAll(es: seq<Entry>, c: Catalogue, skuMaps: map<nat, map<string, int>>,
          skuOrders: map<nat, seq<string>>) {
    && (forall m :: m in skuMaps <==> m in Models(es))
    && (forall m :: m in skuOrders <==> m in Models(es))
    && (forall m :: m in skuMaps ==> m in skuOrders && Tracks(OfModel(es, m), c, skuOrders[m], skuMaps[m]))
  }

  lemma {:induction false} ModelsOf(es: seq<Entry>, m: nat)
    ensures m !in Models(es) ==> OfModel(es, m) == []
  {
    if es != [] {
      var before, e := es[..|es| - 1], es[|es| - 1];
      ModelsOf(before, m);
      ModelStep(before, e, m);
      assert es == before + [e];
    }
  }

  lemma ModelStep(es: seq<Entry>, e: Entry, m: nat)
    ensures OfModel(es + [e], m) == if e.model == m then OfModel(es, m) + [e] else OfModel(es, m)
    ensures Models(es + [e]) == if e.model in Models(es) then Models(es) else Models(es) + [e.model]
  {
    OfAppend(es, [e], m);
    assert [e][1..] == [];
    assert (es + [e])[..|es|] == es;
  }

  /** One more entry goes to its own model's merge, which starts empty if the model is new. */
  method TrackModel(ghost es: seq<Entry>, e: Entry, sku: string, ghost c: Catalogue,
                    order: seq<nat>, skuMaps: map<nat, map<string, int>>, skuOrders: map<nat, seq<string>>)
    returns (order': seq<nat>, skuMaps': map<nat, map<string, int>>, skuOrders': map<nat, seq<string>>)
    requires order == Models(es) && TracksAll(es, c, skuMaps, skuOrders) && sku == Name(e, c)
    ensures order' == Models(es + [e]) && TracksAll(es + [e], c, skuMaps', skuOrders')
  {
    ModelsOf(es, e.model);
    var isNew := e.model !in skuMaps;
    order' := if isNew then order + [e.model] else order;
    var o: seq<string>, s: map<string, int> := [], map[];
    if !isNew {
      o, s := skuOrders[e.model], skuMaps[e.model];
    }
    o, s := Track(OfModel(es, e.model), e, sku, c, o, s);
    skuMaps', skuOrders' := skuMaps[e.model := s], skuOrders[e.model := o];
    forall m | m in skuMaps'
      ensures m in skuOrders' && Tracks(OfModel(es + [e], m), c, skuOrders'[m], skuMaps'[m])
    {
      ModelStep(es, e, m);
    }
    ModelStep(es, e, e.model);
  }

  method Assemblies(ghost es: seq<Entry>, ghost c: Catalogue, order: seq<nat>,
                    skuMaps: map<nat, map<string, int>>, skuOrders: map<nat, seq<string>>)
    returns (r: seq<Assembly>)
    requires forall i :: 0 <= i < |order| ==>
               && order[i] in skuMaps && order[i] in skuOrders
               && Tracks(OfModel(es, order[i]), c, skuOrders[order[i]], skuMaps[order[i]])
    ensures |r| == |order|
    ensures forall i :: 0 <= i < |r| ==> r[i] == Assembly(order[i], Assembled(OfModel(es, order[i]), c))
  {
    r := [];
    for i := 0 to |order|
      invariant |r| == i
      invariant forall j :: 0 <= j < i ==> r[j] == Assembly(order[j], Assembled(OfModel(es, order[j]), c))
    {
      var m := order[i];
      var components := Components(OfModel(es, m), c, skuOrders[m], skuMaps[m]);
      r := r + [Assembly(m, components)];
    }
  }

  method EntriesOf(rows: seq<Row>, m: nat) returns (es: seq<Entry>)
    ensures es == OfModel(Live(rows), m)
  {
    es := [];
    WholeSuffix(rows);
    EmptySums(OfModel(Live(rows), m));
    for i := 0 to |rows|
      invariant es + OfModel(Live(rows[i..]), m) == OfModel(Live(rows), m)
    {
      ghost var rest := OfModel(Live(rows[i + 1..]), m);
      ShorterSuffix(rows, i);
      FirstRowReads(rows[i..], m);
      EmptySums(rest);
      if rows[i].model == m && !rows[i].deleted {
        var e := Entry(rows[i].id, rows[i].model, rows[i].part, rows[i].qty);
        Associate(es, [e], rest);
        es := es + [e];
      }
    }
    EmptySums(es);
  }

  class ProductionService {
    var rows: seq<Row>
    var nextId: nat
    var byModel: map<nat, seq<Entry>>
    var all: Option<seq<Entry>>
    var whereUsed: map<nat, seq<Entry>>
    const catalogue: Catalogue

    constructor (catalogue: Catalogue)
      ensures View() == Boms([], 1, map[], None, map[]) && this.catalogue == catalogue
    {
      rows, nextId, byModel, all, whereUsed := [], 1, map[], None, map[];
      this.catalogue := catalogue;
    }

    ghost function View(): Boms
      reads this
    {
      Boms(rows, nextId, byModel, all, whereUsed)
    }

    // -------------------------------------------------------------- cached reads

    method GetBomByModelCode(m: nat, f: ReadFaults) returns (r: Option<seq<Entry>>)
      modifies `byModel
      ensures r == old(ModelAnswer(View(), m, f))
      ensures View() == old(AfterModelRead(View(), m, f))
    {
      if m == 0 {
        return Some([]);
      }
      if !f.readFails && m in byModel {
        return Some(byModel[m]);
      }
      if f.loadFails {
        return None;
      }
      var es := EntriesOf(rows, m);
      if !f.fillFails {
        byModel := byModel[m := es];
      }
      r := Some(es);
    }

    method GetAllBoms(f: ReadFaults) returns (r: Option<seq<Entry>>)
      modifies `all
      ensures r == old(AllAnswer(View(), f))
      ensures View() == old(AfterAllRead(View(), f))
    {
      if !f.readFails && all.Some? {
        return all;
      }
      if f.loadFails {
        return None;
      }
      var es := ByModelOrder(Live(rows));
      if !f.fillFails {
        all := Some(es);
      }
      r := Some(es);
    }

    method GetWhereUsed(p: nat, f: ReadFaults) returns (r: Option<seq<Entry>>)
      modifies `whereUsed
      ensures r == old(WhereUsedAnswer(View(), p, f))
      ensures View() == old(AfterWhereUsedRead(View(), p, f))
    {
      if p == 0 {
        return Some([]);
      }
      if !f.readFails && p in whereUsed {
        return Some(whereUsed[p]);
      }
      if f.loadFails {
        return None;
      }
      var es := OfPart(Live(rows), p);
      if !f.fillFails {
        whereUsed := whereUsed[p := es];
      }
      r := Some(es);
    }

    // -------------------------------------------------------------- table writes

    method HardDelete(m: nat)
      modifies `rows
      ensures rows == old(HardDeleted(rows, m))
    {
      if m == 0 {
        return;
      }
      var kept: seq<Row> := [];
      for i := 0 to |rows|
        invariant rows == old(rows)
        invariant kept + WithoutModel(rows[i..], m) == WithoutModel(rows, m)
      {
        ShorterSuffix(rows, i);
        if rows[i].model != m {
          kept := kept + [rows[i]];
        }
      }
      rows := kept;
    }

    /** One transaction: all entries, or none when a constraint refuses one. */
    method CreateEntries(m: nat, es: seq<NewEntry>) returns (ok: bool)
      modifies `rows, `nextId
      ensures ok == old(Insertable(rows, m, es))
      ensures rows == if ok then old(Appended(rows, nextId, m, es)) else old(rows)
      ensures nextId == old(nextId) + (if ok then |es| else 0)
    {
      ok := DistinctParts(es)
        && (forall i :: 0 <= i < |es| ==> es[i].qty > 0)
        && (forall i :: 0 <= i < |es| ==> forall j :: 0 <= j < |rows| && rows[j].model == m ==>
             rows[j].part != es[i].part);
      if !ok {
        return;
      }
      for i := 0 to |es|
        invariant Appended(rows, nextId, m, es[i..]) == old(Appended(rows, nextId, m, es))
        invariant nextId == old(nextId) + i
      {
        ShorterSuffix(es, i);
        rows := rows + [Row(nextId, m, es[i].part, es[i].qty, false)];
        nextId := nextId + 1;
      }
      WholeSuffix(es);
    }

    method SoftDelete(m: nat)
      modifies `rows
      ensures rows == old(MarkedDeleted(rows, m))
    {
      if m == 0 {
        return;
      }
      var marked: seq<Row> := [];
      for i := 0 to |rows|
        invariant rows == old(rows)
        invariant marked + SoftDeleted(rows[i..], m) == SoftDeleted(rows, m)
      {
        ShorterSuffix(rows, i);
        marked := marked + [if rows[i].model == m then rows[i].(deleted := true) else rows[i]];
      }
      rows := marked;
    }

    method InvalidateBom(m: nat, parts: seq<nat>, fails: bool)
      modifies `all, `byModel, `whereUsed
      ensures View() == old(Invalidated(View(), m, (set p | p in parts && p != 0), fails))
    {
      if fails {
        return;
      }
      all := None;
      if m != 0 {
        byModel := byModel - {m};
      }
      ghost var dropped := byModel;
      for i := 0 to |parts|
        invariant all == None && byModel == dropped
        invariant whereUsed == old(whereUsed) - (set p | p in parts[..i] && p != 0)
      {
        LongerPrefix(parts, i);
        if parts[i] != 0 {
          whereUsed := whereUsed - {parts[i]};
        }
      }
      WholePrefix(parts);
      assert whereUsed == old(whereUsed) - (set p | p in parts && p != 0);
    }

    // -------------------------------------------------------------- assemblies

    method ResolveComponents(cs: seq<Component>, rejectRepeats: bool) returns (es: Option<seq<NewEntry>>)
      ensures es == Resolve(cs, {}, rejectRepeats, catalogue)
    {
      var seen: set<string>, out: seq<NewEntry> := {}, [];
      assert cs[0..] == cs;
      PrefixedByNothing(Resolve(cs, {}, rejectRepeats, catalogue));
      for i := 0 to |cs|
        invariant Resolve(cs, {}, rejectRepeats, catalogue)
                  == Prefixed(out, Resolve(cs[i..], seen, rejectRepeats, catalogue))
      {
        ShorterSuffix(cs, i);
        if cs[i].qty <= 0 || (rejectRepeats && cs[i].sku in seen) {
          return None;
        }
        seen := seen + {cs[i].sku};
        var part := PartId(catalogue, cs[i].sku);
        if part.None? {
          return None;
        }
        PrefixedTwice(out, NewEntry(part.value, cs[i].qty), Resolve(cs[i + 1..], seen, rejectRepeats, catalogue));
        out := out + [NewEntry(part.value, cs[i].qty)];
      }
      assert cs[|cs|..] == [] && out + [] == out;
      es := Some(out);
    }

    /** The parts of the entries, nil ones left out and each once. */
    method UniqueParts(es: seq<NewEntry>) returns (parts: seq<nat>)
      ensures (set p | p in parts && p != 0) == Parts(es)
      ensures forall i, j :: 0 <= i < j < |parts| ==> parts[i] != parts[j]
    {
      parts := [];
      for i := 0 to |es|
        invariant forall p :: p in parts <==> p != 0 && exists j :: 0 <= j < i && es[j].part == p
        invariant forall j, k :: 0 <= j < k < |parts| ==> parts[j] != parts[k]
      {
        if es[i].part != 0 && es[i].part !in parts {
          parts := parts + [es[i].part];
        }
      }
      forall p
        ensures p in parts <==> p in Parts(es)
      {
        if p in Parts(es) {
          var e :| e in es && e.part != 0 && e.part == p;
          var j :| 0 <= j < |es| && es[j] == e;
          assert es[j].part == p;
        }
      }
    }

    method StoreEntries(m: nat, es: seq<NewEntry>, f: WriteFaults) returns (ok: bool)
      modifies this
      ensures ok == (!f.deleteFails && !f.insertFails && Insertable(old(HardDeleted(rows, m)), m, es))
      ensures View() == old(
                if f.deleteFails then View()
                else
                  var cleared := View().(rows := HardDeleted(rows, m));
                  if f.insertFails || !Insertable(cleared.rows, m, es) then cleared
                  else Invalidated(cleared.(rows := Appended(cleared.rows, nextId, m, es), nextId := nextId + |es|),
                                   m, Parts(es), f.invalidateFails))
    {
      if f.deleteFails {
        return false;
      }
      HardDelete(m);
      if f.insertFails {
        return false;
      }
      ok := CreateEntries(m, es);
      if ok {
        var parts := UniqueParts(es);
        InvalidateBom(m, parts, f.invalidateFails);
      }
    }

    method CreateAssembly(m: nat, cs: seq<Component>, f: WriteFaults) returns (r: CallResult)
      modifies this
      ensures r == old(ReplaceOutcome(View(), m, cs, true, catalogue, f))
      ensures View() == old(AfterReplace(View(), m, cs, true, catalogue, f))
    {
      if m == 0 {
        return Refused;
      }
      var es := ResolveComponents(cs, true);
      if es.None? {
        return Refused;
      }
      var ok := StoreEntries(m, es.value, f);
      r := if ok && !f.syncFails then Ok else Failed;
    }

    method UpdateAssembly(m: nat, cs: seq<Component>, f: WriteFaults) returns (r: CallResult)
      modifies this
      ensures r == old(ReplaceOutcome(View(), m, cs, false, catalogue, f))
      ensures View() == old(AfterReplace(View(), m, cs, false, catalogue, f))
    {
      if m == 0 {
        return Refused;
      }
      var es := ResolveComponents(cs, false);
      if es.None? {
        return Refused;
      }
      var ok := StoreEntries(m, es.value, f);
      r := if ok && !f.syncFails then Ok else Failed;
    }

    method DeleteAssembly(m: nat, f: WriteFaults) returns (r: CallResult)
      modifies this
      ensures r == if m == 0 then Refused else if f.deleteFails then Failed else Ok
      ensures View() == old(AfterRemove(View(), m, f))
    {
      if m == 0 {
        return Refused;
      }
      if f.deleteFails {
        return Failed;
      }
      SoftDelete(m);
      InvalidateBom(m, [], f.invalidateFails);
      r := Ok;
    }

    /** ok is false when the table or a part cannot be read; a model without entries has no assembly. */
    method GetAssemblyByModelCode(m: nat, f: ReadFaults) returns (ok: bool, r: Option<Assembly>)
      modifies `byModel
      ensures View() == old(if m == 0 then View() else AfterModelRead(View(), m, f))
      ensures var es := old(ModelAnswer(View(), m, f));
              && ok == (m != 0 && es.Some? && Resolvable(es.value, catalogue))
              && (ok ==> r == if es.value == [] then None else Some(Assembly(m, Assembled(es.value, catalogue))))
    {
      if m == 0 {
        return false, None;
      }
      var read := GetBomByModelCode(m, f);
      if read.None? {
        return false, None;
      }
      var es := read.value;
      if es == [] {
        return true, None;
      }
      var order: seq<string>, sums: map<string, int> := [], map[];
      for i := 0 to |es|
        invariant Resolvable(es[..i], catalogue)
        invariant Tracks(es[..i], catalogue, order, sums)
        invariant View() == old(AfterModelRead(View(), m, f))
      {
        LongerPrefix(es, i);
        var sku := SkuOf(catalogue, es[i].part);
        if sku.None? {
          return false, None;
        }
        order, sums := Track(es[..i], es[i], sku.value, catalogue, order, sums);
      }
      WholePrefix(es);
      var components := Components(es, catalogue, order, sums);
      ok, r := true, Some(Assembly(m, components));
    }

    /** All models' merges at once, each entry going to its own model's. */
    method TrackAll(es: seq<Entry>)
      returns (ok: bool, order: seq<nat>, skuMaps: map<nat, map<string, int>>, skuOrders: map<nat, seq<string>>)
      ensures ok == Resolvable(es, catalogue)
      ensures ok ==> order == Models(es) && TracksAll(es, catalogue, skuMaps, skuOrders)
    {
      order, skuMaps, skuOrders := [], map[], map[];
      for i := 0 to |es|
        invariant Resolvable(es[..i], catalogue)
        invariant order == Models(es[..i])
        invariant TracksAll(es[..i], catalogue, skuMaps, skuOrders)
      {
        var sku := SkuOf(catalogue, es[i].part);
        if sku.None? {
          return false, [], map[], map[];
        }
        LongerPrefix(es, i);
        order, skuMaps, skuOrders := TrackModel(es[..i], es[i], sku.value, catalogue, order, skuMaps, skuOrders);
      }
      WholePrefix(es);
      ok := true;
    }

    /** One assembly for each model, in order of first appearance. */
    method GroupAssemblies(es: seq<Entry>) returns (ok: bool, r: seq<Assembly>)
      ensures ok == Resolvable(es, catalogue)
      ensures ok ==> |r| == |Models(es)|
      ensures ok ==> forall i :: 0 <= i < |r| ==>
                r[i] == Assembly(Models(es)[i], Assembled(OfModel(es, Models(es)[i]), catalogue))
    {
      var order, skuMaps, skuOrders;
      ok, order, skuMaps, skuOrders := TrackAll(es);
      r := [];
      if ok {
        assert forall i :: 0 <= i < |order| ==> order[i] in Models(es);
        r := Assemblies(es, catalogue, order, skuMaps, skuOrders);
      }
    }
  }
}
