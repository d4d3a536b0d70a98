/**
 Reconciling the shortage logs: what one pass leaves behind, that it can be repeated, and that a pass which
 broke off is completed by the next one as if it had never broken off.
 */
module ShortageLaws {
  import opened Sequences
  import opened MrpModel
  import Pool = DeficitPool

  // ---------------------------------------------------------------- the table

  lemma {:induction false} LiveAppend(a: seq<Log>, b: seq<Log>, order: string, part: nat)
    ensures LiveOf(a + b, order, part) == LiveOf(a, order, part) + LiveOf(b, order, part)
  {
    if a == [] {
      EmptySums(b);
    } else {
      TailOfSum(a, b);
      LiveAppend(a[1..], b, order, part);
      assert LiveOf(a, order, part) + LiveOf(b, order, part)
          == (if IsLive(a[0], order, part) then [a[0]] else [])
              + (LiveOf(a[1..], order, part) + LiveOf(b, order, part));
    }
  }

  lemma {:induction false} LiveAreIn(logs: seq<Log>, order: string, part: nat)
    ensures forall g :: g in LiveOf(logs, order, part) <==> g in logs && IsLive(g, order, part)
  {
    if logs != [] {
      LiveAreIn(logs[1..], order, part);
      assert logs == [logs[0]] + logs[1..];
    }
  }

  lemma {:induction false} DeletedLive(logs: seq<Log>, order: string, part: nat, o: string, p: nat)
    ensures LiveOf(Deleted(logs, order, part), o, p) == if o == order && p == part then [] else LiveOf(logs, o, p)
  {
    if logs != [] {
      DeletedLive(logs[1..], order, part, o, p);
    }
  }

  /** Every row has its own id, all of them handed out before nextLog. */
  ghost predicate DistinctIds(logs: seq<Log>, nextLog: nat) {
    && (forall i :: 0 <= i < |logs| ==> logs[i].id < nextLog)
    && forall i, j :: 0 <= i < j < |logs| ==> logs[i].id != logs[j].id
  }

  ghost predicate AtMostOneLive(logs: seq<Log>) {
    forall o, p :: |LiveOf(logs, o, p)| <= 1
  }

  ghost predicate Sound(t: Mrp) {
    DistinctIds(t.logs, t.nextLog) && AtMostOneLive(t.logs)
  }

  /** Setting the quantity of one live row changes what is live for its own order and part, and nothing else. */
  lemma {:induction false} WithQtyLive(logs: seq<Log>, g: Log, qty: int, o: string, p: nat)
    requires forall i, j :: 0 <= i < j < |logs| ==> logs[i].id != logs[j].id
    requires g in logs && !g.deleted
    ensures g.order == o && g.part == p && LiveOf(logs, o, p) == [g] ==>
              LiveOf(WithQty(logs, g.id, qty), o, p) == [g.(qty := qty)]
    ensures !(g.order == o && g.part == p) ==> LiveOf(WithQty(logs, g.id, qty), o, p) == LiveOf(logs, o, p)
  {
    if logs[0] == g {
      assert forall j :: 0 <= j < |logs[1..]| ==> logs[1..][j].id != g.id;
      WithQtyElsewhere(logs[1..], g.id, qty);
    } else {
      WithQtyLive(logs[1..], g, qty, o, p);
      assert logs[0].id != g.id;
      assert IsLive(logs[0], o, p) ==> LiveOf(logs, o, p)[0] == logs[0];
    }
  }

  lemma {:induction false} WithQtyElsewhere(logs: seq<Log>, id: nat, qty: int)
    requires forall j :: 0 <= j < |logs| ==> logs[j].id != id
    ensures WithQty(logs, id, qty) == logs
  {
    if logs != [] {
      WithQtyElsewhere(logs[1..], id, qty);
    }
  }

  lemma {:induction false} RowsKeepIds(logs: seq<Log>, order: string, part: nat, id: nat, qty: int)
    ensures |Deleted(logs, order, part)| == |logs| == |WithQty(logs, id, qty)|
    ensures forall i :: 0 <= i < |logs| ==>
              Deleted(logs, order, part)[i].id == logs[i].id == WithQty(logs, id, qty)[i].id
  {
    if logs != [] {
      RowsKeepIds(logs[1..], order, part, id, qty);
    }
  }

  /** What was live for a part is what the snapshot says, when there is at most one. */
  ghost predicate Agrees(logs: seq<Log>, order: string, part: nat, existing: map<nat, Log>) {
    LiveOf(logs, order, part) == if part in existing then [existing[part]] else []
  }

  lemma {:induction false} SnapshotReads(logs: seq<Log>, order: string, part: nat)
    ensures var live := LiveOf(logs, order, part);
            && (part in Snapshot(logs, order) <==> live != [])
            && (live != [] ==> Snapshot(logs, order)[part] == live[|live| - 1])
  {
    if logs != [] {
      var before, g := logs[..|logs| - 1], logs[|logs| - 1];
      SnapshotReads(before, order, part);
      LiveAppend(before, [g], order, part);
      assert before + [g] == logs && [g][1..] == [];
    }
  }

  lemma SnapshotAgrees(logs: seq<Log>, order: string, part: nat)
    requires AtMostOneLive(logs)
    ensures Agrees(logs, order, part, Snapshot(logs, order))
  {
    SnapshotReads(logs, order, part);
    assert |LiveOf(logs, order, part)| <= 1;
  }

  // ---------------------------------------------------------------- one requirement

  /** The logs say about a requirement what they should. */
  ghost predicate Right(logs: seq<Log>, order: string, l: Requirement) {
    var live := LiveOf(logs, order, l.part);
    if Wanted(l) == 0 then live == [] else |live| == 1 && live[0].qty == Wanted(l)
  }

  lemma ReconciledLive(t: Mrp, order: string, l: Requirement, existing: map<nat, Log>, lost: bool, o: string, p: nat)
    requires DistinctIds(t.logs, t.nextLog) && Agrees(t.logs, order, l.part, existing)
    ensures o == order && p == l.part ==> Right(Reconciled(t, order, l, existing, lost).logs, order, l)
    ensures !(o == order && p == l.part) ==>
              LiveOf(Reconciled(t, order, l, existing, lost).logs, o, p) == LiveOf(t.logs, o, p)
  {
    if Writes(l, existing) {
      if Wanted(l) == 0 {
        DeletedLive(t.logs, order, l.part, o, p);
      } else if l.part in existing {
        LiveAreIn(t.logs, order, l.part);
        assert existing[l.part] in LiveOf(t.logs, order, l.part);
        WithQtyLive(t.logs, existing[l.part], Wanted(l), o, p);
      } else {
        var g := Log(t.nextLog, order, l.part, Wanted(l), false);
        LiveAppend(t.logs, [g], o, p);
        assert [g][1..] == [];
      }
    }
  }

  lemma ReconciledKeepsSound(t: Mrp, order: string, l: Requirement, existing: map<nat, Log>, lost: bool)
    requires Sound(t) && Agrees(t.logs, order, l.part, existing)
    ensures Sound(Reconciled(t, order, l, existing, lost))
  {
    var t' := Reconciled(t, order, l, existing, lost);
    RowsKeepIds(t.logs, order, l.part, if l.part in existing then existing[l.part].id else 0, Wanted(l));
    forall o, p
      ensures |LiveOf(t'.logs, o, p)| <= 1
    {
      ReconciledLive(t, order, l, existing, lost, o, p);
      assert |LiveOf(t.logs, o, p)| <= 1;
    }
  }

  lemma NoWriteIfRight(logs: seq<Log>, order: string, l: Requirement, existing: map<nat, Log>)
    requires Agrees(logs, order, l.part, existing)
    ensures Writes(l, existing) <==> !Right(logs, order, l)
  {
  }

  // ---------------------------------------------------------------- all requirements

  ghost predicate DistinctParts(ls: seq<Requirement>) {
    forall i, j :: 0 <= i < j < |ls| ==> ls[i].part != ls[j].part
  }

  ghost predicate About(ls: seq<Requirement>, part: nat) {
    exists i :: 0 <= i < |ls| && ls[i].part == part
  }

  ghost predicate AgreesOnAll(logs: seq<Log>, order: string, ls: seq<Requirement>, existing: map<nat, Log>) {
    forall i :: 0 <= i < |ls| ==> Agrees(logs, order, ls[i].part, existing)
  }

  lemma AgreesAfterFirst(t: Mrp, order: string, ls: seq<Requirement>, existing: map<nat, Log>, lost: bool)
    requires DistinctIds(t.logs, t.nextLog) && DistinctParts(ls) && ls != [] && AgreesOnAll(t.logs, order, ls, existing)
    ensures AgreesOnAll(Reconciled(t, order, ls[0], existing, lost).logs, order, ls[1..], existing)
    ensures DistinctParts(ls[1..])
  {
    forall i | 0 <= i < |ls[1..]|
      ensures Agrees(Reconciled(t, order, ls[0], existing, lost).logs, order, ls[1..][i].part, existing)
    {
      assert ls[1..][i] == ls[i + 1];
      ReconciledLive(t, order, ls[0], existing, lost, order, ls[i + 1].part);
    }
  }

  /** Whatever fails, nobody gets a second live log, and what no requirement is about stays as it was. */
  lemma {:induction false} ReconcilingIsLocal(t: Mrp, order: string, ls: seq<Requirement>, existing: map<nat, Log>,
          f: SyncFaults, o: string, p: nat)
    requires Sound(t) && DistinctParts(ls) && AgreesOnAll(t.logs, order, ls, existing)
    ensures Sound(ReconciledAll(t, order, ls, existing, f))
    ensures o != order || !About(ls, p) ==>
              LiveOf(ReconciledAll(t, order, ls, existing, f).logs, o, p) == LiveOf(t.logs, o, p)
    decreases |ls|
  {
    if ls != [] && !Stops(order, ls[0], existing, f) {
      var lost := ls[0].part in f.lost;
      ReconciledLive(t, order, ls[0], existing, lost, o, p);
      ReconciledKeepsSound(t, order, ls[0], existing, lost);
      AgreesAfterFirst(t, order, ls, existing, lost);
      ReconcilingIsLocal(Reconciled(t, order, ls[0], existing, lost), order, ls[1..], existing, f, o, p);
      assert About(ls[1..], p) ==> About(ls, p) by {
        if About(ls[1..], p) {
          var i :| 0 <= i < |ls[1..]| && ls[1..][i].part == p;
          assert ls[i + 1].part == p;
        }
      }
      assert ls[0].part == p ==> About(ls, p);
    }
  }

  /** What the first requirement settles, the others leave alone. */
  lemma FirstSettles(t: Mrp, order: string, ls: seq<Requirement>, existing: map<nat, Log>, f: SyncFaults)
    requires Sound(t) && DistinctParts(ls) && AgreesOnAll(t.logs, order, ls, existing)
    requires ls != [] && !Stops(order, ls[0], existing, f)
    ensures Right(ReconciledAll(t, order, ls, existing, f).logs, order, ls[0])
  {
    var lost := ls[0].part in f.lost;
    var t' := Reconciled(t, order, ls[0], existing, lost);
    ReconciledLive(t, order, ls[0], existing, lost, order, ls[0].part);
    ReconciledKeepsSound(t, order, ls[0], existing, lost);
    AgreesAfterFirst(t, order, ls, existing, lost);
    ReconcilingIsLocal(t', order, ls[1..], existing, f, order, ls[0].part);
  }

  /** A pass that writes what it has to: sound tables, requirements about distinct parts, a snapshot that agrees,
      and no write that fails. */
  ghost predicate Reconcilable(t: Mrp, order: string, ls: seq<Requirement>, existing: map<nat, Log>, f: SyncFaults) {
    Sound(t) && DistinctParts(ls) && AgreesOnAll(t.logs, order, ls, existing) && NoneStops(order, ls, existing, f)
  }

  lemma RestReconcilable(t: Mrp, order: string, ls: seq<Requirement>, existing: map<nat, Log>, f: SyncFaults)
    requires ls != [] && Reconcilable(t, order, ls, existing, f)
    ensures var t' := Reconciled(t, order, ls[0], existing, ls[0].part in f.lost);
            && Reconcilable(t', order, ls[1..], existing, f)
            && ReconciledAll(t, order, ls, existing, f) == ReconciledAll(t', order, ls[1..], existing, f)
  {
    var lost := ls[0].part in f.lost;
    ReconciledKeepsSound(t, order, ls[0], existing, lost);
    AgreesAfterFirst(t, order, ls, existing, lost);
    assert forall k :: 0 <= k < |ls[1..]| ==> ls[1..][k] == ls[k + 1];
    assert !Stops(order, ls[0], existing, f);
  }

  lemma {:induction false} ReconcilingSettles(t: Mrp, order: string, ls: seq<Requirement>, existing: map<nat, Log>,
          f: SyncFaults, l: Requirement)
    requires Reconcilable(t, order, ls, existing, f) && l in ls
    ensures Right(ReconciledAll(t, order, ls, existing, f).logs, order, l)
    decreases |ls|
  {
    if l == ls[0] {
      FirstSettles(t, order, ls, existing, f);
    } else {
      RestReconcilable(t, order, ls, existing, f);
      ReconcilingSettles(Reconciled(t, order, ls[0], existing, ls[0].part in f.lost), order, ls[1..], existing, f, l);
    }
  }

  lemma SnapshotAgreesOnAll(t: Mrp, order: string, ls: seq<Requirement>)
    requires Sound(t)
    ensures AgreesOnAll(t.logs, order, ls, Snapshot(t.logs, order))
  {
    forall i | 0 <= i < |ls|
      ensures Agrees(t.logs, order, ls[i].part, Snapshot(t.logs, order))
    {
      SnapshotAgrees(t.logs, order, ls[i].part);
    }
  }

  /** After a pass that went through, the live logs about the requirements are exactly the short ones with what
      is missing of each; all other logs are as before. */
  lemma SyncSettles(t: Mrp, order: string, ls: seq<Requirement>, f: SyncFaults)
    requires Sound(t) && DistinctParts(ls) && SyncOk(t, order, ls, f)
    ensures forall i :: 0 <= i < |ls| ==> Right(AfterSync(t, order, ls, f).logs, order, ls[i])
    ensures forall o, p :: o != order || !About(ls, p) ==>
              LiveOf(AfterSync(t, order, ls, f).logs, o, p) == LiveOf(t.logs, o, p)
  {
    var existing := Snapshot(t.logs, order);
    SnapshotAgreesOnAll(t, order, ls);
    forall i | 0 <= i < |ls|
      ensures Right(AfterSync(t, order, ls, f).logs, order, ls[i])
    {
      ReconcilingSettles(t, order, ls, existing, f, ls[i]);
    }
    forall o, p | o != order || !About(ls, p)
      ensures LiveOf(AfterSync(t, order, ls, f).logs, o, p) == LiveOf(t.logs, o, p)
    {
      ReconcilingIsLocal(t, order, ls, existing, f, o, p);
    }
  }

  lemma SyncKeepsSound(t: Mrp, order: string, ls: seq<Requirement>, f: SyncFaults)
    requires Sound(t) && DistinctParts(ls)
    ensures Sound(AfterSync(t, order, ls, f))
  {
    SnapshotAgreesOnAll(t, order, ls);
    ReconcilingIsLocal(t, order, ls, Snapshot(t.logs, order), f, order, 0);
  }

  // ---------------------------------------------------------------- repeating a pass

  lemma {:induction false} NothingToDo(t: Mrp, order: string, ls: seq<Requirement>, existing: map<nat, Log>,
          f: SyncFaults)
    requires AgreesOnAll(t.logs, order, ls, existing)
    requires forall i :: 0 <= i < |ls| ==> Right(t.logs, order, ls[i])
    ensures ReconciledAll(t, order, ls, existing, f) == t && NoneStops(order, ls, existing, f)
    decreases |ls|
  {
    forall i | 0 <= i < |ls|
      ensures !Writes(ls[i], existing)
    {
      NoWriteIfRight(t.logs, order, ls[i], existing);
    }
    if ls != [] {
      assert !Writes(ls[0], existing);
      assert forall i :: 0 <= i < |ls[1..]| ==> ls[1..][i] == ls[i + 1];
      NothingToDo(t, order, ls[1..], existing, f);
    }
  }

  /** A pass that went through leaves nothing for another one with the same requirements to write or announce,
      so an announcement that was lost is not made again. */
  lemma SecondSyncDoesNothing(t: Mrp, order: string, ls: seq<Requirement>, f: SyncFaults, again: SyncFaults)
    requires Sound(t) && DistinctParts(ls) && SyncOk(t, order, ls, f)
    ensures AfterSync(AfterSync(t, order, ls, f), order, ls, again) == AfterSync(t, order, ls, f)
  {
    var t' := AfterSync(t, order, ls, f);
    SyncSettles(t, order, ls, f);
    SyncKeepsSound(t, order, ls, f);
    SnapshotAgreesOnAll(t', order, ls);
    NothingToDo(t', order, ls, Snapshot(t'.logs, order), again);
  }

  lemma {:induction false} OnlyItsPartsAreRead(t: Mrp, order: string, ls: seq<Requirement>, e0: map<nat, Log>,
          e1: map<nat, Log>, f: SyncFaults)
    requires forall i :: 0 <= i < |ls| ==> (ls[i].part in e0 <==> ls[i].part in e1)
    requires forall i :: 0 <= i < |ls| && ls[i].part in e0 ==> e0[ls[i].part] == e1[ls[i].part]
    ensures ReconciledAll(t, order, ls, e0, f) == ReconciledAll(t, order, ls, e1, f)
    decreases |ls|
  {
    if ls != [] && !Stops(order, ls[0], e0, f) {
      assert forall i :: 0 <= i < |ls[1..]| ==> ls[1..][i] == ls[i + 1];
      OnlyItsPartsAreRead(Reconciled(t, order, ls[0], e0, ls[0].part in f.lost), order, ls[1..], e0, e1, f);
    }
  }

  /** A table has one snapshot of the parts a pass looks at. */
  lemma SameSnapshot(t: Mrp, order: string, ls: seq<Requirement>, e0: map<nat, Log>, e1: map<nat, Log>)
    requires AgreesOnAll(t.logs, order, ls, e0) && AgreesOnAll(t.logs, order, ls, e1)
    ensures ReconciledAll(t, order, ls, e0, SYNCS) == ReconciledAll(t, order, ls, e1, SYNCS)
  {
    forall i | 0 <= i < |ls|
      ensures ls[i].part in e0 <==> ls[i].part in e1
      ensures ls[i].part in e0 ==> e0[ls[i].part] == e1[ls[i].part]
    {
      assert Agrees(t.logs, order, ls[i].part, e0) && Agrees(t.logs, order, ls[i].part, e1);
    }
    OnlyItsPartsAreRead(t, order, ls, e0, e1, SYNCS);
  }

  lemma SettledIsSkipped(t: Mrp, order: string, ls: seq<Requirement>, existing: map<nat, Log>)
    requires ls != [] && AgreesOnAll(t.logs, order, ls, existing) && Right(t.logs, order, ls[0])
    ensures ReconciledAll(t, order, ls, existing, SYNCS) == ReconciledAll(t, order, ls[1..], existing, SYNCS)
  {
    assert Agrees(t.logs, order, ls[0].part, existing);
    NoWriteIfRight(t.logs, order, ls[0], existing);
  }

  /** What a pass over ls would do from t, and what is left to do of it after a pass with faults f. */
  lemma {:induction false} RetryFinishes(t: Mrp, order: string, ls: seq<Requirement>, existing: map<nat, Log>,
          f: SyncFaults, later: map<nat, Log>)
    requires Sound(t) && DistinctParts(ls) && AgreesOnAll(t.logs, order, ls, existing) && f.lost == {}
    requires AgreesOnAll(ReconciledAll(t, order, ls, existing, f).logs, order, ls, later)
    ensures ReconciledAll(ReconciledAll(t, order, ls, existing, f), order, ls, later, SYNCS)
         == ReconciledAll(t, order, ls, existing, SYNCS)
    decreases |ls|
  {
    if ls == [] {
    } else if Stops(order, ls[0], existing, f) {
      SameSnapshot(t, order, ls, existing, later);
    } else {
      var t0 := Reconciled(t, order, ls[0], existing, false);
      ReconciledKeepsSound(t, order, ls[0], existing, false);
      AgreesAfterFirst(t, order, ls, existing, false);
      var t1 := ReconciledAll(t0, order, ls[1..], existing, f);
      assert t1 == ReconciledAll(t, order, ls, existing, f);
      RestAgrees(t1.logs, order, ls, later);
      RetryFinishes(t0, order, ls[1..], existing, f, later);
      FirstSettles(t, order, ls, existing, f);
      SettledIsSkipped(t1, order, ls, later);
      assert !Stops(order, ls[0], existing, SYNCS);
    }
  }

  lemma RestAgrees(logs: seq<Log>, order: string, ls: seq<Requirement>, existing: map<nat, Log>)
    requires ls != [] && AgreesOnAll(logs, order, ls, existing)
    ensures AgreesOnAll(logs, order, ls[1..], existing)
  {
    assert forall i :: 0 <= i < |ls[1..]| ==> ls[1..][i] == ls[i + 1];
  }

  /** A pass that broke off anywhere, followed by one that goes through, leaves the same table, the same ids and
      the same announcements, each made once, as one undisturbed pass. */
  lemma RetryIsAsGoodAsOnce(t: Mrp, order: string, ls: seq<Requirement>, f: SyncFaults)
    requires Sound(t) && DistinctParts(ls) && f.lost == {}
    ensures AfterSync(AfterSync(t, order, ls, f), order, ls, SYNCS) == AfterSync(t, order, ls, SYNCS)
  {
    if !f.readFails {
      var t1 := AfterSync(t, order, ls, f);
      SyncKeepsSound(t, order, ls, f);
      SnapshotAgreesOnAll(t, order, ls);
      SnapshotAgreesOnAll(t1, order, ls);
      RetryFinishes(t, order, ls, Snapshot(t.logs, order), f, Snapshot(t1.logs, order));
    }
  }

  // ---------------------------------------------------------------- announcements

  /** The shortages that had no log when the pass began, as announced to the deficit pool. */
  function Announced(order: string, ls: seq<Requirement>, existing: map<nat, Log>, lost: set<nat>): seq<Pool.Delivery> {
    if ls == [] then []
    else
      (if Wanted(ls[0]) != 0 && ls[0].part !in existing && ls[0].part !in lost
       then [Pool.Deficit(ls[0].sku, Wanted(ls[0]), order, 0)] else [])
      + Announced(order, ls[1..], existing, lost)
  }

  lemma {:induction false} ReconcilingAnnounces(t: Mrp, order: string, ls: seq<Requirement>, existing: map<nat, Log>,
          f: SyncFaults)
    requires NoneStops(order, ls, existing, f)
    ensures ReconciledAll(t, order, ls, existing, f).published == t.published + Announced(order, ls, existing, f.lost)
    decreases |ls|
  {
    if ls != [] {
      assert forall i :: 0 <= i < |ls[1..]| ==> ls[1..][i] == ls[i + 1];
      ReconcilingAnnounces(Reconciled(t, order, ls[0], existing, ls[0].part in f.lost), order, ls[1..], existing, f);
    }
  }

  function WantedOf(ls: seq<Requirement>, sku: string): int {
    if ls == [] then 0 else (if ls[0].sku == sku then Wanted(ls[0]) else 0) + WantedOf(ls[1..], sku)
  }

  lemma {:induction false} AnnouncedUnits(order: string, ls: seq<Requirement>, existing: map<nat, Log>, sku: string)
    requires forall i :: 0 <= i < |ls| ==> ls[i].part !in existing
    ensures Pool.Units(Announced(order, ls, existing, {}), sku) == WantedOf(ls, sku)
    ensures Pool.NonNegative(Announced(order, ls, existing, {}))
  {
    if ls != [] {
      assert forall i :: 0 <= i < |ls[1..]| ==> ls[1..][i] == ls[i + 1];
      AnnouncedUnits(order, ls[1..], existing, sku);
      var first := if Wanted(ls[0]) != 0 then [Pool.Deficit(ls[0].sku, Wanted(ls[0]), order, 0)] else [];
      Pool.SumAppend(Pool.UnitsOf(sku), first, Announced(order, ls[1..], existing, {}));
    }
  }

  /** The first pass for an order announces, of every SKU, exactly what is missing of it. */
  lemma FirstSyncAnnouncesTheShortage(t: Mrp, order: string, ls: seq<Requirement>, sku: string)
    requires SyncOk(t, order, ls, SYNCS)
    requires forall i :: 0 <= i < |ls| ==> LiveOf(t.logs, order, ls[i].part) == []
    ensures t.published <= AfterSync(t, order, ls, SYNCS).published
    ensures Pool.Units(AfterSync(t, order, ls, SYNCS).published, sku)
            == Pool.Units(t.published, sku) + WantedOf(ls, sku)
  {
    var existing := Snapshot(t.logs, order);
    forall i | 0 <= i < |ls|
      ensures ls[i].part !in existing
    {
      SnapshotReads(t.logs, order, ls[i].part);
    }
    ReconcilingAnnounces(t, order, ls, existing, SYNCS);
    AnnouncedUnits(order, ls, existing, sku);
    Pool.SumAppend(Pool.UnitsOf(sku), t.published, Announced(order, ls, existing, {}));
  }

  lemma FirstSyncAnnouncesPositive(t: Mrp, order: string, ls: seq<Requirement>)
    requires SyncOk(t, order, ls, SYNCS)
    requires forall i :: 0 <= i < |ls| ==> LiveOf(t.logs, order, ls[i].part) == []
    ensures t.published <= AfterSync(t, order, ls, SYNCS).published
    ensures Pool.NonNegative(AfterSync(t, order, ls, SYNCS).published[|t.published|..])
  {
    var existing := Snapshot(t.logs, order);
    forall i | 0 <= i < |ls|
      ensures ls[i].part !in existing
    {
      SnapshotReads(t.logs, order, ls[i].part);
    }
    ReconcilingAnnounces(t, order, ls, existing, SYNCS);
    AnnouncedUnits(order, ls, existing, "");
  }
}
