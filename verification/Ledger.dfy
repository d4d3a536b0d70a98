/**
 The inventory ledger. A new entry continues from the latest balance stored for its SKU, where latest
 means greatest creation time and, among equal times, greatest id.
 */
module Ledger {
  import opened Sequences
  import opened Options

  datatype Entry = Entry(sku: string, change: int, balance: int, createdAt: nat, id: nat)

  datatype Write = Write(sku: string, change: int, createdAt: nat, id: nat)

  predicate Later(a: Entry, b: Entry) {
    a.createdAt > b.createdAt || (a.createdAt == b.createdAt && a.id > b.id)
  }

  function Latest(es: seq<Entry>, sku: string): (r: Option<Entry>)
    ensures r.Some? ==> r.value in es && r.value.sku == sku
  {
    if es == [] then None
    else
      var best, e := Latest(es[..|es| - 1], sku), es[|es| - 1];
      if e.sku == sku && (best.None? || Later(e, best.value)) then Some(e) else best
  }

  function Balance(es: seq<Entry>, sku: string): int {
    if Latest(es, sku).None? then 0 else Latest(es, sku).value.balance
  }

  function Recorded(es: seq<Entry>, w: Write): seq<Entry> {
    es + [Entry(w.sku, w.change, Balance(es, w.sku) + w.change, w.createdAt, w.id)]
  }

  function RecordedAll(es: seq<Entry>, ws: seq<Write>): seq<Entry>
    decreases |ws|
  {
    if ws == [] then es else RecordedAll(Recorded(es, ws[0]), ws[1..])
  }

  function Changes(es: seq<Entry>, sku: string): int {
    if es == [] then 0 else (if es[0].sku == sku then es[0].change else 0) + Changes(es[1..], sku)
  }

  /** The write is later than everything its SKU already has. */
  predicate Newest(es: seq<Entry>, w: Write) {
    Latest(es, w.sku).None? || Later(Entry(w.sku, w.change, 0, w.createdAt, w.id), Latest(es, w.sku).value)
  }

  predicate InOrder(es: seq<Entry>, ws: seq<Write>)
    decreases |ws|
  {
    ws == [] || (Newest(es, ws[0]) && InOrder(Recorded(es, ws[0]), ws[1..]))
  }

  /** The latest entry of a SKU is one of its entries, and none of its entries is from a later instant, or from the same
      instant with a greater id. */
  lemma {:induction false} LatestIsGreatest(es: seq<Entry>, sku: string)
    ensures Latest(es, sku).None? <==> forall e :: e in es ==> e.sku != sku
    ensures Latest(es, sku).Some? ==>
              var last := Latest(es, sku).value;
              && last in es && last.sku == sku
              && forall e :: e in es && e.sku == sku ==>
                   e.createdAt < last.createdAt || (e.createdAt == last.createdAt && e.id <= last.id)
  {
    if es != [] {
      var before, e := es[..|es| - 1], es[|es| - 1];
      LatestIsGreatest(before, sku);
      assert es == before + [e];
    }
  }

  lemma LatestAppend(es: seq<Entry>, e: Entry, sku: string)
    ensures Latest(es + [e], sku) ==
              if e.sku == sku && (Latest(es, sku).None? || Later(e, Latest(es, sku).value)) then Some(e)
              else Latest(es, sku)
  {
    assert (es + [e])[..|es|] == es;
  }

  lemma {:induction false} ChangesAppend(es: seq<Entry>, e: Entry, sku: string)
    ensures Changes(es + [e], sku) == Changes(es, sku) + (if e.sku == sku then e.change else 0)
  {
    if es == [] {
      assert es + [e] == [e];
    } else {
      TailOfSum(es, [e]);
      ChangesAppend(es[1..], e, sku);
    }
  }

  /** A write that is the newest of its SKU moves that SKU's balance by its change; any other moves no balance. */
  lemma RecordMovesBalance(es: seq<Entry>, w: Write, sku: string)
    ensures Balance(Recorded(es, w), sku) ==
              Balance(es, sku) + (if sku == w.sku && Newest(es, w) then w.change else 0)
  {
    LatestAppend(es, Entry(w.sku, w.change, Balance(es, w.sku) + w.change, w.createdAt, w.id), sku);
  }

  lemma {:induction false} RecordedAllExtends(es: seq<Entry>, ws: seq<Write>)
    ensures |RecordedAll(es, ws)| == |es| + |ws|
    ensures RecordedAll(es, ws)[..|es|] == es
    decreases |ws|
  {
    if ws != [] {
      RecordedAllExtends(Recorded(es, ws[0]), ws[1..]);
      var all := RecordedAll(es, ws);
      assert all[..|es|] == all[..|es| + 1][..|es|];
    }
  }

  lemma ChangesOfSlice(all: seq<Entry>, lo: nat, hi: nat, sku: string)
    requires lo < hi <= |all|
    ensures Changes(all[lo..hi], sku) ==
              (if all[lo].sku == sku then all[lo].change else 0) + Changes(all[lo + 1..hi], sku)
  {
    assert all[lo..hi][1..] == all[lo + 1..hi];
  }

  /** The i-th entry after the ledger es carries es's balance for its SKU plus all its changes up to itself. */
  predicate Continues(es: seq<Entry>, all: seq<Entry>, i: nat) {
    && |es| + i < |all|
    && var e := all[|es| + i];
       e.balance == Balance(es, e.sku) + Changes(all[|es|..|es| + i + 1], e.sku)
  }

  lemma ContinuesPastFirst(es: seq<Entry>, w: Write, all: seq<Entry>, i: nat)
    requires Newest(es, w) && |es| < |all| && all[|es|] == Recorded(es, w)[|es|]
    requires i == 0 || Continues(Recorded(es, w), all, i - 1)
    ensures Continues(es, all, i)
  {
    var n := |es|;
    var sku := all[n + i].sku;
    ChangesOfSlice(all, n, n + i + 1, sku);
    if i == 0 {
      assert all[n + 1..n + 1] == [];
    } else {
      RecordMovesBalance(es, w, sku);
    }
  }

  /** Starting from any ledger, the running balance of each new entry is the balance the ledger started with
      plus all changes recorded for its SKU since, itself included. */
  lemma {:induction false} RunningBalances(es: seq<Entry>, ws: seq<Write>, i: nat)
    requires InOrder(es, ws) && i < |ws|
    ensures |RecordedAll(es, ws)| == |es| + |ws|
    ensures var all := RecordedAll(es, ws);
            var e := all[|es| + i];
            e.sku == ws[i].sku && e.change == ws[i].change && Continues(es, all, i)
    decreases |ws|
  {
    var all, es', n := RecordedAll(es, ws), Recorded(es, ws[0]), |es|;
    RecordedAllExtends(es', ws[1..]);
    assert all[n] == all[..n + 1][n] == es'[n];
    if i > 0 {
      RunningBalances(es', ws[1..], i - 1);
    }
    ContinuesPastFirst(es, ws[0], all, i);
  }

  /** So the balance a later reader sees is the starting balance plus everything recorded. */
  lemma {:induction false} BalanceIsSumOfChanges(es: seq<Entry>, ws: seq<Write>, sku: string)
    requires InOrder(es, ws)
    ensures |RecordedAll(es, ws)| == |es| + |ws|
    ensures Balance(RecordedAll(es, ws), sku) == Balance(es, sku) + Changes(RecordedAll(es, ws)[|es|..], sku)
    decreases |ws|
  {
    var all, n := RecordedAll(es, ws), |es|;
    RecordedAllExtends(es, ws);
    if ws == [] {
      assert all[n..] == [];
    } else {
      var es' := Recorded(es, ws[0]);
      assert all[n] == es'[n] by {
        RecordedAllExtends(es', ws[1..]);
        assert all[n] == all[..n + 1][n] == es'[n];
      }
      BalanceIsSumOfChanges(es', ws[1..], sku);
      RecordMovesBalance(es, ws[0], sku);
      assert Changes(all[n..], sku) == (if all[n].sku == sku then all[n].change else 0)
          + Changes(all[n + 1..], sku) by {
        assert all[n..] == all[n..|all|] && all[n + 1..] == all[n + 1..|all|];
        ChangesOfSlice(all, n, |all|, sku);
      }
    }
  }

  /** Two entries of one SKU in the same instant can come back in the wrong order: the third entry continues
      from the first, and the second's change is lost from the running balance. */
  lemma TiedEntriesLoseAChange()
    ensures var es := RecordedAll([], [Write("a", 10, 1, 2), Write("a", 5, 1, 1), Write("a", 1, 2, 3)]);
            es[2].balance == 11 && Changes(es, "a") == 16
  {
    var w0, w1, w2 := Write("a", 10, 1, 2), Write("a", 5, 1, 1), Write("a", 1, 2, 3);
    var e0: seq<Entry> := [];
    var e1 := Recorded(e0, w0);
    var e2 := Recorded(e1, w1);
    var e3 := Recorded(e2, w2);
    RecordMovesBalance(e0, w0, "a");
    LatestAppend(e0, e1[0], "a");
    LatestAppend(e1, e2[1], "a");
    assert [w0, w1, w2][1..] == [w1, w2] && [w1, w2][1..] == [w2] && [w2][1..] == [];
    assert RecordedAll(e3, []) == e3;
    assert RecordedAll(e2, [w2]) == e3;
    assert RecordedAll(e1, [w1, w2]) == e3;
    assert RecordedAll(e0, [w0, w1, w2]) == e3;
    ChangesAppend(e0, e1[0], "a");
    ChangesAppend(e1, e2[1], "a");
    ChangesAppend(e2, e3[2], "a");
  }
}
