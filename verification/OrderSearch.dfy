/**
 The search behind the purchase orders an explosion counts: a text search over the order table by id, target build
 and status, newest first, one page at a time.
 */
module OrderSearch {
  import opened Sequences
  import opened Options
  import Buying = ProcurementModel

  /** An oversized page request falls back to the default page size. */
  const PAGE := 15

  function Digit(n: nat): char
    requires n < 10
  {
    "0123456789"[n]
  }

  function Decimal(n: nat): string {
    if n < 10 then [Digit(n)] else Decimal(n / 10) + [Digit(n % 10)]
  }

  function IdText(id: Buying.OrderId): string {
    "PO-" + Decimal(id.year) + "-" + Decimal(id.number)
  }

  function StatusText(s: Buying.OrderStatus): string {
    match s
    case Draft => "Draft"
    case Approved => "Approved"
    case InTransit => "In Transit"
    case Partial => "Partial"
    case Received => "Received"
    case Void => "Void"
    case OtherStatus(name) => name
  }

  function Folded(c: char): char {
    if 'A' <= c <= 'Z' then c - 'A' + 'a' else c
  }

  /** The LIKE operator: % stands for any text, _ for any character, and letters match in either case. */
  predicate Like(text: string, pattern: string)
    decreases |text| + |pattern|
  {
    if pattern == [] then text == []
    else if pattern[0] == '%' then Like(text, pattern[1..]) || (text != [] && Like(text[1..], pattern))
    else text != [] && (pattern[0] == '_' || Folded(pattern[0]) == Folded(text[0])) && Like(text[1..], pattern[1..])
  }

  predicate Contains(text: string, q: string) {
    Like(text, "%" + q + "%")
  }

  /** The rows newest first, and what the target_build column holds: None when the table has no such column, and no
      entry for a row in which it is null. No order written by the services has an entry. */
  datatype OrderTable = OrderTable(newestFirst: seq<Buying.OrderId>, targetBuilds: Option<map<Buying.OrderId, string>>)

  predicate Matches(orders: map<Buying.OrderId, Buying.PurchaseOrder>, builds: map<Buying.OrderId, string>,
                    id: Buying.OrderId, q: string)
    requires id in orders
  {
    || Contains(IdText(id), q)
    || (id in builds && Contains(builds[id], q))
    || Contains(StatusText(orders[id].status), q)
  }

  function Matching(orders: map<Buying.OrderId, Buying.PurchaseOrder>, builds: map<Buying.OrderId, string>,
                    ids: seq<Buying.OrderId>, q: string): seq<Buying.PurchaseOrder> {
    if ids == [] then []
    else
      (if ids[0] in orders && (q == [] || Matches(orders, builds, ids[0], q)) then [orders[ids[0]]] else [])
      + Matching(orders, builds, ids[1..], q)
  }

  function FirstPage(found: seq<Buying.PurchaseOrder>): seq<Buying.PurchaseOrder> {
    if |found| <= PAGE then found else found[..PAGE]
  }

  /** What an explosion counts for a model code. A search text refers to the target_build column, so without the
      column the search fails, and a search that fails is counted as no orders at all. */
  function Listed(orders: map<Buying.OrderId, Buying.PurchaseOrder>, t: OrderTable, q: string)
    : seq<Buying.PurchaseOrder>
  {
    if q != [] && t.targetBuilds.None? then []
    else FirstPage(Matching(orders, if t.targetBuilds.Some? then t.targetBuilds.value else map[], t.newestFirst, q))
  }

  lemma {:induction false} MatchingAppend(orders: map<Buying.OrderId, Buying.PurchaseOrder>,
          builds: map<Buying.OrderId, string>, a: seq<Buying.OrderId>, b: seq<Buying.OrderId>, q: string)
    ensures Matching(orders, builds, a + b, q) == Matching(orders, builds, a, q) + Matching(orders, builds, b, q)
  {
    if a == [] {
      EmptySums(b);
    } else {
      TailOfSum(a, b);
      MatchingAppend(orders, builds, a[1..], b, q);
    }
  }

  lemma {:induction false} MatchingReadsItsRows(orders: map<Buying.OrderId, Buying.PurchaseOrder>,
          after: map<Buying.OrderId, Buying.PurchaseOrder>, builds: map<Buying.OrderId, string>,
          ids: seq<Buying.OrderId>, q: string)
    requires forall id :: id in ids ==> id in orders && id in after && after[id] == orders[id]
    ensures Matching(after, builds, ids, q) == Matching(orders, builds, ids, q)
  {
    if ids != [] {
      MatchingReadsItsRows(orders, after, builds, ids[1..], q);
    }
  }

  /** None of the ids is found by the search text. */
  predicate Unfound(ids: seq<Buying.OrderId>, q: string) {
    && q != [] && !Contains(StatusText(Buying.Draft), q)
    && forall id :: id in ids ==> !Contains(IdText(id), q)
  }

  lemma {:induction false} UnfoundDrafts(orders: map<Buying.OrderId, Buying.PurchaseOrder>,
          builds: map<Buying.OrderId, string>, ids: seq<Buying.OrderId>, q: string)
    requires Unfound(ids, q)
    requires forall id :: id in ids ==> id in orders && orders[id].status == Buying.Draft && id !in builds
    ensures Matching(orders, builds, ids, q) == []
  {
    if ids != [] {
      UnfoundDrafts(orders, builds, ids[1..], q);
    }
  }

  /** The rows of before, and behind them no others. */
  ghost predicate IsTableOf(t: OrderTable, orders: map<Buying.OrderId, Buying.PurchaseOrder>) {
    && (forall id :: id in t.newestFirst <==> id in orders)
    && (t.targetBuilds.Some? ==> forall id :: id in t.targetBuilds.value ==> id in orders)
  }

  /** The new ids on top of the table. */
  function WithRows(t: OrderTable, news: seq<Buying.OrderId>): OrderTable {
    t.(newestFirst := news + t.newestFirst)
  }

  /** after has the orders of before unchanged, and the new ids as drafts. */
  ghost predicate AddsDrafts(before: map<Buying.OrderId, Buying.PurchaseOrder>,
                             after: map<Buying.OrderId, Buying.PurchaseOrder>, news: seq<Buying.OrderId>) {
    && (forall id :: id in before ==> id in after && after[id] == before[id])
    && (forall id :: id in news ==> id in after && id !in before && after[id].status == Buying.Draft)
  }

  /** New drafts do not change what is counted for a model code, as long as the table has no target_build column or
      neither their ids nor the word Draft contain the code. */
  lemma DraftsAreNotListed(before: map<Buying.OrderId, Buying.PurchaseOrder>,
          after: map<Buying.OrderId, Buying.PurchaseOrder>, t: OrderTable, news: seq<Buying.OrderId>, q: string)
    requires IsTableOf(t, before) && AddsDrafts(before, after, news)
    requires (q != [] && t.targetBuilds.None?) || Unfound(news, q)
    ensures Listed(after, WithRows(t, news), q) == Listed(before, t, q)
  {
    if t.targetBuilds.Some? {
      var builds := t.targetBuilds.value;
      MatchingAppend(after, builds, news, t.newestFirst, q);
      MatchingReadsItsRows(before, after, builds, t.newestFirst, q);
      UnfoundDrafts(after, builds, news, q);
      assert [] + Matching(before, builds, t.newestFirst, q) == Matching(before, builds, t.newestFirst, q);
    }
  }

  lemma {:induction false} FoundDrafts(orders: map<Buying.OrderId, Buying.PurchaseOrder>,
          builds: map<Buying.OrderId, string>, ids: seq<Buying.OrderId>, q: string)
    requires Contains(StatusText(Buying.Draft), q)
    requires forall id :: id in ids ==> id in orders && orders[id].status == Buying.Draft
    ensures |Matching(orders, builds, ids, q)| == |ids|
    ensures forall i :: 0 <= i < |ids| ==> Matching(orders, builds, ids, q)[i] == orders[ids[i]]
  {
    if ids != [] {
      FoundDrafts(orders, builds, ids[1..], q);
    }
  }

  /** A code that the word Draft contains finds every new draft; they come first on the page, and push older matches
      off it when it is full. */
  lemma DraftsAreListed(before: map<Buying.OrderId, Buying.PurchaseOrder>,
          after: map<Buying.OrderId, Buying.PurchaseOrder>, t: OrderTable, news: seq<Buying.OrderId>, q: string)
    requires IsTableOf(t, before) && AddsDrafts(before, after, news)
    requires t.targetBuilds.Some? && Contains(StatusText(Buying.Draft), q)
    ensures var found := Matching(after, t.targetBuilds.value, news, q);
            && |found| == |news| && (forall i :: 0 <= i < |news| ==> found[i] == after[news[i]])
            && Listed(after, WithRows(t, news), q)
               == FirstPage(found + Matching(before, t.targetBuilds.value, t.newestFirst, q))
  {
    var builds := t.targetBuilds.value;
    MatchingAppend(after, builds, news, t.newestFirst, q);
    MatchingReadsItsRows(before, after, builds, t.newestFirst, q);
    FoundDrafts(after, builds, news, q);
  }

  // ---------------------------------------------------------------- what the search finds

  /** Letters are folded by their codes: 65 to 90 go up by 32, and everything else stays. */
  lemma FoldedCodes(c: char)
    ensures Folded(c) as int == if 65 <= c as int <= 90 then c as int + 32 else c as int
  {
  }

  /** The id, the target build or the status: any of them is enough. */
  lemma MatchesByAny(orders: map<Buying.OrderId, Buying.PurchaseOrder>, builds: map<Buying.OrderId, string>,
                     id: Buying.OrderId, q: string)
    requires id in orders
    ensures Contains(IdText(id), q) || Contains(StatusText(orders[id].status), q) ==> Matches(orders, builds, id, q)
    ensures id in builds && Contains(builds[id], q) ==> Matches(orders, builds, id, q)
  {
  }

  /** A page holds the first fifteen of what is found. */
  lemma PageHoldsFifteen(found: seq<Buying.PurchaseOrder>)
    ensures |FirstPage(found)| == if |found| < 15 then |found| else 15
    ensures forall i :: 0 <= i < |FirstPage(found)| ==> FirstPage(found)[i] == found[i]
  {
  }

  predicate Plain(q: string) {
    forall i :: 0 <= i < |q| ==> q[i] != '%' && q[i] != '_'
  }

  /** q stands in text from position k on, in either case. */
  predicate StandsAt(text: string, q: string, k: nat) {
    k + |q| <= |text| && forall i :: 0 <= i < |q| ==> Folded(text[k + i]) == Folded(q[i])
  }

  lemma {:induction false} StartsWith(text: string, q: string)
    requires Plain(q)
    ensures Like(text, q + "%") <==> StandsAt(text, q, 0)
    decreases |q|
  {
    var pattern := q + "%";
    if q == [] {
      assert pattern == "%";
      AnythingGoes(text);
    } else {
      assert pattern[0] == q[0] && pattern[1..] == q[1..] + "%";
      if text != [] {
        StartsWith(text[1..], q[1..]);
        assert Like(text, pattern) <==> Folded(q[0]) == Folded(text[0]) && Like(text[1..], pattern[1..]);
        assert StandsAt(text, q, 0) <==> Folded(text[0]) == Folded(q[0]) && StandsAt(text[1..], q[1..], 0) by {
          assert forall i :: 0 < i < |q| ==> q[i] == q[1..][i - 1];
          assert forall i :: 0 < i < |text| ==> text[i] == text[1..][i - 1];
          assert forall i :: 0 <= i < |q[1..]| ==> q[1..][i] == q[i + 1];
          assert forall i :: 0 <= i < |text[1..]| ==> text[1..][i] == text[i + 1];
        }
      }
    }
  }

  lemma {:induction false} AnythingGoes(text: string)
    ensures Like(text, "%")
  {
    if text == [] {
      assert "%"[1..] == [];
    } else {
      AnythingGoes(text[1..]);
    }
  }

  lemma {:induction false} SomewhereLike(text: string, rest: string)
    ensures Like(text, "%" + rest) <==> exists k :: 0 <= k <= |text| && Like(text[k..], rest)
  {
    var pattern := "%" + rest;
    assert pattern[0] == '%' && pattern[1..] == rest && text[0..] == text;
    if text != [] {
      SomewhereLike(text[1..], rest);
      if Like(text[1..], pattern) {
        var k :| 0 <= k <= |text[1..]| && Like(text[1..][k..], rest);
        assert text[k + 1..] == text[1..][k..];
      }
      if k :| 0 < k <= |text| && Like(text[k..], rest) {
        assert text[k..] == text[1..][k - 1..];
      }
    }
  }

  /** A search text without wildcards finds a text exactly if it stands somewhere in it, in either case. */
  lemma ContainsIff(text: string, q: string)
    requires Plain(q)
    ensures Contains(text, q) <==> exists k :: 0 <= k <= |text| && StandsAt(text, q, k)
  {
    assert "%" + q + "%" == "%" + (q + "%");
    SomewhereLike(text, q + "%");
    forall k | 0 <= k <= |text|
      ensures Like(text[k..], q + "%") <==> StandsAt(text, q, k)
    {
      StartsWith(text[k..], q);
      assert forall i :: 0 <= i < |text[k..]| ==> text[k..][i] == text[k + i];
    }
  }

  function DigitValue(c: char): nat {
    if '0' <= c <= '9' then (c - '0') as nat else 0
  }

  function Value(digits: string): nat {
    if digits == [] then 0 else Value(digits[..|digits| - 1]) * 10 + DigitValue(digits[|digits| - 1])
  }

  /** The number of an id reads back from its digits. */
  lemma {:induction false} DecimalReads(n: nat)
    ensures Value(Decimal(n)) == n
    ensures forall i :: 0 <= i < |Decimal(n)| ==> '0' <= Decimal(n)[i] <= '9'
  {
    if n < 10 {
      assert [Digit(n)][..0] == [] && Value([Digit(n)]) == Value([]) * 10 + DigitValue(Digit(n));
    } else {
      DecimalReads(n / 10);
      var digits := Decimal(n);
      assert digits[..|digits| - 1] == Decimal(n / 10);
    }
  }
}
