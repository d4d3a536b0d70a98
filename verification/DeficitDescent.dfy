/**
 The same termination argument read as a descent: every effective request lowers the triple of units, tries left
 and malformed messages, compared lexicographically.
 */
module DeficitDescent {
  import opened DeficitPool
  import opened DeficitLaws

  function Quantity(): Delivery -> int {
    (d: Delivery) => if d.Deficit? then d.qty else 0
  }

  function TriesLeft(): Delivery -> int {
    (d: Delivery) => if d.Deficit? then Attempts(d.retry) else 0
  }

  function Junk(): Delivery -> int {
    (d: Delivery) => if d.Malformed? then 1 else 0
  }

  /** What waits in the pool and in flight. */
  function Waiting(f: Delivery -> int, b: Broker): int {
    Sum(f, b.pool) + Sum(f, b.inFlight)
  }

  predicate Lower(b': Broker, b: Broker) {
    || Waiting(Quantity(), b') < Waiting(Quantity(), b)
    || (Waiting(Quantity(), b') == Waiting(Quantity(), b)
        && (|| Waiting(TriesLeft(), b') < Waiting(TriesLeft(), b)
            || (Waiting(TriesLeft(), b') == Waiting(TriesLeft(), b) && Waiting(Junk(), b') < Waiting(Junk(), b))))
  }

  lemma {:induction false} NothingNegative(s: seq<Delivery>)
    requires NonNegative(s)
    ensures Sum(Quantity(), s) >= 0 && Sum(TriesLeft(), s) >= 0 && Sum(Junk(), s) >= 0
  {
    if s != [] {
      NothingNegative(s[1..]);
    }
  }

  /** Splitting a batch leaves the malformed messages out and loses nothing else. */
  lemma {:induction false} SplitTries(s: seq<Delivery>, sku: string)
    ensures Sum(TriesLeft(), Matching(s, sku)) + Sum(TriesLeft(), Others(s, sku)) == Sum(TriesLeft(), s)
    ensures |Matching(s, sku)| + |Others(s, sku)| + Sum(Junk(), s) == |s|
    ensures Sum(Junk(), Matching(s, sku)) == 0 == Sum(Junk(), Others(s, sku))
  {
    if s != [] {
      SplitTries(s[1..], sku);
      SumAppend(TriesLeft(), if s[0].Deficit? && s[0].sku == sku then [s[0]] else [], Matching(s[1..], sku));
      SumAppend(TriesLeft(), if s[0].Deficit? && s[0].sku != sku then [s[0]] else [], Others(s[1..], sku));
      SumAppend(Junk(), if s[0].Deficit? && s[0].sku == sku then [s[0]] else [], Matching(s[1..], sku));
      SumAppend(Junk(), if s[0].Deficit? && s[0].sku != sku then [s[0]] else [], Others(s[1..], sku));
    }
  }

  /** Requeueing costs every message a try, and its expired messages all that was left to them. */
  lemma {:induction false} RequeueCostsTries(s: seq<Delivery>)
    requires NonNegative(s) && forall d :: d in s ==> d.Deficit?
    ensures Sum(Quantity(), Survivors(s)) <= Sum(Quantity(), s)
    ensures Sum(TriesLeft(), Survivors(s)) + |s| <= Sum(TriesLeft(), s)
    ensures Sum(Junk(), Survivors(s)) == 0 == Sum(Junk(), s)
  {
    if s != [] {
      RequeueCostsTries(s[1..]);
      var first := if Retries(s[0]) then [Bump(s[0])] else [];
      SumAppend(Quantity(), first, Survivors(s[1..]));
      SumAppend(TriesLeft(), first, Survivors(s[1..]));
      SumAppend(Junk(), first, Survivors(s[1..]));
    }
  }

  lemma {:induction false} MatchedQuantity(s: seq<Delivery>, sku: string)
    ensures Sum(Quantity(), Matching(s, sku)) == Units(s, sku)
    ensures Sum(Quantity(), Matching(s, sku)) + Sum(Quantity(), Others(s, sku)) == Sum(Quantity(), s)
  {
    if s != [] {
      MatchedQuantity(s[1..], sku);
      SumAppend(Quantity(), if s[0].Deficit? && s[0].sku == sku then [s[0]] else [], Matching(s[1..], sku));
      SumAppend(Quantity(), if s[0].Deficit? && s[0].sku != sku then [s[0]] else [], Others(s[1..], sku));
    }
  }

  /** What requeueing a whole batch, split by SKU, leaves of it. */
  lemma BatchCostsTries(got: seq<Delivery>, sku: string)
    requires NonNegative(got)
    ensures var back := Survivors(Matching(got, sku)) + Survivors(Others(got, sku));
            && Sum(Quantity(), back) <= Sum(Quantity(), got)
            && Sum(TriesLeft(), back) + |got| <= Sum(TriesLeft(), got) + Sum(Junk(), got)
            && Sum(Junk(), back) == 0
  {
    var mine, others := Matching(got, sku), Others(got, sku);
    SplitWork(got, sku);
    SplitTries(got, sku);
    MatchedQuantity(got, sku);
    RequeueCostsTries(mine);
    RequeueCostsTries(others);
    SumAppend(Quantity(), Survivors(mine), Survivors(others));
    SumAppend(TriesLeft(), Survivors(mine), Survivors(others));
    SumAppend(Junk(), Survivors(mine), Survivors(others));
  }

  lemma WaitingSplit(f: Delivery -> int, b: Broker, n: nat, back: seq<Delivery>)
    requires n <= |b.pool|
    ensures Waiting(f, b) == Sum(f, b.pool[..n]) + Sum(f, b.pool[n..]) + Sum(f, b.inFlight)
    ensures Sum(f, b.inFlight + back) == Sum(f, b.inFlight) + Sum(f, back)
  {
    assert b.pool == b.pool[..n] + b.pool[n..];
    SumAppend(f, b.pool[..n], b.pool[n..]);
    SumAppend(f, b.inFlight, back);
  }

  lemma {:induction false} JunkIsCounted(s: seq<Delivery>)
    ensures 0 <= Sum(Junk(), s) <= |s|
  {
    if s != [] {
      JunkIsCounted(s[1..]);
    }
  }

  lemma FailedRequestDescends(b: Broker, sku: string, qty: int, faults: Faults)
    requires NonNegative(b.pool) && !faults.dialFails && !Consumes(b, sku, qty, faults)
    requires InHand(b, sku, qty, faults) != []
    ensures Lower(AfterLock(b, sku, qty, faults), b)
  {
    var got := InHand(b, sku, qty, faults);
    var mine, others := Survivors(Matching(got, sku)), Survivors(Others(got, sku));
    assert got == b.pool[..|got|];
    assert b.inFlight + mine + others == b.inFlight + (mine + others);
    WaitingSplit(Quantity(), b, |got|, mine + others);
    WaitingSplit(TriesLeft(), b, |got|, mine + others);
    WaitingSplit(Junk(), b, |got|, mine + others);
    BatchCostsTries(got, sku);
    JunkIsCounted(got);
  }

  lemma RemainderQuantity(rest: seq<Delivery>, sku: string, spare: int)
    requires spare >= 0
    ensures Sum(Quantity(), rest + (if spare > 0 then [Message(sku, spare)] else [])) == Sum(Quantity(), rest) + spare
  {
    var back := if spare > 0 then [Message(sku, spare)] else [];
    SumAppend(Quantity(), rest, back);
    assert Sum(Quantity(), back) == spare;
  }

  lemma OthersKeepQuantity(got: seq<Delivery>, sku: string)
    requires NonNegative(got)
    ensures Sum(Quantity(), Survivors(Others(got, sku))) <= Sum(Quantity(), Others(got, sku))
  {
    SplitWork(got, sku);
    RequeueCostsTries(Others(got, sku));
  }

  lemma ConsumingRequestDescends(b: Broker, sku: string, qty: int, faults: Faults)
    requires qty >= 1 && NonNegative(b.pool) && Consumes(b, sku, qty, faults)
    ensures Lower(AfterLock(b, sku, qty, faults), b)
  {
    var got := InHand(b, sku, qty, faults);
    var rest, others := b.pool[|got|..], Others(got, sku);
    assert got == b.pool[..|got|];
    WaitingSplit(Quantity(), b, |got|, Survivors(others));
    RemainderQuantity(rest, sku, Spare(b, sku, qty, faults));
    MatchedQuantity(got, sku);
    OthersKeepQuantity(got, sku);
  }

  /** Units first, then tries, then malformed messages: the remainder message brings its tries back, but only
      where units were reserved. None of the three is ever negative. */
  lemma RequestDescends(b: Broker, sku: string, qty: int, faults: Faults)
    requires qty >= 1 && NonNegative(b.pool) && NonNegative(b.inFlight)
    requires !faults.dialFails && InHand(b, sku, qty, faults) != []
    ensures Lower(AfterLock(b, sku, qty, faults), b)
    ensures Waiting(Quantity(), b) >= 0 && Waiting(TriesLeft(), b) >= 0 && Waiting(Junk(), b) >= 0
  {
    NothingNegative(b.pool);
    NothingNegative(b.inFlight);
    if Consumes(b, sku, qty, faults) {
      ConsumingRequestDescends(b, sku, qty, faults);
    } else {
      FailedRequestDescends(b, sku, qty, faults);
    }
  }

  /** The retries alone would not do: a request that succeeds can raise the tries left. */
  lemma TriesAloneCanRise()
    ensures var b := Broker([Deficit("A", 2, "o", 5)], [], [], []);
            var b' := AfterLock(b, "A", 1, NO_FAULTS);
            LockOutcome(b, "A", 1, NO_FAULTS) == Locked && Waiting(TriesLeft(), b') > Waiting(TriesLeft(), b)
  {
    var d := Deficit("A", 2, "o", 5);
    var b := Broker([d], [], [], []);
    assert [d][1..] == [] && [d][..1] == [d];
    assert Sum(UnitsOf("A"), [d]) == UnitsOf("A")(d) + Sum(UnitsOf("A"), []);
    assert InHand(b, "A", 1, NO_FAULTS) == [d] && Others([d], "A") == [] && Survivors([]) == [];
    var b' := AfterLock(b, "A", 1, NO_FAULTS);
    assert b'.pool == [Message("A", 1)] && b'.inFlight == [];
    assert b'.pool[1..] == [];
    assert Waiting(TriesLeft(), b) == TriesLeft()(d) && Waiting(TriesLeft(), b') == TriesLeft()(Message("A", 1));
  }
}
