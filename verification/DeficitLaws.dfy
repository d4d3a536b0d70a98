/**
 What one lock request guarantees: nothing it handles is lost, it takes the shortest prefix of
 the pool that is enough, and it works off a bounded amount of outstanding work.
 */
module DeficitLaws {
  import opened Sequences
  import opened DeficitPool

  // ---------------------------------------------------------------- conservation

  /** What is still waiting to be locked, sleeping, or dead-lettered. */
  function InSystem(f: Delivery -> int, b: Broker): int {
    Sum(f, b.pool) + Sum(f, b.inFlight) + Sum(f, b.deadLetter)
  }

  function Total(f: Delivery -> int, b: Broker): int {
    InSystem(f, b) + Sum(f, b.reserved)
  }

  function Spare(b: Broker, sku: string, qty: int, faults: Faults): int {
    Units(InHand(b, sku, qty, faults), sku) - qty
  }

  /** A request that does not consume only moves messages between pool, flight and dead letters. */
  lemma FailedLockLosesNothing(f: Delivery -> int, b: Broker, sku: string, qty: int, faults: Faults)
    requires OfBody(f) && !Consumes(b, sku, qty, faults)
    ensures InSystem(f, AfterLock(b, sku, qty, faults)) == InSystem(f, b)
    ensures AfterLock(b, sku, qty, faults).reserved == b.reserved
  {
    if !faults.dialFails {
      var got := InHand(b, sku, qty, faults);
      var mine, others := Matching(got, sku), Others(got, sku);
      SplitConserves(f, got, sku);
      RequeueConserves(f, mine);
      RequeueConserves(f, others);
      assert b.pool == got + b.pool[|got|..];
      SumAppend(f, got, b.pool[|got|..]);
      SumAppend(f, b.inFlight, Survivors(mine));
      SumAppend(f, b.inFlight + Survivors(mine), Survivors(others));
      SumAppend(f, b.deadLetter, Expired(mine));
      SumAppend(f, b.deadLetter + Expired(mine), Expired(others));
    }
  }

  /** The four queues after a consuming request. */
  lemma ConsumedQueues(b: Broker, sku: string, qty: int, faults: Faults)
    requires Consumes(b, sku, qty, faults)
    ensures var b', got := AfterLock(b, sku, qty, faults), InHand(b, sku, qty, faults);
            var spare := Spare(b, sku, qty, faults);
            && b'.pool == b.pool[|got|..] + (if spare > 0 then [Message(sku, spare)] else [])
            && b'.inFlight == b.inFlight + Survivors(Others(got, sku))
            && b'.reserved == b.reserved + (if faults.reserveFails then [] else [Message(sku, qty)])
            && b'.deadLetter == b.deadLetter + Expired(Others(got, sku))
            && b.pool == got + b.pool[|got|..]
  {
  }

  /** A consuming request takes the matched messages out and puts one remainder message back. */
  lemma ConsumingLockBalance(f: Delivery -> int, b: Broker, sku: string, qty: int, faults: Faults)
    requires OfBody(f) && Consumes(b, sku, qty, faults)
    ensures InSystem(f, AfterLock(b, sku, qty, faults))
         == InSystem(f, b) - Sum(f, Matching(InHand(b, sku, qty, faults), sku))
          + (if Spare(b, sku, qty, faults) > 0 then f(Message(sku, Spare(b, sku, qty, faults))) else 0)
    ensures Sum(f, AfterLock(b, sku, qty, faults).reserved)
         == Sum(f, b.reserved) + (if faults.reserveFails then 0 else f(Message(sku, qty)))
  {
    var got := InHand(b, sku, qty, faults);
    var others := Others(got, sku);
    ConsumedQueues(b, sku, qty, faults);
    SplitConserves(f, got, sku);
    RequeueConserves(f, others);
    SumAppend(f, b.inFlight, Survivors(others));
    SumAppend(f, b.deadLetter, Expired(others));
    SumAppend(f, got, b.pool[|got|..]);
    SumOrNot(f, b.pool[|got|..], Spare(b, sku, qty, faults) > 0, Message(sku, Spare(b, sku, qty, faults)));
    SumOrNot(f, b.reserved, !faults.reserveFails, Message(sku, qty));
  }

  lemma SumOrNot(f: Delivery -> int, s: seq<Delivery>, one: bool, d: Delivery)
    ensures Sum(f, s + (if one then [d] else [])) == Sum(f, s) + (if one then f(d) else 0)
    ensures Sum(f, s + (if one then [] else [d])) == Sum(f, s) + (if one then 0 else f(d))
  {
    SumAppend(f, s, [d]);
    EmptySums(s);
  }

  /** Units of every SKU are conserved by every exit, but for a reservation the broker refuses. */
  lemma LockConservesUnits(b: Broker, sku: string, qty: int, faults: Faults, k: string)
    ensures Total(UnitsOf(k), AfterLock(b, sku, qty, faults))
         == Total(UnitsOf(k), b)
          - (if Consumes(b, sku, qty, faults) && faults.reserveFails && k == sku then qty else 0)
  {
    BodyMeasures(k, 0, "");
    if Consumes(b, sku, qty, faults) {
      ConsumingLockBalance(UnitsOf(k), b, sku, qty, faults);
      SplitUnits(InHand(b, sku, qty, faults), sku, k);
    } else {
      FailedLockLosesNothing(UnitsOf(k), b, sku, qty, faults);
    }
  }

  /** Exactly when conservation fails: the matched messages are acknowledged before the reservation
      is published, so a refused publish destroys the requested quantity. */
  lemma UnitsLostIff(b: Broker, sku: string, qty: int, faults: Faults)
    ensures (forall k :: Total(UnitsOf(k), AfterLock(b, sku, qty, faults)) == Total(UnitsOf(k), b))
       <==> !(Consumes(b, sku, qty, faults) && faults.reserveFails && qty != 0)
  {
    forall k {
      LockConservesUnits(b, sku, qty, faults, k);
    }
    LockConservesUnits(b, sku, qty, faults, sku);
  }

  /** On every failing exit each message body survives with exactly its multiplicity. */
  lemma FailedLockKeepsEveryBody(b: Broker, sku: string, qty: int, faults: Faults,
                                 bodySku: string, bodyQty: int, orderId: string)
    requires !Consumes(b, sku, qty, faults)
    ensures InSystem(CopiesOf(bodySku, bodyQty, orderId), AfterLock(b, sku, qty, faults))
         == InSystem(CopiesOf(bodySku, bodyQty, orderId), b)
  {
    BodyMeasures(bodySku, bodyQty, orderId);
    FailedLockLosesNothing(CopiesOf(bodySku, bodyQty, orderId), b, sku, qty, faults);
  }

  // ---------------------------------------------------------------- exactness

  predicate Reaches(s: seq<Delivery>, sku: string, need: int) {
    exists k :: 0 <= k <= |s| && Units(s[..k], sku) >= need
  }

  lemma UnitsOfPrefix(s: seq<Delivery>, sku: string, k: nat)
    requires 0 < k <= |s|
    ensures Units(s[..k], sku) == UnitsOf(sku)(s[0]) + Units(s[1..][..k - 1], sku)
  {
    assert s[..k][1..] == s[1..][..k - 1];
  }

  /** The drain stops at the first prefix that is enough, and only then short of the end. */
  lemma {:induction false} DrainIsMinimal(s: seq<Delivery>, sku: string, need: int)
    requires need >= 1
    ensures forall k :: 0 <= k < Taken(s, sku, need) ==> Units(s[..k], sku) < need
    ensures Reaches(s, sku, need) <==> Units(s[..Taken(s, sku, need)], sku) >= need
    ensures Reaches(s, sku, need) ==>
              var n := Taken(s, sku, need);
              n > 0 && s[n - 1].Deficit? && s[n - 1].sku == sku && Fetches(s, sku, need) == n
    ensures !Reaches(s, sku, need) ==> Taken(s, sku, need) == |s|
  {
    if s == [] {
      assert forall k :: 0 <= k <= |s| ==> s[..k] == [];
    } else if Satisfies(s[0], sku, need) {
      UnitsOfPrefix(s, sku, 1);
      assert Units(s[..0], sku) == 0;
      assert Reaches(s, sku, need);
    } else {
      var rest, left := s[1..], Need(s[0], sku, need);
      DrainIsMinimal(rest, sku, left);
      var n := Taken(s, sku, need);
      forall k | 0 < k <= |s|
        ensures Units(s[..k], sku) >= need <==> Units(rest[..k - 1], sku) >= left
      {
        UnitsOfPrefix(s, sku, k);
      }
      assert Units(s[..0], sku) == 0;
      if Reaches(s, sku, need) {
        var k :| 0 <= k <= |s| && Units(s[..k], sku) >= need;
        assert 0 <= k - 1 <= |rest| && Units(rest[..k - 1], sku) >= left;
      }
      if Reaches(rest, sku, left) {
        assert Units(s[..n], sku) >= need;
      }
    }
  }

  /** Without faults, a positive request succeeds exactly when some prefix of the pool covers it. */
  lemma LockSucceedsIff(b: Broker, sku: string, qty: int)
    requires qty >= 1
    ensures LockOutcome(b, sku, qty, NO_FAULTS) ==
              if Reaches(b.pool, sku, qty) then Locked else InsufficientDeficit
  {
    DrainIsMinimal(b.pool, sku, qty);
  }

  lemma {:induction false} PrefixUnitsGrow(s: seq<Delivery>, sku: string, k: nat)
    requires NonNegative(s) && k <= |s|
    ensures 0 <= Units(s[..k], sku) <= Units(s, sku)
  {
    if k > 0 {
      UnitsOfPrefix(s, sku, k);
      PrefixUnitsGrow(s[1..], sku, k - 1);
    } else if s != [] {
      PrefixUnitsGrow(s[1..], sku, 0);
      assert s[..0] == [];
    }
  }

  /** With no negative quantity in the pool, that is when the pool's total covers it. */
  lemma LockSucceedsIffTotal(b: Broker, sku: string, qty: int)
    requires qty >= 1 && NonNegative(b.pool)
    ensures LockOutcome(b, sku, qty, NO_FAULTS) ==
              if Units(b.pool, sku) >= qty then Locked else InsufficientDeficit
  {
    LockSucceedsIff(b, sku, qty);
    assert b.pool[..|b.pool|] == b.pool;
    if Reaches(b.pool, sku, qty) {
      var k :| 0 <= k <= |b.pool| && Units(b.pool[..k], sku) >= qty;
      PrefixUnitsGrow(b.pool, sku, k);
    }
  }

  /** Whatever the signs, a total that covers the request is enough: the whole pool is one of its prefixes. */
  lemma CoveringTotalIsEnough(b: Broker, sku: string, qty: int)
    requires qty >= 1 && Units(b.pool, sku) >= qty
    ensures LockOutcome(b, sku, qty, NO_FAULTS) == Locked
  {
    LockSucceedsIff(b, sku, qty);
    assert b.pool[..|b.pool|] == b.pool;
  }

  /** No prefix of the pool holds more of the SKU than the whole pool, but for prefixes that hold nothing. */
  predicate NoPrefixExceeds(s: seq<Delivery>, sku: string) {
    forall k :: 0 <= k <= |s| ==> Units(s[..k], sku) <= Units(s, sku) || Units(s[..k], sku) <= 0
  }

  /** The total is the largest quantity that can be locked exactly when no prefix exceeds it. */
  lemma TotalIsLockableIff(b: Broker, sku: string)
    ensures (forall qty :: qty >= 1 ==> (LockOutcome(b, sku, qty, NO_FAULTS) == Locked <==> qty <= Units(b.pool, sku)))
       <==> NoPrefixExceeds(b.pool, sku)
  {
    if NoPrefixExceeds(b.pool, sku) {
      forall qty | qty >= 1
        ensures LockOutcome(b, sku, qty, NO_FAULTS) == Locked <==> qty <= Units(b.pool, sku)
      {
        LockSucceedsIff(b, sku, qty);
        if qty <= Units(b.pool, sku) {
          CoveringTotalIsEnough(b, sku, qty);
        }
      }
    } else {
      var k :| 0 <= k <= |b.pool| && Units(b.pool[..k], sku) > Units(b.pool, sku) && Units(b.pool[..k], sku) > 0;
      LockSucceedsIff(b, sku, Units(b.pool[..k], sku));
    }
  }

  lemma NonNegativePoolsDoNotExceed(s: seq<Delivery>, sku: string)
    requires NonNegative(s)
    ensures NoPrefixExceeds(s, sku)
  {
    forall k | 0 <= k <= |s|
      ensures Units(s[..k], sku) <= Units(s, sku)
    {
      PrefixUnitsGrow(s, sku, k);
    }
  }

  /** A negative message behind an enough prefix: the total does not cover the request, and it succeeds. */
  lemma TotalIsNotThePrefix()
    ensures var b := Broker([Deficit("a", 5, "", 0), Deficit("a", -4, "", 0)], [], [], []);
            Units(b.pool, "a") < 5 && LockOutcome(b, "a", 5, NO_FAULTS) == Locked
  {
    var b := Broker([Deficit("a", 5, "", 0), Deficit("a", -4, "", 0)], [], [], []);
    LockSucceedsIff(b, "a", 5);
    UnitsOfPrefix(b.pool, "a", 1);
    assert b.pool[1..][..0] == [];
    assert Units(b.pool[..1], "a") == 5;
    assert Reaches(b.pool, "a", 5);
    assert b.pool[1..] == [Deficit("a", -4, "", 0)];
    assert b.pool[1..][1..] == [];
    assert Units(b.pool[1..], "a") == -4;
  }

  /** A successful lock takes no more than it needs, reserves exactly the request, and the remainder
      it puts back is smaller than the last message it took. */
  lemma LockTakesTheLeast(b: Broker, sku: string, qty: int)
    requires qty >= 1 && LockOutcome(b, sku, qty, NO_FAULTS) == Locked
    ensures var n := |InHand(b, sku, qty, NO_FAULTS)|;
            && n > 0
            && Units(b.pool[..n], sku) >= qty
            && (forall k :: 0 <= k < n ==> Units(b.pool[..k], sku) < qty)
            && b.pool[n - 1].Deficit? && b.pool[n - 1].sku == sku
            && Spare(b, sku, qty, NO_FAULTS) < b.pool[n - 1].qty
    ensures AfterLock(b, sku, qty, NO_FAULTS).reserved == b.reserved + [Message(sku, qty)]
    ensures forall k :: InSystem(UnitsOf(k), AfterLock(b, sku, qty, NO_FAULTS))
                     == InSystem(UnitsOf(k), b) - (if k == sku then qty else 0)
  {
    DrainIsMinimal(b.pool, sku, qty);
    var n := |InHand(b, sku, qty, NO_FAULTS)|;
    assert b.pool[..n] == b.pool[..n - 1] + [b.pool[n - 1]];
    SumAppend(UnitsOf(sku), b.pool[..n - 1], [b.pool[n - 1]]);
    forall k {
      LockedBalance(b, sku, qty, k);
    }
  }

  lemma LockedBalance(b: Broker, sku: string, qty: int, k: string)
    requires LockOutcome(b, sku, qty, NO_FAULTS) == Locked
    ensures InSystem(UnitsOf(k), AfterLock(b, sku, qty, NO_FAULTS))
         == InSystem(UnitsOf(k), b) - (if k == sku then qty else 0)
  {
    LockConservesUnits(b, sku, qty, NO_FAULTS, k);
    SumAppend(UnitsOf(k), b.reserved, [Message(sku, qty)]);
  }

  lemma ReachesOneMore(s: seq<Delivery>, d: Delivery, sku: string, need: int)
    ensures Reaches(s + [d], sku, need) <==> Reaches(s, sku, need) || Units(s, sku) + UnitsOf(sku)(d) >= need
  {
    var s' := s + [d];
    assert s'[..|s'|] == s';
    SumAppend(UnitsOf(sku), s, [d]);
    assert forall k :: 0 <= k <= |s| ==> s'[..k] == s[..k];
    if Reaches(s', sku, need) {
      var k :| 0 <= k <= |s'| && Units(s'[..k], sku) >= need;
      assert k <= |s| || s'[..k] == s';
    }
    if Reaches(s, sku, need) {
      var k :| 0 <= k <= |s| && Units(s[..k], sku) >= need;
      assert Units(s'[..k], sku) >= need;
    }
  }

  /** A quantity published just before can be locked exactly when a prefix of the pool covered it anyway, or the
      pool's total of the SKU is not negative. The pair then leaves the units still in the system as they were,
      with the quantity added to the reservations. */
  lemma PublishThenLock(b: Broker, sku: string, qty: int, orderId: string)
    requires qty >= 1
    ensures var b0 := b.(pool := b.pool + [Deficit(sku, qty, orderId, 0)]);
            var b1 := AfterLock(b0, sku, qty, NO_FAULTS);
            && (LockOutcome(b0, sku, qty, NO_FAULTS) == Locked
                <==> Reaches(b.pool, sku, qty) || Units(b.pool, sku) >= 0)
            && (LockOutcome(b0, sku, qty, NO_FAULTS) == Locked ==>
                  && b1.reserved == b.reserved + [Message(sku, qty)]
                  && forall k :: InSystem(UnitsOf(k), b1) == InSystem(UnitsOf(k), b))
    ensures NonNegative(b.pool) ==> Units(b.pool, sku) >= 0
  {
    var d := Deficit(sku, qty, orderId, 0);
    var b0 := b.(pool := b.pool + [d]);
    if NonNegative(b.pool) {
      PrefixUnitsGrow(b.pool, sku, |b.pool|);
    }
    LockSucceedsIff(b0, sku, qty);
    ReachesOneMore(b.pool, d, sku, qty);
    if LockOutcome(b0, sku, qty, NO_FAULTS) == Locked {
      LockTakesTheLeast(b0, sku, qty);
      forall k
        ensures InSystem(UnitsOf(k), AfterLock(b0, sku, qty, NO_FAULTS)) == InSystem(UnitsOf(k), b)
      {
        SumAppend(UnitsOf(k), b.pool, [d]);
      }
    }
  }

  // ---------------------------------------------------------------- bounded work

  /** How many more times a message can be requeued before it is dead-lettered, plus one. */
  function Attempts(retry: int): nat {
    if retry >= MAX_RETRIES then 1 else MAX_RETRIES + 1 - retry
  }

  /** The work a message can still cause. A unit outweighs the fresh counter of a remainder message. */
  function Work(): Delivery -> int {
    (d: Delivery) => if d.Malformed? then 1 else 14 * d.qty + 2 * Attempts(d.retry)
  }

  function Potential(b: Broker): int {
    Sum(Work(), b.pool) + Sum(Work(), b.inFlight) + |b.inFlight|
  }

  lemma {:induction false} WorkIsPositive(s: seq<Delivery>)
    requires NonNegative(s)
    ensures Sum(Work(), s) >= |s|
  {
    if s != [] {
      WorkIsPositive(s[1..]);
    }
  }

  lemma {:induction false} RequeueWorksOff(s: seq<Delivery>)
    requires NonNegative(s) && forall d :: d in s ==> d.Deficit?
    ensures Sum(Work(), Survivors(s)) + |Survivors(s)| + |s| <= Sum(Work(), s)
    ensures NonNegative(Survivors(s))
  {
    if s != [] {
      RequeueWorksOff(s[1..]);
      SumAppend(Work(), if Retries(s[0]) then [Bump(s[0])] else [], Survivors(s[1..]));
    }
  }

  lemma {:induction false} SplitWork(s: seq<Delivery>, sku: string)
    ensures Sum(Work(), Matching(s, sku)) + Sum(Work(), Others(s, sku))
          + (|s| - |Matching(s, sku)| - |Others(s, sku)|) == Sum(Work(), s)
    ensures |Matching(s, sku)| + |Others(s, sku)| <= |s|
    ensures forall d :: d in Matching(s, sku) ==> d.Deficit? && d.sku == sku && d in s
    ensures forall d :: d in Others(s, sku) ==> d.Deficit? && d in s
  {
    if s != [] {
      SplitWork(s[1..], sku);
      SumAppend(Work(), if s[0].Deficit? && s[0].sku == sku then [s[0]] else [], Matching(s[1..], sku));
      SumAppend(Work(), if s[0].Deficit? && s[0].sku != sku then [s[0]] else [], Others(s[1..], sku));
    }
  }

  lemma {:induction false} WorkOfMatches(s: seq<Delivery>, sku: string)
    requires forall d :: d in s ==> d.Deficit? && d.sku == sku
    ensures Sum(Work(), s) >= 14 * Units(s, sku) + 2 * |s|
  {
    if s != [] {
      WorkOfMatches(s[1..], sku);
    }
  }

  lemma FailedLockWorksOff(b: Broker, sku: string, qty: int, faults: Faults)
    requires NonNegative(b.pool) && NonNegative(b.inFlight)
    requires !faults.dialFails && !Consumes(b, sku, qty, faults)
    ensures var b' := AfterLock(b, sku, qty, faults);
            && Potential(b') + |InHand(b, sku, qty, faults)| <= Potential(b)
            && NonNegative(b'.pool) && NonNegative(b'.inFlight)
  {
    var got := InHand(b, sku, qty, faults);
    var mine, others := Matching(got, sku), Others(got, sku);
    var rest := b.pool[|got|..];
    assert b.pool == got + rest;
    SumAppend(Work(), got, rest);
    SplitWork(got, sku);
    RequeueWorksOff(mine);
    RequeueWorksOff(others);
    SumAppend(Work(), b.inFlight, Survivors(mine));
    SumAppend(Work(), b.inFlight + Survivors(mine), Survivors(others));
  }

  lemma RemainderWork(rest: seq<Delivery>, sku: string, spare: int)
    requires NonNegative(rest)
    ensures var back := if spare > 0 then [Message(sku, spare)] else [];
            NonNegative(rest + back) && (spare >= 0 ==> Sum(Work(), rest + back) <= Sum(Work(), rest) + 14 * spare + 12)
  {
    var back := if spare > 0 then [Message(sku, spare)] else [];
    SumAppend(Work(), rest, back);
    assert Sum(Work(), back) == if spare > 0 then 14 * spare + 12 else 0;
  }

  lemma ConsumedWork(b: Broker, sku: string, qty: int, faults: Faults)
    requires qty >= 1 && Consumes(b, sku, qty, faults)
    ensures Sum(Work(), Matching(InHand(b, sku, qty, faults), sku)) >= 14 * (Spare(b, sku, qty, faults) + qty) + 2
  {
    var mine := Matching(InHand(b, sku, qty, faults), sku);
    SplitWork(InHand(b, sku, qty, faults), sku);
    SplitUnits(InHand(b, sku, qty, faults), sku, sku);
    WorkOfMatches(mine, sku);
    assert mine != [];
  }

  lemma OthersWorkOff(b: Broker, got: seq<Delivery>, sku: string)
    requires NonNegative(got) && NonNegative(b.inFlight)
    ensures var others := Others(got, sku);
            var later := b.inFlight + Survivors(others);
            && NonNegative(later)
            && Sum(Work(), later) + |later| + Sum(Work(), Matching(got, sku))
               <= Sum(Work(), b.inFlight) + |b.inFlight| + Sum(Work(), got)
  {
    SplitWork(got, sku);
    RequeueWorksOff(Others(got, sku));
    SumAppend(Work(), b.inFlight, Survivors(Others(got, sku)));
  }

  lemma ConsumingLockWorksOff(b: Broker, sku: string, qty: int, faults: Faults)
    requires qty >= 1 && NonNegative(b.pool) && NonNegative(b.inFlight)
    requires Consumes(b, sku, qty, faults)
    ensures var b' := AfterLock(b, sku, qty, faults);
            Potential(b') < Potential(b) && NonNegative(b'.pool) && NonNegative(b'.inFlight)
  {
    var got := InHand(b, sku, qty, faults);
    var rest := b.pool[|got|..];
    assert b.pool == got + rest;
    SumAppend(Work(), got, rest);
    OthersWorkOff(b, got, sku);
    ConsumedWork(b, sku, qty, faults);
    RemainderWork(rest, sku, Spare(b, sku, qty, faults));
  }

  /** Every request that fetches something strictly reduces the work left. The remainder message
      comes back with a fresh counter, which the units it gave up pay for. */
  lemma LockWorksOff(b: Broker, sku: string, qty: int, faults: Faults)
    requires qty >= 1 && NonNegative(b.pool) && NonNegative(b.inFlight)
    requires !faults.dialFails && InHand(b, sku, qty, faults) != []
    ensures var b' := AfterLock(b, sku, qty, faults);
            Potential(b') < Potential(b) && NonNegative(b'.pool) && NonNegative(b'.inFlight)
  {
    if Consumes(b, sku, qty, faults) {
      ConsumingLockWorksOff(b, sku, qty, faults);
    } else {
      FailedLockWorksOff(b, sku, qty, faults);
    }
  }
}
