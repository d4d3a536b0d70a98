/**
 What a lock request answers and how many messages it takes, with any fault; and what counting message bodies means.
 */
module DeficitAnswers {
  import opened Sequences
  import opened Options
  import opened DeficitPool
  import opened DeficitLaws

  /** n deliveries are the fewest that cover the need. */
  ghost predicate IsLeastCovering(s: seq<Delivery>, sku: string, need: int, n: nat) {
    n <= |s| && Units(s[..n], sku) >= need && forall k :: 0 <= k < n ==> Units(s[..k], sku) < need
  }

  /** The drain makes as many fetches as the fewest deliveries that cover the request, or one more than the pool holds,
      to see it empty. */
  lemma FetchesMade(s: seq<Delivery>, sku: string, qty: int, n: nat)
    requires qty >= 1
    ensures IsLeastCovering(s, sku, qty, n) ==> Fetches(s, sku, qty) == Taken(s, sku, qty) == n
    ensures !Reaches(s, sku, qty) ==> Taken(s, sku, qty) == |s| && Fetches(s, sku, qty) == |s| + 1
  {
    DrainIsMinimal(s, sku, qty);
    if !Reaches(s, sku, qty) {
      AllFetched(s, sku, qty);
    }
  }

  lemma {:induction false} AllFetched(s: seq<Delivery>, sku: string, need: int)
    ensures Fetches(s, sku, need) == Taken(s, sku, need) + 1 || Units(s[..Taken(s, sku, need)], sku) >= need
  {
    if s != [] {
      if Satisfies(s[0], sku, need) {
        UnitsOfPrefix(s, sku, 1);
        assert s[1..][..0] == [];
      } else {
        AllFetched(s[1..], sku, Need(s[0], sku, need));
        UnitsOfPrefix(s, sku, Taken(s, sku, need));
      }
    }
  }

  /** The broker fails the request before it has what it needs: at dialling, or at one of the fetches it makes. */
  predicate DrainFails(b: Broker, sku: string, qty: int, faults: Faults) {
    faults.dialFails || (faults.fetchFailsAt.Some? && faults.fetchFailsAt.value < Fetches(b.pool, sku, qty))
  }

  /** A positive request is locked exactly if nothing fails and a prefix of the pool covers it, lacks deficit exactly if
      the drain goes through and no prefix does, and is a broker error otherwise. */
  lemma LockAnswers(b: Broker, sku: string, qty: int, faults: Faults)
    requires qty >= 1
    ensures LockOutcome(b, sku, qty, faults) == Locked <==>
              !DrainFails(b, sku, qty, faults) && Reaches(b.pool, sku, qty) && !faults.reserveFails
    ensures LockOutcome(b, sku, qty, faults) == InsufficientDeficit <==>
              !DrainFails(b, sku, qty, faults) && !Reaches(b.pool, sku, qty)
  {
    DrainIsMinimal(b.pool, sku, qty);
  }

  /** What it takes from the front of the pool: the messages before the fetch that fails, or the fewest that cover the
      request, or all. Behind the rest goes what is left over, if the request is covered and something is. */
  lemma LockTakes(b: Broker, sku: string, qty: int, faults: Faults, n: nat)
    requires qty >= 1
    requires if faults.dialFails then n == 0
             else if DrainFails(b, sku, qty, faults) then n == faults.fetchFailsAt.value
             else if Reaches(b.pool, sku, qty) then IsLeastCovering(b.pool, sku, qty, n)
             else n == |b.pool|
    ensures n <= |b.pool|
    ensures var covered := !DrainFails(b, sku, qty, faults) && Reaches(b.pool, sku, qty);
            var spare := Units(b.pool[..n], sku) - qty;
            AfterLock(b, sku, qty, faults).pool
            == b.pool[n..] + (if covered && spare > 0 then [Deficit(sku, spare, "", 0)] else [])
  {
    DrainIsMinimal(b.pool, sku, qty);
    FetchesMade(b.pool, sku, qty, n);
    EmptySums(b.pool[n..]);
    assert b.pool[0..] == b.pool;
  }

  // ---------------------------------------------------------------- copies of a body

  /** Where a queue holds a message with this body, whatever its retry counter. */
  function BodyPlaces(s: seq<Delivery>, sku: string, qty: int, orderId: string): set<nat> {
    set i: nat | i < |s| && s[i].Deficit? && s[i].sku == sku && s[i].qty == qty && s[i].orderId == orderId
  }

  lemma BodyPlacesGrow(s: seq<Delivery>, d: Delivery, sku: string, qty: int, orderId: string)
    ensures |BodyPlaces(s + [d], sku, qty, orderId)|
         == |BodyPlaces(s, sku, qty, orderId)|
            + (if d.Deficit? && d.sku == sku && d.qty == qty && d.orderId == orderId then 1 else 0)
  {
    var here := d.Deficit? && d.sku == sku && d.qty == qty && d.orderId == orderId;
    assert forall i :: 0 <= i < |s| ==> (s + [d])[i] == s[i];
    assert BodyPlaces(s + [d], sku, qty, orderId) == BodyPlaces(s, sku, qty, orderId) + (if here then {|s|} else {});
  }

  /** The copies of a body add up to the places it is held at. */
  lemma {:induction false} CopiesAreCounted(s: seq<Delivery>, sku: string, qty: int, orderId: string)
    ensures Sum(CopiesOf(sku, qty, orderId), s) == |BodyPlaces(s, sku, qty, orderId)|
  {
    if s != [] {
      var n := |s| - 1;
      CopiesAreCounted(s[..n], sku, qty, orderId);
      assert s == s[..n] + [s[n]];
      SumAppend(CopiesOf(sku, qty, orderId), s[..n], [s[n]]);
      BodyPlacesGrow(s[..n], s[n], sku, qty, orderId);
    }
  }
}
