/**
 The broker connection and the lock manager that drains it. Fetched messages stay unacknowledged
 until they are acked one by one; a connection that closes hands the unacknowledged ones back, so
 every exit has to leave none.
 */
module DeficitLock {
  import opened Sequences
  import opened Options
  import opened DeficitPool

  /** A fetched message, kept with the tag that acknowledges it. */
  datatype Fetched = Fetched(tag: nat, msg: Delivery)

  function Bodies(s: seq<Fetched>): (r: seq<Delivery>)
    ensures |r| == |s|
  {
    if s == [] then [] else [s[0].msg] + Bodies(s[1..])
  }

  function Tags(s: seq<Fetched>): set<nat> {
    if s == [] then {} else {s[0].tag} + Tags(s[1..])
  }

  lemma {:induction false} AppendFetched(s: seq<Fetched>, f: Fetched)
    ensures Bodies(s + [f]) == Bodies(s) + [f.msg]
    ensures Tags(s + [f]) == Tags(s) + {f.tag}
  {
    if s == [] {
      assert s + [f] == [f];
    } else {
      TailOfSum(s, [f]);
      AppendFetched(s[1..], f);
    }
  }

  /** Requeueing a batch is requeueing its first message and then the others. */
  lemma FirstRequeued(fs: seq<Fetched>)
    requires fs != []
    ensures Bodies(fs)[0] == fs[0].msg && forall i :: 0 <= i < |fs| - 1 ==> Bodies(fs[1..])[i] == Bodies(fs)[i + 1]
    ensures Survivors(Bodies(fs)) == Survivors([fs[0].msg]) + Survivors(Bodies(fs[1..]))
    ensures Expired(Bodies(fs)) == Expired([fs[0].msg]) + Expired(Bodies(fs[1..]))
  {
    SurvivorsAppend([fs[0].msg], Bodies(fs[1..]));
    ExpiredAppend([fs[0].msg], Bodies(fs[1..]));
  }

  /** How a drain has sorted the first n deliveries of the pool it started with. */
  ghost predicate Sorted(start: seq<Delivery>, n: nat, sku: string, matched: seq<Fetched>,
                         unmatched: seq<Fetched>, accumulated: int) {
    && n <= |start|
    && Bodies(matched) == Matching(start[..n], sku)
    && Bodies(unmatched) == Others(start[..n], sku)
    && accumulated == Units(start[..n], sku)
  }

  class DeficitLockManager {
    var pool: seq<Delivery>
    var inFlight: seq<Delivery>
    var reserved: seq<Delivery>
    var deadLetter: seq<Delivery>
    var unacked: map<nat, Delivery>
    var nextTag: nat

    constructor ()
      ensures View() == Broker([], [], [], []) && unacked == map[]
    {
      pool, inFlight, reserved, deadLetter := [], [], [], [];
      unacked, nextTag := map[], 0;
    }

    ghost function View(): Broker
      reads this
    {
      Broker(pool, inFlight, reserved, deadLetter)
    }

    /** Delivery tags are handed out in increasing order. */
    ghost predicate TagsAreOld()
      reads this
    {
      forall t :: t in unacked ==> t < nextTag
    }

    method GetFromPool() returns (f: Fetched)
      requires pool != [] && TagsAreOld()
      modifies `pool, `unacked, `nextTag
      ensures TagsAreOld()
      ensures f.msg == old(pool[0]) && pool == old(pool[1..])
      ensures f.tag !in old(unacked) && unacked == old(unacked)[f.tag := f.msg]
    {
      f := Fetched(nextTag, pool[0]);
      unacked := unacked[nextTag := pool[0]];
      pool, nextTag := pool[1..], nextTag + 1;
    }

    method Ack(tag: nat)
      modifies `unacked
      ensures unacked == old(unacked) - {tag}
    {
      unacked := unacked - {tag};
    }

    /** A message past its last retry is dead-lettered; any other goes to sleep and is republished later. */
    method RequeueWithBackoff(f: Fetched)
      requires f.msg.Deficit?
      modifies `unacked, `inFlight, `deadLetter
      ensures unacked == old(unacked) - {f.tag}
      ensures inFlight == old(inFlight) + Survivors([f.msg])
      ensures deadLetter == old(deadLetter) + Expired([f.msg])
    {
      var retryCount := f.msg.retry + 1;
      var stamped := f.msg.(retry := retryCount);
      Ack(f.tag);
      if retryCount > MAX_RETRIES {
        deadLetter := deadLetter + [stamped];
      } else {
        inFlight := inFlight + [stamped];
      }
    }

    method RequeueAll(fs: seq<Fetched>)
      requires forall i :: 0 <= i < |fs| ==> Bodies(fs)[i].Deficit?
      modifies `unacked, `inFlight, `deadLetter
      ensures unacked == old(unacked) - Tags(fs)
      ensures inFlight == old(inFlight) + Survivors(Bodies(fs))
      ensures deadLetter == old(deadLetter) + Expired(Bodies(fs))
    {
      var todo := fs;
      while todo != []
        invariant forall i :: 0 <= i < |todo| ==> Bodies(todo)[i].Deficit?
        invariant unacked - Tags(todo) == old(unacked) - Tags(fs)
        invariant inFlight + Survivors(Bodies(todo)) == old(inFlight) + Survivors(Bodies(fs))
        invariant deadLetter + Expired(Bodies(todo)) == old(deadLetter) + Expired(Bodies(fs))
        decreases |todo|
      {
        FirstRequeued(todo);
        Associate(inFlight, Survivors([todo[0].msg]), Survivors(Bodies(todo[1..])));
        Associate(deadLetter, Expired([todo[0].msg]), Expired(Bodies(todo[1..])));
        RequeueWithBackoff(todo[0]);
        todo := todo[1..];
      }
      EmptySums(inFlight);
      EmptySums(deadLetter);
    }

    method AckAll(fs: seq<Fetched>)
      modifies `unacked
      ensures unacked == old(unacked) - Tags(fs)
    {
      var todo := fs;
      while todo != []
        invariant unacked - Tags(todo) == old(unacked) - Tags(fs)
        decreases |todo|
      {
        Ack(todo[0].tag);
        todo := todo[1..];
      }
    }

    /** The unacknowledged messages are the fetched ones in hand. */
    ghost predicate Holds(matched: seq<Fetched>, unmatched: seq<Fetched>)
      reads this
    {
      unacked.Keys == Tags(matched) + Tags(unmatched) && TagsAreOld()
    }

    /** One fetch, sorted into the matched messages, the others, or (malformed) thrown away. */
    method FetchOne(ghost start: seq<Delivery>, ghost fetches: nat, sku: string,
                    matched: seq<Fetched>, unmatched: seq<Fetched>, accumulated: int)
      returns (matched': seq<Fetched>, unmatched': seq<Fetched>, accumulated': int, matches: bool)
      requires fetches < |start| && pool == start[fetches..]
      requires Holds(matched, unmatched) && Sorted(start, fetches, sku, matched, unmatched, accumulated)
      modifies `pool, `unacked, `nextTag
      ensures Holds(matched', unmatched') && Sorted(start, fetches + 1, sku, matched', unmatched', accumulated')
      ensures matches <==> start[fetches].Deficit? && start[fetches].sku == sku
      ensures matches ==> accumulated' == accumulated + start[fetches].qty
      ensures !matches ==> accumulated' == accumulated
      ensures pool == start[fetches + 1..]
    {
      Extend(start, fetches, sku);
      var f := GetFromPool();
      AppendFetched(matched, f);
      AppendFetched(unmatched, f);
      matched', unmatched', accumulated', matches := matched, unmatched, accumulated, false;
      if f.msg.Malformed? {
        Ack(f.tag);
        AckedKeys(old(unacked), f, Tags(matched) + Tags(unmatched));
      } else if f.msg.sku == sku {
        matched' := matched + [f];
        accumulated', matches := accumulated + f.msg.qty, true;
      } else {
        unmatched' := unmatched + [f];
      }
    }

    /** One turn of the drain: it ends on a broker failure, an empty pool or a need that is met. */
    method DrainStep(ghost b: Broker, fetches: nat, sku: string, qty: int, faults: Faults,
                     matched: seq<Fetched>, unmatched: seq<Fetched>, accumulated: int)
      returns (matched': seq<Fetched>, unmatched': seq<Fetched>, accumulated': int, done: bool, failed: bool)
      requires StillShort(b.pool, sku, qty, fetches, qty - accumulated) && pool == b.pool[fetches..]
      requires faults.fetchFailsAt.Some? ==> fetches <= faults.fetchFailsAt.value
      requires Holds(matched, unmatched) && Sorted(b.pool, fetches, sku, matched, unmatched, accumulated)
      modifies `pool, `unacked, `nextTag
      ensures var n := if done then |InHand(b, sku, qty, faults)| else fetches + 1;
              && n <= |b.pool| && pool == b.pool[n..]
              && Sorted(b.pool, n, sku, matched', unmatched', accumulated')
      ensures Holds(matched', unmatched')
      ensures done ==> failed == FetchFails(b, sku, qty, faults)
      ensures !done ==> fetches < |b.pool| && !failed && faults.fetchFailsAt != Some(fetches)
      ensures !done ==> StillShort(b.pool, sku, qty, fetches + 1, qty - accumulated')
    {
      DrainEnds(b, sku, qty, faults, fetches, qty - accumulated);
      matched', unmatched', accumulated', done, failed := matched, unmatched, accumulated, true, false;
      if faults.fetchFailsAt == Some(fetches) {
        failed := true;
      } else if pool != [] {
        var matches;
        matched', unmatched', accumulated', matches :=
          FetchOne(b.pool, fetches, sku, matched, unmatched, accumulated);
        done := matches && accumulated' >= qty;
      }
    }

    /** Fetch until the need is met, the pool is empty, or the broker fails. */
    method Drain(sku: string, qty: int, faults: Faults)
      returns (matched: seq<Fetched>, unmatched: seq<Fetched>, accumulated: int, failed: bool)
      requires unacked == map[] && !faults.dialFails
      modifies `pool, `unacked, `nextTag
      ensures failed == old(FetchFails(View(), sku, qty, faults))
      ensures var n := |old(InHand(View(), sku, qty, faults))|;
              pool == old(pool[n..]) && Sorted(old(pool), n, sku, matched, unmatched, accumulated)
      ensures Holds(matched, unmatched)
    {
      ghost var b := View();
      matched, unmatched, accumulated, failed := [], [], 0, false;
      var fetches, done := 0, false;
      while !done
        invariant done ==> failed == FetchFails(b, sku, qty, faults)
        invariant !done ==> faults.fetchFailsAt.Some? ==> fetches <= faults.fetchFailsAt.value
        invariant !done ==> StillShort(b.pool, sku, qty, fetches, qty - accumulated)
        invariant var n := if done then |InHand(b, sku, qty, faults)| else fetches;
                  && n <= |b.pool| && pool == b.pool[n..]
                  && Sorted(b.pool, n, sku, matched, unmatched, accumulated)
        invariant Holds(matched, unmatched)
        decreases |b.pool| - fetches, !done
      {
        matched, unmatched, accumulated, done, failed :=
          DrainStep(b, fetches, sku, qty, faults, matched, unmatched, accumulated);
        fetches := fetches + (if done then 0 else 1);
      }
    }

    /** A failing request gives all that it has in hand back to the broker. */
    method RequeueBoth(matched: seq<Fetched>, unmatched: seq<Fetched>)
      requires forall i :: 0 <= i < |matched| ==> Bodies(matched)[i].Deficit?
      requires forall i :: 0 <= i < |unmatched| ==> Bodies(unmatched)[i].Deficit?
      requires Holds(matched, unmatched)
      modifies `unacked, `inFlight, `deadLetter
      ensures unacked == map[]
      ensures inFlight == old(inFlight) + Survivors(Bodies(matched)) + Survivors(Bodies(unmatched))
      ensures deadLetter == old(deadLetter) + Expired(Bodies(matched)) + Expired(Bodies(unmatched))
    {
      RequeueAll(matched);
      RequeueAll(unmatched);
      assert unacked.Keys == {};
    }

    method LockDeficit(sku: string, qty: int, faults: Faults) returns (r: LockResult)
      requires unacked == map[]
      modifies this
      ensures r == old(LockOutcome(View(), sku, qty, faults))
      ensures View() == old(AfterLock(View(), sku, qty, faults))
      ensures unacked == map[]
    {
      if faults.dialFails {
        return BrokerError;
      }
      ghost var got := InHand(View(), sku, qty, faults);
      var matched, unmatched, accumulated, failed := Drain(sku, qty, faults);
      assert got == old(pool)[..|got|];
      MatchesAreDeficits(got, sku);
      if failed {
        RequeueBoth(matched, unmatched);
        r := BrokerError;
      } else if accumulated >= qty {
        AckAll(matched);
        RequeueAll(unmatched);
        assert unacked.Keys == {};
        if accumulated > qty {
          pool := pool + [Message(sku, accumulated - qty)];
        }
        if faults.reserveFails {
          r := BrokerError;
        } else {
          reserved := reserved + [Message(sku, qty)];
          r := Locked;
        }
      } else {
        RequeueBoth(matched, unmatched);
        r := InsufficientDeficit;
      }
    }
  }

  /** The first n deliveries of s do not end a drain; what they leave to find is need. */
  ghost predicate StillShort(s: seq<Delivery>, sku: string, qty: int, n: nat, need: int) {
    && n <= |s|
    && Taken(s, sku, qty) == n + Taken(s[n..], sku, need)
    && Fetches(s, sku, qty) == n + Fetches(s[n..], sku, need)
  }

  /** Where a drain that is still short after n fetches can end, and where it goes on. */
  lemma DrainEnds(b: Broker, sku: string, qty: int, faults: Faults, n: nat, need: int)
    requires StillShort(b.pool, sku, qty, n, need)
    requires faults.fetchFailsAt.Some? ==> n <= faults.fetchFailsAt.value
    ensures faults.fetchFailsAt == Some(n) ==>
              FetchFails(b, sku, qty, faults) && |InHand(b, sku, qty, faults)| == n
    ensures faults.fetchFailsAt != Some(n) && n == |b.pool| ==>
              !FetchFails(b, sku, qty, faults) && |InHand(b, sku, qty, faults)| == n
    ensures faults.fetchFailsAt != Some(n) && n < |b.pool| && Satisfies(b.pool[n], sku, need) ==>
              !FetchFails(b, sku, qty, faults) && |InHand(b, sku, qty, faults)| == n + 1
    ensures n < |b.pool| && !Satisfies(b.pool[n], sku, need) ==>
              StillShort(b.pool, sku, qty, n + 1, Need(b.pool[n], sku, need))
  {
    if n < |b.pool| {
      ShorterSuffix(b.pool, n);
    }
  }

  lemma AckedKeys(before: map<nat, Delivery>, f: Fetched, tags: set<nat>)
    requires before.Keys == tags && f.tag !in before
    ensures (before[f.tag := f.msg] - {f.tag}).Keys == tags
  {
  }

  lemma {:induction false} MatchesAreDeficits(s: seq<Delivery>, sku: string)
    ensures forall i :: 0 <= i < |Matching(s, sku)| ==> Matching(s, sku)[i].Deficit?
    ensures forall i :: 0 <= i < |Others(s, sku)| ==> Others(s, sku)[i].Deficit?
  {
    if s != [] {
      MatchesAreDeficits(s[1..], sku);
    }
  }

  lemma Extend(s: seq<Delivery>, k: nat, sku: string)
    requires k < |s|
    ensures Matching(s[..k + 1], sku) == Matching(s[..k], sku) + Matching([s[k]], sku)
    ensures Others(s[..k + 1], sku) == Others(s[..k], sku) + Others([s[k]], sku)
    ensures Units(s[..k + 1], sku) == Units(s[..k], sku) + UnitsOf(sku)(s[k])
  {
    LongerPrefix(s, k);
    SplitAppend(s[..k], [s[k]], sku);
    SumAppend(UnitsOf(sku), s[..k], [s[k]]);
  }
}
