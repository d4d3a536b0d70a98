/**
 The life of one message: it goes back to the pool after each of its first five requeues and is dead-lettered by the
 sixth, whatever else happens to the queues in between.
 */
module DeficitRetries {
  import opened Sequences
  import opened DeficitPool
  import opened DeficitRuns

  /** One requeue: a counter below five is raised and the message sleeps; any other is raised and dead-lettered. */
  lemma RequeuedOnce(sku: string, qty: int, orderId: string, c: int)
    ensures var raised := Deficit(sku, qty, orderId, c + 1);
            && Survivors([Deficit(sku, qty, orderId, c)]) == (if c < 5 then [raised] else [])
            && Expired([Deficit(sku, qty, orderId, c)]) == (if c < 5 then [] else [raised])
    ensures Survivors([Malformed]) == [] && Expired([Malformed]) == []
  {
    var d := Deficit(sku, qty, orderId, c);
    assert [d][1..] == [] && [Malformed][1..] == [];
  }

  /** Of a batch exactly the messages with a counter below five sleep, all others are dead-lettered, both raised by
      one; malformed ones are gone. */
  lemma {:induction false} BatchRequeued(s: seq<Delivery>, d: Delivery)
    ensures d in Survivors(s) <==>
              d.Deficit? && d.retry <= 5 && Deficit(d.sku, d.qty, d.orderId, d.retry - 1) in s
    ensures d in Expired(s) <==>
              d.Deficit? && d.retry > 5 && Deficit(d.sku, d.qty, d.orderId, d.retry - 1) in s
  {
    if s != [] {
      BatchRequeued(s[1..], d);
      assert s == [s[0]] + s[1..];
    }
  }

  /** A request handles a message: it has it in hand and does not lock it away. */
  predicate Handles(b: Broker, sku: string, qty: int, faults: Faults, m: Delivery) {
    && !faults.dialFails && m in InHand(b, sku, qty, faults) && m.Deficit?
    && (Consumes(b, sku, qty, faults) ==> m.sku != sku)
  }

  lemma {:induction false} SplitHolds(s: seq<Delivery>, sku: string, d: Delivery)
    ensures d in Matching(s, sku) <==> d in s && d.Deficit? && d.sku == sku
    ensures d in Others(s, sku) <==> d in s && d.Deficit? && d.sku != sku
  {
    if s != [] {
      SplitHolds(s[1..], sku, d);
      assert s == [s[0]] + s[1..];
    }
  }

  /** Wherever a message with counter c is handled, it is in flight with c + 1 afterwards if c is below five, and among
      the dead letters with c + 1 otherwise. */
  lemma HandledMessage(b: Broker, sku: string, qty: int, faults: Faults, m: Delivery)
    requires Handles(b, sku, qty, faults, m)
    ensures var b' := AfterLock(b, sku, qty, faults);
            var raised := Deficit(m.sku, m.qty, m.orderId, m.retry + 1);
            if m.retry < 5 then raised in b'.inFlight else raised in b'.deadLetter
  {
    var got := InHand(b, sku, qty, faults);
    var raised := Deficit(m.sku, m.qty, m.orderId, m.retry + 1);
    SplitHolds(got, sku, m);
    BatchRequeued(Matching(got, sku), raised);
    BatchRequeued(Others(got, sku), raised);
  }

  // ---------------------------------------------------------------- over a run

  /** One round in a message's life: whatever happens before, then the request that handles it, then its landing. */
  datatype Round = Round(before: seq<Event>, sku: string, qty: int, faults: Faults, landing: nat)

  function Handled(b: Broker, r: Round): Broker {
    Apply(Run(b, r.before), Lock(r.sku, r.qty, r.faults))
  }

  function Landed(b: Broker, r: Round): Broker {
    Apply(Handled(b, r), Land(r.landing))
  }

  /** The rounds follow message m: each handles it, and between two of them it lands again. */
  ghost predicate Follows(b: Broker, m: Delivery, rounds: seq<Round>)
    requires m.Deficit?
    decreases |rounds|
  {
    rounds != [] ==>
      var r := rounds[0];
      && Handles(Run(b, r.before), r.sku, r.qty, r.faults, m)
      && (|rounds| > 1 ==>
            && r.landing < |Handled(b, r).inFlight| && Handled(b, r).inFlight[r.landing] == Bump(m)
            && Follows(Landed(b, r), Bump(m), rounds[1..]))
  }

  /** The state right after the last round's request. */
  function AfterRounds(b: Broker, rounds: seq<Round>): Broker
    requires rounds != []
    decreases |rounds|
  {
    if |rounds| == 1 then Handled(b, rounds[0]) else AfterRounds(Landed(b, rounds[0]), rounds[1..])
  }

  /** Where message m is after its n-th requeue. */
  predicate Requeued(b: Broker, m: Delivery, n: nat)
    requires m.Deficit?
  {
    var raised := Deficit(m.sku, m.qty, m.orderId, m.retry + n);
    if m.retry + n <= 5 then raised in b.inFlight else raised in b.deadLetter
  }

  lemma LastRound(b: Broker, m: Delivery, r: Round)
    requires m.Deficit? && Handles(Run(b, r.before), r.sku, r.qty, r.faults, m)
    ensures Requeued(Handled(b, r), m, 1)
  {
    HandledMessage(Run(b, r.before), r.sku, r.qty, r.faults, m);
  }

  lemma {:induction false} HandledNTimes(b: Broker, m: Delivery, rounds: seq<Round>)
    requires m.Deficit? && rounds != [] && Follows(b, m, rounds)
    ensures Requeued(AfterRounds(b, rounds), m, |rounds|)
    decreases |rounds|
  {
    if |rounds| == 1 {
      LastRound(b, m, rounds[0]);
    } else {
      HandledNTimes(Landed(b, rounds[0]), Bump(m), rounds[1..]);
    }
  }

  /** A message published with counter 0 is in flight after each of its first five requeues, and dead-lettered by the
      sixth. */
  lemma SixthRequeueIsTheLast(b: Broker, sku: string, qty: int, orderId: string, rounds: seq<Round>)
    requires Follows(b, Deficit(sku, qty, orderId, 0), rounds) && 1 <= |rounds| <= 6
    ensures |rounds| <= 5 ==> Deficit(sku, qty, orderId, |rounds|) in AfterRounds(b, rounds).inFlight
    ensures |rounds| == 6 ==> Deficit(sku, qty, orderId, 6) in AfterRounds(b, rounds).deadLetter
  {
    HandledNTimes(b, Deficit(sku, qty, orderId, 0), rounds);
  }
}
