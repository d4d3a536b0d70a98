/**
 Whole runs of the deficit pool. The environment may publish new shortages, lock, and let a
 sleeping republish land at the tail of the pool or be refused. The refusal matters: the republish
 uses the request's own connection, which is closed when the request returns.
 */
module DeficitRuns {
  import opened DeficitPool
  import opened DeficitLaws

  datatype Event =
    | Publish(msg: Delivery)
    | Lock(sku: string, qty: int, faults: Faults)
    | Land(index: nat)
    | Lose(index: nat)

  function Without(s: seq<Delivery>, i: nat): seq<Delivery>
    requires i < |s|
  {
    s[..i] + s[i + 1..]
  }

  lemma {:induction false} SumWithout(f: Delivery -> int, s: seq<Delivery>, i: nat)
    requires i < |s|
    ensures Sum(f, Without(s, i)) == Sum(f, s) - f(s[i])
  {
    if i == 0 {
      assert Without(s, 0) == s[1..];
    } else {
      var rest := Without(s[1..], i - 1);
      SumWithout(f, s[1..], i - 1);
      assert Without(s, i)[0] == s[0] && Without(s, i)[1..] == rest;
    }
  }

  function Apply(b: Broker, e: Event): Broker {
    match e
    case Publish(msg) => b.(pool := b.pool + [msg])
    case Lock(sku, qty, faults) => AfterLock(b, sku, qty, faults)
    case Land(i) =>
      if i < |b.inFlight| then b.(pool := b.pool + [b.inFlight[i]], inFlight := Without(b.inFlight, i)) else b
    case Lose(i) =>
      if i < |b.inFlight| then b.(inFlight := Without(b.inFlight, i)) else b
  }

  function Run(b: Broker, es: seq<Event>): Broker
    decreases |es|
  {
    if es == [] then b else Run(Apply(b, es[0]), es[1..])
  }

  /** Units of k that event e brings in, and units it destroys. */
  function BroughtIn(e: Event, k: string): int {
    if e.Publish? then UnitsOf(k)(e.msg) else 0
  }

  function Destroyed(b: Broker, e: Event, k: string): int {
    match e
    case Publish(_) => 0
    case Lock(sku, qty, faults) =>
      if Consumes(b, sku, qty, faults) && faults.reserveFails && sku == k then qty else 0
    case Land(_) => 0
    case Lose(i) => if i < |b.inFlight| then UnitsOf(k)(b.inFlight[i]) else 0
  }

  function AllBroughtIn(es: seq<Event>, k: string): int {
    if es == [] then 0 else BroughtIn(es[0], k) + AllBroughtIn(es[1..], k)
  }

  function AllDestroyed(b: Broker, es: seq<Event>, k: string): int
    decreases |es|
  {
    if es == [] then 0 else Destroyed(b, es[0], k) + AllDestroyed(Apply(b, es[0]), es[1..], k)
  }

  lemma StepBalance(b: Broker, e: Event, k: string)
    ensures Total(UnitsOf(k), Apply(b, e)) == Total(UnitsOf(k), b) + BroughtIn(e, k) - Destroyed(b, e, k)
  {
    match e
    case Publish(msg) =>
      SumAppend(UnitsOf(k), b.pool, [msg]);
    case Lock(sku, qty, faults) =>
      LockConservesUnits(b, sku, qty, faults, k);
    case Land(i) =>
      if i < |b.inFlight| {
        SumAppend(UnitsOf(k), b.pool, [b.inFlight[i]]);
        SumWithout(UnitsOf(k), b.inFlight, i);
      }
    case Lose(i) =>
      if i < |b.inFlight| {
        SumWithout(UnitsOf(k), b.inFlight, i);
      }
  }

  /** The books of every run balance, for every SKU. */
  lemma {:induction false} RunBalance(b: Broker, es: seq<Event>, k: string)
    ensures Total(UnitsOf(k), Run(b, es))
         == Total(UnitsOf(k), b) + AllBroughtIn(es, k) - AllDestroyed(b, es, k)
    decreases |es|
  {
    if es != [] {
      StepBalance(b, es[0], k);
      RunBalance(Apply(b, es[0]), es[1..], k);
    }
  }

  // ---------------------------------------------------------------- termination

  /** An event that does something without adding work: a positive request that fetches at least one
      message, or a sleeping republish that ends. */
  predicate Progresses(b: Broker, e: Event) {
    match e
    case Publish(_) => false
    case Lock(sku, qty, faults) => qty >= 1 && !faults.dialFails && InHand(b, sku, qty, faults) != []
    case Land(i) => i < |b.inFlight|
    case Lose(i) => i < |b.inFlight|
  }

  predicate AllProgress(b: Broker, es: seq<Event>)
    decreases |es|
  {
    es == [] || (Progresses(b, es[0]) && AllProgress(Apply(b, es[0]), es[1..]))
  }

  lemma StepWorksOff(b: Broker, e: Event)
    requires NonNegative(b.pool) && NonNegative(b.inFlight) && Progresses(b, e)
    ensures var b' := Apply(b, e);
            Potential(b') < Potential(b) && NonNegative(b'.pool) && NonNegative(b'.inFlight)
  {
    match e
    case Lock(sku, qty, faults) =>
      LockWorksOff(b, sku, qty, faults);
    case Land(i) =>
      SumAppend(Work(), b.pool, [b.inFlight[i]]);
      SumWithout(Work(), b.inFlight, i);
    case Lose(i) =>
      SumWithout(Work(), b.inFlight, i);
  }

  /** With no new publications, no run is longer than the work in the pool at its start. */
  lemma {:induction false} RunsAreBounded(b: Broker, es: seq<Event>)
    requires NonNegative(b.pool) && NonNegative(b.inFlight) && AllProgress(b, es)
    ensures |es| <= Potential(b)
    ensures NonNegative(Run(b, es).pool) && NonNegative(Run(b, es).inFlight)
    decreases |es|
  {
    if es == [] {
      WorkIsPositive(b.pool);
      WorkIsPositive(b.inFlight);
    } else {
      StepWorksOff(b, es[0]);
      RunsAreBounded(Apply(b, es[0]), es[1..]);
    }
  }

  /** A run that cannot be extended has settled everything: every unit is reserved, dead-lettered, or
      accounted for as destroyed. */
  lemma FinishedRunSettlesEverything(b: Broker, es: seq<Event>, k: string)
    requires forall e :: !Progresses(Run(b, es), e)
    ensures Run(b, es).pool == [] && Run(b, es).inFlight == []
    ensures Units(Run(b, es).reserved, k) + Units(Run(b, es).deadLetter, k)
         == Total(UnitsOf(k), b) + AllBroughtIn(es, k) - AllDestroyed(b, es, k)
  {
    var end := Run(b, es);
    if end.pool != [] {
      assert Taken(end.pool, "", 1) >= 1;
      assert Progresses(end, Lock("", 1, NO_FAULTS));
    }
    if end.inFlight != [] {
      assert Progresses(end, Land(0));
    }
    RunBalance(b, es, k);
  }
}
