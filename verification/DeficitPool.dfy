/**
 The deficit pool as a value: what the queues hold, what a quantity in them adds up to,
 and what one lock request does to them.

 Everything additive is an instance of one fold, Sum: the units of a SKU, the number of copies
 of a message, the work a message can still cause.
 */
module DeficitPool {
  import opened Sequences
  import opened Options

  /** One delivery. The retry counter is the x-retry-count header, 0 when the header is absent. */
  datatype Delivery =
    | Malformed
    | Deficit(sku: string, qty: int, orderId: string, retry: int)

  const MAX_RETRIES := 5

  /** The four places a deficit message can be. Republishes that sleep are in flight. */
  datatype Broker = Broker(
    pool: seq<Delivery>,
    inFlight: seq<Delivery>,
    reserved: seq<Delivery>,
    deadLetter: seq<Delivery>)

  datatype LockResult = Locked | InsufficientDeficit | BrokerError

  /** What may go wrong in one lock request: dialling, the k-th fetch, the final publish. */
  datatype Faults = Faults(dialFails: bool, fetchFailsAt: Option<nat>, reserveFails: bool)

  const NO_FAULTS := Faults(false, None, false)

  // ---------------------------------------------------------------- sums over queues

  function Sum(f: Delivery -> int, s: seq<Delivery>): int {
    if s == [] then 0 else f(s[0]) + Sum(f, s[1..])
  }

  lemma {:induction false} SumAppend(f: Delivery -> int, a: seq<Delivery>, b: seq<Delivery>)
    ensures Sum(f, a + b) == Sum(f, a) + Sum(f, b)
  {
    if a == [] {
      EmptySums(b);
    } else {
      TailOfSum(a, b);
      SumAppend(f, a[1..], b);
    }
  }

  function UnitsOf(sku: string): Delivery -> int {
    (d: Delivery) => if d.Deficit? && d.sku == sku then d.qty else 0
  }

  function Units(s: seq<Delivery>, sku: string): int {
    Sum(UnitsOf(sku), s)
  }

  /** A quantity read off the message body: requeueing does not change it, malformed bodies have none. */
  ghost predicate OfBody(f: Delivery -> int) {
    f(Malformed) == 0 && forall d: Delivery :: f(Bump(d)) == f(d)
  }

  /** Units and exact copies of a body are both such quantities. */
  function CopiesOf(sku: string, qty: int, orderId: string): Delivery -> int {
    (d: Delivery) => if d.Deficit? && d.sku == sku && d.qty == qty && d.orderId == orderId then 1 else 0
  }

  lemma BodyMeasures(sku: string, qty: int, orderId: string)
    ensures OfBody(UnitsOf(sku)) && OfBody(CopiesOf(sku, qty, orderId))
  {
  }

  predicate NonNegative(s: seq<Delivery>) {
    forall i :: 0 <= i < |s| && s[i].Deficit? ==> s[i].qty >= 0
  }

  // ---------------------------------------------------------------- requeueing

  function Bump(d: Delivery): Delivery {
    if d.Deficit? then d.(retry := d.retry + 1) else d
  }

  predicate Retries(d: Delivery) {
    d.Deficit? && d.retry + 1 <= MAX_RETRIES
  }

  /** The messages of s that go back to the pool, with their counter raised. */
  function Survivors(s: seq<Delivery>): seq<Delivery> {
    if s == [] then []
    else (if Retries(s[0]) then [Bump(s[0])] else []) + Survivors(s[1..])
  }

  /** The messages of s that end in the dead-letter queue, with their counter raised. */
  function Expired(s: seq<Delivery>): seq<Delivery> {
    if s == [] then []
    else (if s[0].Deficit? && !Retries(s[0]) then [Bump(s[0])] else []) + Expired(s[1..])
  }

  lemma {:induction false} SurvivorsAppend(a: seq<Delivery>, b: seq<Delivery>)
    ensures Survivors(a + b) == Survivors(a) + Survivors(b)
  {
    if a == [] {
      EmptySums(b);
      EmptySums(Survivors(b));
    } else {
      TailOfSum(a, b);
      SurvivorsAppend(a[1..], b);
      Associate(if Retries(a[0]) then [Bump(a[0])] else [], Survivors(a[1..]), Survivors(b));
    }
  }

  lemma {:induction false} ExpiredAppend(a: seq<Delivery>, b: seq<Delivery>)
    ensures Expired(a + b) == Expired(a) + Expired(b)
  {
    if a == [] {
      EmptySums(b);
      EmptySums(Expired(b));
    } else {
      TailOfSum(a, b);
      ExpiredAppend(a[1..], b);
      Associate(if a[0].Deficit? && !Retries(a[0]) then [Bump(a[0])] else [], Expired(a[1..]), Expired(b));
    }
  }

  /** Requeueing neither makes nor destroys anything that the bodies say. */
  lemma {:induction false} RequeueConserves(f: Delivery -> int, s: seq<Delivery>)
    requires OfBody(f)
    ensures Sum(f, Survivors(s)) + Sum(f, Expired(s)) == Sum(f, s)
  {
    if s != [] {
      RequeueConserves(f, s[1..]);
      SumAppend(f, if Retries(s[0]) then [Bump(s[0])] else [], Survivors(s[1..]));
      SumAppend(f, if s[0].Deficit? && !Retries(s[0]) then [Bump(s[0])] else [], Expired(s[1..]));
      assert f(Bump(s[0])) == f(s[0]);
    }
  }

  // ---------------------------------------------------------------- the drain

  function Matching(s: seq<Delivery>, sku: string): seq<Delivery> {
    if s == [] then []
    else (if s[0].Deficit? && s[0].sku == sku then [s[0]] else []) + Matching(s[1..], sku)
  }

  function Others(s: seq<Delivery>, sku: string): seq<Delivery> {
    if s == [] then []
    else (if s[0].Deficit? && s[0].sku != sku then [s[0]] else []) + Others(s[1..], sku)
  }

  lemma {:induction false} SplitAppend(a: seq<Delivery>, b: seq<Delivery>, sku: string)
    ensures Matching(a + b, sku) == Matching(a, sku) + Matching(b, sku)
    ensures Others(a + b, sku) == Others(a, sku) + Others(b, sku)
  {
    if a == [] {
      EmptySums(b);
      EmptySums(Matching(b, sku));
      EmptySums(Others(b, sku));
    } else {
      TailOfSum(a, b);
      SplitAppend(a[1..], b, sku);
      Associate(if a[0].Deficit? && a[0].sku == sku then [a[0]] else [], Matching(a[1..], sku), Matching(b, sku));
      Associate(if a[0].Deficit? && a[0].sku != sku then [a[0]] else [], Others(a[1..], sku), Others(b, sku));
    }
  }

  lemma {:induction false} SplitConserves(f: Delivery -> int, s: seq<Delivery>, sku: string)
    requires OfBody(f)
    ensures Sum(f, Matching(s, sku)) + Sum(f, Others(s, sku)) == Sum(f, s)
  {
    if s != [] {
      SplitConserves(f, s[1..], sku);
      SumAppend(f, if s[0].Deficit? && s[0].sku == sku then [s[0]] else [], Matching(s[1..], sku));
      SumAppend(f, if s[0].Deficit? && s[0].sku != sku then [s[0]] else [], Others(s[1..], sku));
    }
  }

  lemma {:induction false} SplitUnits(s: seq<Delivery>, sku: string, k: string)
    ensures Units(Matching(s, sku), k) == if k == sku then Units(s, k) else 0
    ensures Units(Others(s, sku), k) == if k == sku then 0 else Units(s, k)
  {
    if s != [] {
      SplitUnits(s[1..], sku, k);
      SumAppend(UnitsOf(k), if s[0].Deficit? && s[0].sku == sku then [s[0]] else [], Matching(s[1..], sku));
      SumAppend(UnitsOf(k), if s[0].Deficit? && s[0].sku != sku then [s[0]] else [], Others(s[1..], sku));
    }
  }

  /** Whether the first delivery of s is the one that satisfies an outstanding need. */
  predicate Satisfies(d: Delivery, sku: string, need: int) {
    d.Deficit? && d.sku == sku && d.qty >= need
  }

  function Need(d: Delivery, sku: string, need: int): int {
    if d.Deficit? && d.sku == sku then need - d.qty else need
  }

  /** How many deliveries the drain takes: up to the first one that meets the need, or all of them. */
  function Taken(s: seq<Delivery>, sku: string, need: int): (n: nat)
    ensures n <= |s|
  {
    if s == [] then 0
    else if Satisfies(s[0], sku, need) then 1
    else 1 + Taken(s[1..], sku, Need(s[0], sku, need))
  }

  /** How many fetches the drain makes: one more when it has to see the pool empty. */
  function Fetches(s: seq<Delivery>, sku: string, need: int): (n: nat)
    ensures Taken(s, sku, need) <= n <= Taken(s, sku, need) + 1
    ensures n > Taken(s, sku, need) ==> Taken(s, sku, need) == |s|
  {
    if s == [] then 1
    else if Satisfies(s[0], sku, need) then 1
    else 1 + Fetches(s[1..], sku, Need(s[0], sku, need))
  }

  predicate FetchFails(b: Broker, sku: string, qty: int, faults: Faults) {
    faults.fetchFailsAt.Some? && faults.fetchFailsAt.value < Fetches(b.pool, sku, qty)
  }

  /** The deliveries a request has in hand when its drain ends. */
  function InHand(b: Broker, sku: string, qty: int, faults: Faults): seq<Delivery> {
    if FetchFails(b, sku, qty, faults) then b.pool[..faults.fetchFailsAt.value]
    else b.pool[..Taken(b.pool, sku, qty)]
  }

  function LockOutcome(b: Broker, sku: string, qty: int, faults: Faults): LockResult {
    if faults.dialFails || FetchFails(b, sku, qty, faults) then BrokerError
    else if Units(InHand(b, sku, qty, faults), sku) < qty then InsufficientDeficit
    else if faults.reserveFails then BrokerError
    else Locked
  }

  /** The request got past its drain with enough units in hand, whatever happened afterwards. */
  predicate Consumes(b: Broker, sku: string, qty: int, faults: Faults) {
    && !faults.dialFails && !FetchFails(b, sku, qty, faults)
    && Units(InHand(b, sku, qty, faults), sku) >= qty
  }

  function Message(sku: string, qty: int): Delivery {
    Deficit(sku, qty, "", 0)
  }

  /** What a lock request leaves behind. */
  function AfterLock(b: Broker, sku: string, qty: int, faults: Faults): Broker {
    if faults.dialFails then b
    else
      var got := InHand(b, sku, qty, faults);
      var mine := Matching(got, sku);
      var others := Others(got, sku);
      var rest := b.pool[|got|..];
      if Consumes(b, sku, qty, faults) then
        var spare := Units(got, sku) - qty;
        Broker(
          rest + (if spare > 0 then [Message(sku, spare)] else []),
          b.inFlight + Survivors(others),
          b.reserved + (if faults.reserveFails then [] else [Message(sku, qty)]),
          b.deadLetter + Expired(others))
      else
        Broker(
          rest,
          b.inFlight + Survivors(mine) + Survivors(others),
          b.reserved,
          b.deadLetter + Expired(mine) + Expired(others))
  }
}
