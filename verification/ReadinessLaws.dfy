/**
 What a production order's status and its shortage logs say about each other, over single calls and whole runs,
 and how many units the stock on hand can build.
 */
module ReadinessLaws {
  import opened MrpModel
  import opened ShortageLaws
  import opened BomTable
  import Bom = BomModel
  import Buying = ProcurementModel

  // ---------------------------------------------------------------- explosion

  /** An explosion is all or nothing, and its lines follow the entries one to one. */
  lemma {:induction false} ExplosionFollowsEntries(es: seq<Bom.Entry>, quantity: int, s: Supply)
    ensures Explosion(es, quantity, s).Some? <==> forall i :: 0 <= i < |es| ==> Explodable(es[i], quantity, s)
    ensures Explosion(es, quantity, s).Some? ==>
              && |Explosion(es, quantity, s).value| == |es|
              && forall i :: 0 <= i < |es| ==> Explosion(es, quantity, s).value[i] == Exploded(es[i], quantity, s)
  {
    if es != [] {
      ExplosionFollowsEntries(es[1..], quantity, s);
      assert forall i :: 0 <= i < |es[1..]| ==> es[1..][i] == es[i + 1];
      assert es == [es[0]] + es[1..];
    }
  }

  lemma ExplodedParts(es: seq<Bom.Entry>, quantity: int, s: Supply)
    requires DistinctComponents(es) && Explosion(es, quantity, s).Some?
    ensures var ls := Explosion(es, quantity, s).value;
            && DistinctParts(ls) && |ls| == |es|
            && (forall i :: 0 <= i < |es| ==> ls[i].part == es[i].part != 0)
            && (forall i :: 0 <= i < |ls| ==> (ls[i].short <==> Wanted(ls[i]) > 0))
            && (forall i :: 0 <= i < |ls| ==> Wanted(ls[i]) >= 0)
  {
    ExplosionFollowsEntries(es, quantity, s);
  }

  ghost predicate Uses(es: seq<Bom.Entry>, part: nat) {
    exists i :: 0 <= i < |es| && es[i].part == part
  }

  // ---------------------------------------------------------------- one order

  ghost predicate HasLiveLog(logs: seq<Log>, order: string, es: seq<Bom.Entry>) {
    exists i :: 0 <= i < |es| && LiveOf(logs, order, es[i].part) != []
  }

  lemma SettledMeansStatus(logs: seq<Log>, order: string, es: seq<Bom.Entry>, quantity: int, s: Supply)
    requires DistinctComponents(es) && Explosion(es, quantity, s).Some?
    requires forall i :: 0 <= i < |es| ==> Right(logs, order, Explosion(es, quantity, s).value[i])
    ensures StatusFor(Explosion(es, quantity, s).value) == Shortage <==> HasLiveLog(logs, order, es)
  {
    var ls := Explosion(es, quantity, s).value;
    ExplodedParts(es, quantity, s);
    forall i | 0 <= i < |es|
      ensures ls[i].short <==> LiveOf(logs, order, es[i].part) != []
    {
      assert Right(logs, order, ls[i]);
    }
  }

  /** After a readiness row was built, the order is short exactly when a component of it has a live log, and the
      live log of a component says what is missing of it. */
  lemma ReadinessMatchesLogs(t: Mrp, id: string, es: seq<Bom.Entry>, s: Supply, f: CallFaults)
    requires Sound(t) && DistinctComponents(es) && ReadinessOutcome(t, id, es, s, f) == Ok
    ensures var t' := AfterReadiness(t, id, es, s, f);
            && id in t'.orders
            && t'.orders[id].status == (if HasLiveLog(t'.logs, id, es) then Shortage else ClearToBuild)
            && (forall i :: 0 <= i < |es| ==> Right(t'.logs, id, Explosion(es, t.orders[id].quantity, s).value[i]))
            && (forall o, p :: o != id || !Uses(es, p) ==> LiveOf(t'.logs, o, p) == LiveOf(t.logs, o, p))
  {
    var quantity := t.orders[id].quantity;
    var ls := Explosion(es, quantity, s).value;
    var t1 := WithStatus(t, id, StatusFor(ls));
    ExplodedParts(es, quantity, s);
    SyncSettles(t1, id, ls, f.sync);
    SyncKeepsOrders(t1, id, ls, f.sync);
    SettledMeansStatus(AfterReadiness(t, id, es, s, f).logs, id, es, quantity, s);
    forall o, p | o != id || !Uses(es, p)
      ensures LiveOf(AfterReadiness(t, id, es, s, f).logs, o, p) == LiveOf(t.logs, o, p)
    {
      assert About(ls, p) ==> Uses(es, p);
    }
  }

  /** So for each component the one live log says required less in stock less coming in, and there is none when
      that is nothing. */
  lemma LogsSayWhatIsMissing(t: Mrp, id: string, es: seq<Bom.Entry>, s: Supply, f: CallFaults, i: nat)
    requires Sound(t) && DistinctComponents(es) && ReadinessOutcome(t, id, es, s, f) == Ok && i < |es|
    ensures es[i].part in s.parts
    ensures var part := s.parts[es[i].part];
            var missing := es[i].qty * t.orders[id].quantity - part.stock - Incoming(s.listing, part.sku);
            var live := LiveOf(AfterReadiness(t, id, es, s, f).logs, id, es[i].part);
            if missing <= 0 then live == [] else |live| == 1 && live[0].qty == missing
  {
    ReadinessMatchesLogs(t, id, es, s, f);
    ExplosionFollowsEntries(es, t.orders[id].quantity, s);
    assert Explodable(es[i], t.orders[id].quantity, s);
    assert Right(AfterReadiness(t, id, es, s, f).logs, id, Explosion(es, t.orders[id].quantity, s).value[i]);
  }

  lemma SyncKeepsOrders(t: Mrp, order: string, ls: seq<Requirement>, f: SyncFaults)
    ensures AfterSync(t, order, ls, f).orders == t.orders
  {
    ReconcilingKeepsOrders(t, order, ls, Snapshot(t.logs, order), f);
  }

  lemma {:induction false} ReconcilingKeepsOrders(t: Mrp, order: string, ls: seq<Requirement>,
          existing: map<nat, Log>, f: SyncFaults)
    ensures ReconciledAll(t, order, ls, existing, f).orders == t.orders
    decreases |ls|
  {
    if ls != [] && !Stops(order, ls[0], existing, f) {
      ReconcilingKeepsOrders(Reconciled(t, order, ls[0], existing, ls[0].part in f.lost), order, ls[1..], existing, f);
    }
  }

  /** No order has the new id yet, nor has a log. */
  ghost predicate FreshId(t: Mrp, id: string) {
    id != [] && id !in t.orders && forall p :: LiveOf(t.logs, id, p) == []
  }

  predicate Reconciles(t: Mrp, id: string, code: string, quantity: int, es: seq<Bom.Entry>, s: Supply, f: CallFaults) {
    && Plannable(code, quantity) && !f.createFails && Explosion(es, quantity, s).Some?
    && SyncOk(Inserted(t, id, code, quantity), id, Explosion(es, quantity, s).value, f.sync)
  }

  /** Planning reconciles before it sets the status, so a status write that fails leaves a short order marked
      clear to build; that is the only way for the two to disagree once the logs are reconciled. */
  lemma PlanMatchesLogsIff(t: Mrp, id: string, code: string, quantity: int, es: seq<Bom.Entry>, s: Supply,
          f: CallFaults)
    requires Sound(t) && DistinctComponents(es) && FreshId(t, id) && Reconciles(t, id, code, quantity, es, s, f)
    ensures var t' := AfterPlan(t, id, code, quantity, es, s, f);
            && id in t'.orders
            && (t'.orders[id].status == (if HasLiveLog(t'.logs, id, es) then Shortage else ClearToBuild)
                <==> !(f.statusFails && StatusFor(Explosion(es, quantity, s).value) == Shortage))
            && (forall i :: 0 <= i < |es| ==> Right(t'.logs, id, Explosion(es, quantity, s).value[i]))
            && (forall o, p :: o != id || !Uses(es, p) ==> LiveOf(t'.logs, o, p) == LiveOf(t.logs, o, p))
  {
    var ls := Explosion(es, quantity, s).value;
    var t1 := Inserted(t, id, code, quantity);
    ExplodedParts(es, quantity, s);
    SyncSettles(t1, id, ls, f.sync);
    SyncKeepsOrders(t1, id, ls, f.sync);
    var t' := AfterPlan(t, id, code, quantity, es, s, f);
    assert t'.logs == AfterSync(t1, id, ls, f.sync).logs;
    assert t'.orders[id].status == if f.statusFails then ClearToBuild else StatusFor(ls);
    SettledMeansStatus(t'.logs, id, es, quantity, s);
    forall o, p | o != id || !Uses(es, p)
      ensures LiveOf(t'.logs, o, p) == LiveOf(t.logs, o, p)
    {
      assert About(ls, p) ==> Uses(es, p);
    }
  }

  // ---------------------------------------------------------------- runs

  datatype Step =
    | Plan(id: string, code: string, quantity: int, supply: Supply, faults: CallFaults)
    | Readiness(id: string, supply: Supply, faults: CallFaults)
    | Remove(id: string, fails: bool)

  function BomOf(boms: map<string, seq<Bom.Entry>>, code: string): seq<Bom.Entry> {
    if code in boms then boms[code] else []
  }

  function Apply(t: Mrp, boms: map<string, seq<Bom.Entry>>, s: Step): Mrp {
    match s
    case Plan(id, code, quantity, supply, f) => AfterPlan(t, id, code, quantity, BomOf(boms, code), supply, f)
    case Readiness(id, supply, f) =>
      if id in t.orders then AfterReadiness(t, id, BomOf(boms, t.orders[id].code), supply, f) else t
    case Remove(id, fails) => AfterRemove(t, id, fails)
  }

  function Run(t: Mrp, boms: map<string, seq<Bom.Entry>>, steps: seq<Step>): Mrp
    decreases |steps|
  {
    if steps == [] then t else Run(Apply(t, boms, steps[0]), boms, steps[1..])
  }

  /** A new order takes a new id; the writes a call gets to succeed. Announcements may be lost. */
  ghost predicate Undisturbed(t: Mrp, s: Step) {
    match s
    case Plan(id, _, _, _, f) => FreshId(t, id) && !f.statusFails && !f.sync.readFails && f.sync.failing == {}
    case Readiness(_, _, f) => !f.statusFails && !f.sync.readFails && f.sync.failing == {}
    case Remove(_, _) => true
  }

  ghost predicate AllUndisturbed(t: Mrp, boms: map<string, seq<Bom.Entry>>, steps: seq<Step>)
    decreases |steps|
  {
    steps == [] || (Undisturbed(t, steps[0]) && AllUndisturbed(Apply(t, boms, steps[0]), boms, steps[1..]))
  }

  /** A live log of the order is about a component of it, and the order is short exactly when it has one. */
  ghost predicate HonestAbout(t: Mrp, boms: map<string, seq<Bom.Entry>>, id: string) {
    && (forall p :: LiveOf(t.logs, id, p) != [] ==> id in t.orders && Uses(BomOf(boms, t.orders[id].code), p))
    && (id in t.orders ==>
          t.orders[id].status
          == if HasLiveLog(t.logs, id, BomOf(boms, t.orders[id].code)) then Shortage else ClearToBuild)
  }

  ghost predicate Honest(t: Mrp, boms: map<string, seq<Bom.Entry>>) {
    Sound(t) && [] !in t.orders && forall o :: HonestAbout(t, boms, o)
  }

  ghost predicate DistinctBoms(boms: map<string, seq<Bom.Entry>>) {
    forall code :: code in boms ==> DistinctComponents(boms[code])
  }

  lemma SyncGoesThrough(t: Mrp, order: string, es: seq<Bom.Entry>, quantity: int, s: Supply, f: SyncFaults)
    requires DistinctComponents(es) && Explosion(es, quantity, s).Some? && order != [] && !f.readFails
              && f.failing == {}
    ensures SyncOk(t, order, Explosion(es, quantity, s).value, f)
  {
    ExplodedParts(es, quantity, s);
  }

  /** Only order id and its logs differ. */
  ghost predicate OnlyTouches(t: Mrp, t': Mrp, id: string) {
    && (forall o :: o != id ==> (o in t.orders <==> o in t'.orders))
    && (forall o :: o != id && o in t.orders ==> t'.orders[o] == t.orders[o])
    && (forall o, p :: o != id ==> LiveOf(t'.logs, o, p) == LiveOf(t.logs, o, p))
  }

  lemma OthersStayHonest(t: Mrp, t': Mrp, boms: map<string, seq<Bom.Entry>>, id: string)
    requires Honest(t, boms) && OnlyTouches(t, t', id)
    requires Sound(t') && id != [] && HonestAbout(t', boms, id)
    ensures Honest(t', boms)
  {
    forall o
      ensures HonestAbout(t', boms, o)
    {
      if o != id {
        assert HonestAbout(t, boms, o);
      }
    }
  }

  lemma ReadinessStaysHonest(t: Mrp, boms: map<string, seq<Bom.Entry>>, s: Step)
    requires Honest(t, boms) && DistinctBoms(boms) && s.Readiness? && Undisturbed(t, s)
    ensures Honest(Apply(t, boms, s), boms)
  {
    var t' := Apply(t, boms, s);
    if s.id in t.orders {
      var es, quantity := BomOf(boms, t.orders[s.id].code), t.orders[s.id].quantity;
      if Explosion(es, quantity, s.supply).Some? {
        var ls := Explosion(es, quantity, s.supply).value;
        SyncGoesThrough(t, s.id, es, quantity, s.supply, s.faults.sync);
        ReadinessMatchesLogs(t, s.id, es, s.supply, s.faults);
        ExplodedParts(es, quantity, s.supply);
        SyncKeepsSound(WithStatus(t, s.id, StatusFor(ls)), s.id, ls, s.faults.sync);
        SyncKeepsOrders(WithStatus(t, s.id, StatusFor(ls)), s.id, ls, s.faults.sync);
        assert HonestAbout(t, boms, s.id);
        OthersStayHonest(t, t', boms, s.id);
      }
    }
  }

  lemma UnexplodedPlanStaysHonest(t: Mrp, boms: map<string, seq<Bom.Entry>>, id: string, code: string, quantity: int)
    requires Honest(t, boms) && FreshId(t, id)
    ensures Honest(Inserted(t, id, code, quantity), boms)
  {
    OthersStayHonest(t, Inserted(t, id, code, quantity), boms, id);
  }

  lemma PlanTouchesItsOwn(t: Mrp, id: string, code: string, quantity: int, es: seq<Bom.Entry>, s: Supply, f: CallFaults)
    requires Sound(t) && DistinctComponents(es) && FreshId(t, id) && Reconciles(t, id, code, quantity, es, s, f)
    ensures var t' := AfterPlan(t, id, code, quantity, es, s, f);
            Sound(t') && OnlyTouches(t, t', id)
  {
    var created := Inserted(t, id, code, quantity);
    var ls := Explosion(es, quantity, s).value;
    var t' := AfterPlan(t, id, code, quantity, es, s, f);
    assert Sound(t') by {
      ExplodedParts(es, quantity, s);
      SyncKeepsSound(created, id, ls, f.sync);
    }
    assert forall o :: o != id ==>
        (o in t.orders <==> o in t'.orders) && (o in t.orders ==> t'.orders[o] == t.orders[o]) by {
      SyncKeepsOrders(created, id, ls, f.sync);
    }
    assert forall o, p :: o != id ==> LiveOf(t'.logs, o, p) == LiveOf(t.logs, o, p) by {
      PlanMatchesLogsIff(t, id, code, quantity, es, s, f);
    }
  }

  lemma ReconciledPlanStaysHonest(t: Mrp, boms: map<string, seq<Bom.Entry>>, id: string, code: string, quantity: int,
        s: Supply, f: CallFaults)
    requires Honest(t, boms) && DistinctBoms(boms) && FreshId(t, id) && !f.statusFails
    requires Reconciles(t, id, code, quantity, BomOf(boms, code), s, f)
    ensures Honest(AfterPlan(t, id, code, quantity, BomOf(boms, code), s, f), boms)
  {
    var es := BomOf(boms, code);
    var created := Inserted(t, id, code, quantity);
    var ls := Explosion(es, quantity, s).value;
    var t' := AfterPlan(t, id, code, quantity, es, s, f);
    PlanTouchesItsOwn(t, id, code, quantity, es, s, f);
    assert HonestAbout(t', boms, id) by {
      PlanMatchesLogsIff(t, id, code, quantity, es, s, f);
      SyncKeepsOrders(created, id, ls, f.sync);
      assert t'.orders[id].code == code;
    }
    OthersStayHonest(t, t', boms, id);
  }

  lemma PlanStaysHonest(t: Mrp, boms: map<string, seq<Bom.Entry>>, s: Step)
    requires Honest(t, boms) && DistinctBoms(boms) && s.Plan? && Undisturbed(t, s)
    ensures Honest(Apply(t, boms, s), boms)
  {
    var es := BomOf(boms, s.code);
    if Plannable(s.code, s.quantity) && !s.faults.createFails {
      if Explosion(es, s.quantity, s.supply).Some? {
        SyncGoesThrough(Inserted(t, s.id, s.code, s.quantity), s.id, es, s.quantity, s.supply, s.faults.sync);
        ReconciledPlanStaysHonest(t, boms, s.id, s.code, s.quantity, s.supply, s.faults);
      } else {
        UnexplodedPlanStaysHonest(t, boms, s.id, s.code, s.quantity);
      }
    }
  }

  lemma {:induction false} WithoutOrderLive(logs: seq<Log>, order: string, o: string, p: nat)
    ensures LiveOf(WithoutOrder(logs, order), o, p) == if o == order then [] else LiveOf(logs, o, p)
  {
    if logs != [] {
      WithoutOrderLive(logs[1..], order, o, p);
      assert logs[0].order != order ==> WithoutOrder(logs, order)[1..] == WithoutOrder(logs[1..], order);
    }
  }

  lemma {:induction false} WithoutOrderKeepsIds(logs: seq<Log>, order: string, nextLog: nat)
    requires DistinctIds(logs, nextLog)
    ensures DistinctIds(WithoutOrder(logs, order), nextLog)
    ensures forall g :: g in WithoutOrder(logs, order) ==> g in logs
  {
    if logs != [] {
      WithoutOrderKeepsIds(logs[1..], order, nextLog);
      var rest := WithoutOrder(logs[1..], order);
      forall j | 0 <= j < |rest|
        ensures rest[j].id != logs[0].id
      {
        assert rest[j] in logs[1..];
      }
    }
  }

  lemma RemoveStaysHonest(t: Mrp, boms: map<string, seq<Bom.Entry>>, id: string, fails: bool)
    requires Honest(t, boms)
    ensures Honest(AfterRemove(t, id, fails), boms)
  {
    if id in t.orders && !fails {
      var t' := AfterRemove(t, id, fails);
      forall o, p
        ensures LiveOf(t'.logs, o, p) == if o == id then [] else LiveOf(t.logs, o, p)
      {
        WithoutOrderLive(t.logs, id, o, p);
      }
      WithoutOrderKeepsIds(t.logs, id, t.nextLog);
      OthersStayHonest(t, t', boms, id);
    }
  }

  /** In every run of planning, readiness rows and removals, whatever the supply side answers at each call, each
      order is marked short exactly when one of its components has a live shortage log. */
  lemma {:induction false} RunStaysHonest(t: Mrp, boms: map<string, seq<Bom.Entry>>, steps: seq<Step>)
    requires Honest(t, boms) && DistinctBoms(boms) && AllUndisturbed(t, boms, steps)
    ensures Honest(Run(t, boms, steps), boms)
    decreases |steps|
  {
    if steps != [] {
      match steps[0] {
        case Plan(_, _, _, _, _) => PlanStaysHonest(t, boms, steps[0]);
        case Readiness(_, _, _) => ReadinessStaysHonest(t, boms, steps[0]);
        case Remove(id, fails) => RemoveStaysHonest(t, boms, id, fails);
      }
      RunStaysHonest(Apply(t, boms, steps[0]), boms, steps[1..]);
    }
  }

  // ---------------------------------------------------------------- buildable quantity

  lemma QuotientAtLeast(n: int, x: int, y: int)
    requires y > 0
    ensures n <= x / y <==> n * y <= x
  {
    var q := x / y;
    assert x == q * y + x % y;
    if n <= q {
      assert n * y <= q * y;
    } else {
      assert (q + 1) * y <= n * y;
    }
  }

  lemma ScalingKeepsOrder(a: int, b: int, k: int)
    requires k > 0
    ensures a * k <= b * k <==> a <= b
  {
    if a > b {
      assert (b + 1) * k <= a * k;
    }
  }

  lemma PerUnitAtLeast(n: int, available: int, perUnit: int, quantity: int)
    requires perUnit > 0 && quantity > 0
    ensures perUnit * quantity > 0
    ensures n <= (available * quantity) / (perUnit * quantity) <==> perUnit * n <= available
  {
    var required := perUnit * quantity;
    assert required > 0 by { ScalingKeepsOrder(1, perUnit, quantity); }
    QuotientAtLeast(n, available * quantity, required);
    assert n * required == (perUnit * n) * quantity;
    ScalingKeepsOrder(perUnit * n, available, quantity);
  }

  lemma SignsOfProducts(n: int, available: int, perUnit: int, quantity: int)
    requires n >= 1 && perUnit > 0 && quantity > 0
    ensures perUnit * quantity > 0 && perUnit * n > 0
    ensures available * quantity < 0 <==> available < 0
  {
    ScalingKeepsOrder(1, perUnit, quantity);
    ScalingKeepsOrder(1, n, perUnit);
    ScalingKeepsOrder(0, available, quantity);
  }

  lemma TruncatedAtLeast(n: int, available: int, perUnit: int, quantity: int)
    requires n >= 1 && perUnit > 0 && quantity > 0
    ensures perUnit * quantity > 0
    ensures n <= Truncated(available * quantity, perUnit * quantity) <==> perUnit * n <= available
  {
    SignsOfProducts(n, available, perUnit, quantity);
    PerUnitAtLeast(n, available, perUnit, quantity);
    TruncatedQuotient(available * quantity, perUnit * quantity);
  }

  lemma TruncatedQuotient(a: int, b: int)
    requires b > 0
    ensures Truncated(a, b) == if a < 0 then -(-a / b) else a / b
    ensures a < 0 ==> Truncated(a, b) <= 0
  {
    if a < 0 {
      QuotientAtLeast(0, -a, b);
    }
  }

  lemma {:induction false} LeastBuildAtLeast(ls: seq<Requirement>, quantity: int, least: int, n: int)
    ensures n <= LeastBuild(ls, quantity, least) <==>
              n <= least && forall i :: 0 <= i < |ls| && ls[i].required != 0 ==> n <= CanBuild(ls[i], quantity)
  {
    if ls != [] {
      var least' := if ls[0].required == 0 || CanBuild(ls[0], quantity) >= least then least
          else CanBuild(ls[0], quantity);
      LeastBuildAtLeast(ls[1..], quantity, least', n);
      assert ls == [ls[0]] + ls[1..];
    }
  }

  /** The stock on hand is enough for n units of every component. */
  ghost predicate StockBuilds(es: seq<Bom.Entry>, s: Supply, n: int)
    requires forall i :: 0 <= i < |es| ==> es[i].part in s.parts
  {
    forall i :: 0 <= i < |es| ==> es[i].qty * n <= s.parts[es[i].part].stock
  }

  /** The ready quantity is the greatest one, up to the ordered quantity, that the stock on hand can build: the
      capped minimum of truncated quotients loses nothing, whatever the stock figures are. */
  lemma QtyReadyIsGreatest(es: seq<Bom.Entry>, quantity: int, s: Supply, n: int)
    requires Explosion(es, quantity, s).Some? && quantity >= 1
    ensures forall i :: 0 <= i < |es| ==> es[i].part in s.parts
    ensures 0 <= QtyReady(Explosion(es, quantity, s).value, quantity) <= quantity
    ensures 1 <= n <= quantity ==>
              (n <= QtyReady(Explosion(es, quantity, s).value, quantity) <==> StockBuilds(es, s, n))
  {
    ExplosionFollowsEntries(es, quantity, s);
    var ls := Explosion(es, quantity, s).value;
    assert forall i :: 0 <= i < |es| ==> Explodable(es[i], quantity, s);
    LeastBuildAtLeast(ls, quantity, quantity, quantity + 1);
    if 1 <= n <= quantity {
      LeastBuildAtLeast(ls, quantity, quantity, n);
      forall i | 0 <= i < |es|
        ensures ls[i].required != 0
        ensures n <= CanBuild(ls[i], quantity) <==> es[i].qty * n <= s.parts[es[i].part].stock
      {
        assert Explodable(es[i], quantity, s);
        assert es[i].qty > 0 by {
          if es[i].qty <= 0 {
            ScalingKeepsOrder(es[i].qty, 0, quantity);
          }
        }
        TruncatedAtLeast(n, s.parts[es[i].part].stock, es[i].qty, quantity);
      }
    }
  }

  /** An order is not fully ready exactly when some component's stock on hand falls short of the requirement; a
      short order never is, as long as nothing negative is coming in. */
  lemma FullyReadyIff(es: seq<Bom.Entry>, quantity: int, s: Supply)
    requires Explosion(es, quantity, s).Some? && quantity >= 1
    ensures var ls := Explosion(es, quantity, s).value;
            && (QtyReady(ls, quantity) == quantity <==> forall i :: 0 <= i < |ls| ==> ls[i].required <= ls[i].available)
            && (StatusFor(ls) == Shortage && (forall i :: 0 <= i < |ls| ==> ls[i].incoming >= 0)
                ==> QtyReady(ls, quantity) < quantity)
  {
    QtyReadyIsGreatest(es, quantity, s, quantity);
    ExplosionFollowsEntries(es, quantity, s);
    assert forall i :: 0 <= i < |es| ==> Explodable(es[i], quantity, s);
    var ls := Explosion(es, quantity, s).value;
    if forall i :: 0 <= i < |ls| ==> ls[i].required <= ls[i].available {
      forall i | 0 <= i < |es|
        ensures es[i].qty * quantity <= s.parts[es[i].part].stock
      {
        assert ls[i].required <= ls[i].available;
      }
    }
  }
}
