/**
 After a hand-off: what exploding the order again counts, when a second hand-off is refused, and what is left of
 the announcements made while planning.
 */
module HandoffAftermath {
  import opened Sequences
  import opened Options
  import opened MrpModel
  import opened HandoffModel
  import opened HandoffLaws
  import opened OrderSearch
  import Bom = BomModel
  import Buying = ProcurementModel
  import MrpAnswers
  import OrderLaws
  import Pool = DeficitPool
  import PoolLaws = DeficitLaws
  import ReadinessLaws
  import Routing = VendorRouting
  import ShortageLaws

  // ---------------------------------------------------------------- drafts, whatever fails

  /** Nothing but order po differs, and it is still the same vendor's draft. */
  ghost predicate TouchesOnly(p: Buying.Procurement, p': Buying.Procurement, po: Buying.OrderId)
    requires IsDraft(p, po)
  {
    && IsDraft(p', po) && p'.orders.Keys == p.orders.Keys && p'.orders[po].vendor == p.orders[po].vendor
    && forall id :: id in p.orders && id != po ==> p'.orders[id] == p.orders[id]
  }

  lemma {:induction false} LinesTouchOnlyTheDraft(p: Buying.Procurement, po: Buying.OrderId, order: string,
          ls: seq<Requirement>, f: HandoffFaults)
    requires IsDraft(p, po)
    ensures TouchesOnly(p, HandLines(p, po, order, ls, f).state, po)
    decreases |ls|
  {
    if ls != [] {
      LineTouchesOnlyTheDraft(p, po, order, ls[0], f);
      LinesTouchOnlyTheDraft(HandLine(p, po, order, ls[0], f).state, po, order, ls[1..], f);
    }
  }

  lemma LineTouchesOnlyTheDraft(p: Buying.Procurement, po: Buying.OrderId, order: string, l: Requirement,
          f: HandoffFaults)
    requires IsDraft(p, po)
    ensures IsDraft(HandLine(p, po, order, l, f).state, po) && TouchesOnly(p, HandLine(p, po, order, l, f).state, po)
  {
  }

  /** The orders there were are the same, and every other one is a draft. */
  ghost predicate OnlyDraftsAdded(p: Buying.Procurement, p': Buying.Procurement) {
    && (forall id :: id in p.orders ==> id in p'.orders && p'.orders[id] == p.orders[id])
    && (forall id :: id in p'.orders && id !in p.orders ==> p'.orders[id].status == Buying.Draft)
  }

  lemma VendorAddsOneDraft(p: Buying.Procurement, vendor: nat, year: nat, order: string, ls: seq<Requirement>,
          f: HandoffFaults)
    ensures var x := HandVendor(p, vendor, year, order, ls, f);
            && OnlyDraftsAdded(p, x.state)
            && (x.result == Buying.Ok ==> Buying.VendorBusy(x.state, vendor))
  {
    if Buying.DraftOutcome(p, vendor, year, vendor in f.drafts) == Buying.Ok {
      var po := Buying.NextOrderId(p, year);
      var drafted := Buying.AfterDraft(p, vendor, year, vendor in f.drafts);
      LinesTouchOnlyTheDraft(drafted, po, order, ls, f);
      var p' := HandLines(drafted, po, order, ls, f).state;
      assert po in p'.orders && p'.orders[po].vendor == vendor && Buying.Blocks(p'.orders[po].status);
    }
  }

  lemma StillBusy(p: Buying.Procurement, p': Buying.Procurement, vendor: nat)
    requires OnlyDraftsAdded(p, p') && Buying.VendorBusy(p, vendor)
    ensures Buying.VendorBusy(p', vendor)
  {
    var id :| id in p.orders && p.orders[id].vendor == vendor && Buying.Blocks(p.orders[id].status);
    assert id in p'.orders && p'.orders[id] == p.orders[id];
  }

  /** However the calls fail, a hand-off only adds drafts, and one that goes through leaves every vendor busy. */
  lemma {:induction false} HandoffOnlyAddsDrafts(p: Buying.Procurement, visit: seq<nat>, year: nat, order: string,
          ls: seq<Requirement>, v: Routing.Vendors, f: HandoffFaults)
    ensures var x := HandVendors(p, visit, year, order, ls, v, f);
            && OnlyDraftsAdded(p, x.state)
            && (x.result == Buying.Ok ==> forall vendor :: vendor in visit ==> Buying.VendorBusy(x.state, vendor))
    decreases |visit|
  {
    if visit != [] {
      var first := HandVendor(p, visit[0], year, order, ForVendor(ls, v, visit[0]), f);
      VendorAddsOneDraft(p, visit[0], year, order, ForVendor(ls, v, visit[0]), f);
      if first.result == Buying.Ok {
        HandoffOnlyAddsDrafts(first.state, visit[1..], year, order, ls, v, f);
        StillBusy(first.state, HandVendors(p, visit, year, order, ls, v, f).state, visit[0]);
      }
    }
  }

  // ---------------------------------------------------------------- looking at the order again

  /** What exploding an order sees: the parts, and the purchase orders its model code finds. */
  function SupplyFor(parts: map<nat, Part>, p: Buying.Procurement, t: OrderTable, code: string): Supply {
    Supply(parts, Listed(p.orders, t, code))
  }

  /** The new orders, in the order they are stored. */
  ghost predicate AreNewIds(news: seq<Buying.OrderId>, p: Buying.Procurement, p': Buying.Procurement) {
    forall id :: id in news <==> id in p'.orders && id !in p.orders
  }

  /** Exploding an order again after a hand-off gives what it gave before: the table of orders has no target_build
      column any more, so a search by model code counts nothing; and with the column the new drafts, which have no
      target build, are found only if the code happens to be part of an id or of the word Draft. */
  lemma HandoffIsNotCounted(p: Buying.Procurement, visit: seq<nat>, year: nat, order: string, ls: seq<Requirement>,
          v: Routing.Vendors, f: HandoffFaults, parts: map<nat, Part>, t: OrderTable, code: string,
          news: seq<Buying.OrderId>, es: seq<Bom.Entry>, quantity: int)
    requires IsTableOf(t, p.orders) && AreNewIds(news, p, Handoff(p, visit, year, order, ls, v, f).state)
    requires (code != [] && t.targetBuilds.None?) || Unfound(news, code)
    ensures var p' := Handoff(p, visit, year, order, ls, v, f).state;
            Explosion(es, quantity, SupplyFor(parts, p', WithRows(t, news), code))
              == Explosion(es, quantity, SupplyFor(parts, p, t, code))
  {
    var p' := Handoff(p, visit, year, order, ls, v, f).state;
    HandoffOnlyAddsDrafts(p, visit, year, order, ls, v, f);
    DraftsAreNotListed(p.orders, p'.orders, t, news, code);
  }

  /** With the table as it is, nothing is ever counted as incoming: an order is short exactly if stock alone does not
      cover it, and what is asked of a short component is what its shortage log says. */
  lemma NothingIsIncoming(p: Buying.Procurement, parts: map<nat, Part>, t: OrderTable, code: string,
          es: seq<Bom.Entry>, quantity: int, i: nat)
    requires code != [] && t.targetBuilds.None? && i < |es|
    requires Explosion(es, quantity, SupplyFor(parts, p, t, code)).Some?
    ensures var l := Explosion(es, quantity, SupplyFor(parts, p, t, code)).value[i];
            && l.incoming == 0
            && (l.short <==> l.required > l.available)
            && (l.short ==> Asked(l) == Wanted(l))
  {
    ReadinessLaws.ExplosionFollowsEntries(es, quantity, SupplyFor(parts, p, t, code));
    assert Explodable(es[i], quantity, SupplyFor(parts, p, t, code));
  }

  /** Once a hand-off of these shortages went through, every other one is refused before it has done anything: each
      of their vendors has a draft. */
  lemma SecondHandoffIsRefused(p: Buying.Procurement, visit: seq<nat>, year: nat, order: string, ls: seq<Requirement>,
          v: Routing.Vendors, f: HandoffFaults, laterVisit: seq<nat>, laterYear: nat, g: HandoffFaults)
    requires Handoff(p, visit, year, order, ls, v, f).result == Buying.Ok
    requires Visits(visit, ls, v) && Visits(laterVisit, ls, v) && ls != []
    ensures var p' := Handoff(p, visit, year, order, ls, v, f).state;
            Handoff(p', laterVisit, laterYear, order, ls, v, g) == Outcome(p', Buying.MonoVendorViolation)
  {
    HandoffOnlyAddsDrafts(p, visit, year, order, ls, v, f);
    var vendor := VendorFor(v, ls[0].sku).value;
    assert Supplies(ls, v, vendor) && vendor in laterVisit;
    assert laterVisit[0] in laterVisit && Supplies(ls, v, laterVisit[0]);
    assert laterVisit[0] in visit;
  }

  /** So handing an order off does not make it less short, and asking for its purchase orders again fails: the second
      look finds the same shortages, and their vendors are taken. */
  lemma HandedOffOrderStaysShort(p: Buying.Procurement, visit: seq<nat>, year: nat, order: string, v: Routing.Vendors,
          f: HandoffFaults, parts: map<nat, Part>, t: OrderTable, code: string, news: seq<Buying.OrderId>,
          es: seq<Bom.Entry>, quantity: int, laterVisit: seq<nat>, laterYear: nat, g: HandoffFaults)
    requires IsTableOf(t, p.orders) && code != [] && t.targetBuilds.None?
    requires Explosion(es, quantity, SupplyFor(parts, p, t, code)).Some?
    requires var ls := Shortages(Explosion(es, quantity, SupplyFor(parts, p, t, code)).value);
             && ls != [] && Visits(visit, ls, v) && Visits(laterVisit, ls, v)
             && Handoff(p, visit, year, order, ls, v, f).result == Buying.Ok
             && AreNewIds(news, p, Handoff(p, visit, year, order, ls, v, f).state)
    ensures var ls := Shortages(Explosion(es, quantity, SupplyFor(parts, p, t, code)).value);
            var p' := Handoff(p, visit, year, order, ls, v, f).state;
            var again := Explosion(es, quantity, SupplyFor(parts, p', WithRows(t, news), code));
            && again.Some? && StatusFor(again.value) == Shortage && Shortages(again.value) == ls
            && Handoff(p', laterVisit, laterYear, order, Shortages(again.value), v, g)
               == Outcome(p', Buying.MonoVendorViolation)
  {
    var ls := Shortages(Explosion(es, quantity, SupplyFor(parts, p, t, code)).value);
    HandoffIsNotCounted(p, visit, year, order, ls, v, f, parts, t, code, news, es, quantity);
    SecondHandoffIsRefused(p, visit, year, order, ls, v, f, laterVisit, laterYear, g);
    ShortagesMeanShort(Explosion(es, quantity, SupplyFor(parts, p, t, code)).value);
  }

  lemma {:induction false} ShortagesMeanShort(ls: seq<Requirement>)
    ensures Shortages(ls) != [] <==> StatusFor(ls) == Shortage
  {
    if ls != [] {
      ShortagesMeanShort(ls[1..]);
      assert ls == [ls[0]] + ls[1..];
      if StatusFor(ls[1..]) == Shortage {
        var i :| 0 <= i < |ls[1..]| && ls[1..][i].short;
        assert ls[i + 1].short;
      }
      if StatusFor(ls) == Shortage && !ls[0].short {
        var i :| 0 <= i < |ls| && ls[i].short;
        assert ls[1..][i - 1].short;
      }
    }
  }

  // ---------------------------------------------------------------- had the orders been found

  lemma {:induction false} NewOrdersBringWhatIsAsked(visit: seq<nat>, ls: seq<Requirement>, v: Routing.Vendors,
          stock: map<string, Buying.Stock>, sku: string)
    requires AllStocked(visit, ls, v, stock) && Distinct(visit)
    ensures Incoming(NewOrders(visit, ls, v, stock), sku)
            == if Visited(visit, VendorFor(v, sku)) then AskedOf(ls, sku) else 0
  {
    if visit != [] {
      var mine := ForVendor(ls, v, visit[0]);
      NewOrdersBringWhatIsAsked(visit[1..], ls, v, stock, sku);
      LinesOrderWhatIsAsked(mine, stock, sku);
      AskedOfVendor(ls, v, visit[0], sku);
      assert NewOrders(visit, ls, v, stock)[1..] == NewOrders(visit[1..], ls, v, stock);
    }
  }

  lemma {:induction false} ShortagesAsk(ls: seq<Requirement>, i: nat)
    requires i < |ls| && ls[i].short
    ensures AskedOf(Shortages(ls), ls[i].sku) >= Asked(ls[i])
  {
    if ls[0].short {
      assert Shortages(ls)[1..] == Shortages(ls[1..]);
    } else {
      assert Shortages(ls) == Shortages(ls[1..]);
    }
    if i > 0 {
      ShortagesAsk(ls[1..], i - 1);
    }
  }

  lemma {:induction false} AskedOfAbsent(ls: seq<Requirement>, sku: string)
    requires forall i :: 0 <= i < |ls| ==> ls[i].sku != sku
    ensures AskedOf(Shortages(ls), sku) == 0
  {
    if ls != [] {
      assert forall i :: 0 <= i < |ls[1..]| ==> ls[1..][i] == ls[i + 1];
      AskedOfAbsent(ls[1..], sku);
      if ls[0].short {
        assert Shortages(ls)[1..] == Shortages(ls[1..]);
      } else {
        assert Shortages(ls) == Shortages(ls[1..]);
      }
    }
  }

  ghost predicate DistinctSkus(ls: seq<Requirement>) {
    forall i, j :: 0 <= i < j < |ls| ==> ls[i].sku != ls[j].sku
  }

  lemma {:induction false} ShortagesAskExactly(ls: seq<Requirement>, i: nat)
    requires DistinctSkus(ls) && i < |ls|
    ensures AskedOf(Shortages(ls), ls[i].sku) == if ls[i].short && Asked(ls[i]) > 0 then Asked(ls[i]) else 0
  {
    if ls[0].short {
      assert Shortages(ls)[1..] == Shortages(ls[1..]);
    } else {
      assert Shortages(ls) == Shortages(ls[1..]);
    }
    if i > 0 {
      ShortagesAskExactly(ls[1..], i - 1);
    } else {
      AskedOfAbsent(ls[1..], ls[0].sku);
    }
  }

  lemma {:induction false} IncomingAsIfListed(es: seq<Bom.Entry>, quantity: int, s: Supply, s': Supply, i: nat)
    requires s'.parts == s.parts && Explosion(es, quantity, s).Some? && i < |es|
    ensures Explosion(es, quantity, s').Some?
    ensures var l, l' := Explosion(es, quantity, s).value[i], Explosion(es, quantity, s').value[i];
            && l'.sku == l.sku && l'.required == l.required && l'.available == l.available
            && l.incoming == Incoming(s.listing, l.sku) && l'.incoming == Incoming(s'.listing, l.sku)
            && (l.short <==> l.required > l.available + l.incoming)
            && (l'.short <==> l'.required > l'.available + l'.incoming)
  {
    ReadinessLaws.ExplosionFollowsEntries(es, quantity, s);
    forall k | 0 <= k < |es|
      ensures Explodable(es[k], quantity, s')
    {
      assert Explodable(es[k], quantity, s);
    }
    ReadinessLaws.ExplosionFollowsEntries(es, quantity, s');
  }

  /** The ids of the new orders, newest first. */
  function NewestIds(year: nat, count: nat, n: nat): (ids: seq<Buying.OrderId>)
    ensures |ids| == n
    ensures forall i :: 0 <= i < n ==> ids[i] == Buying.OrderId(year, count + n - i)
  {
    if n == 0 then [] else [Buying.OrderId(year, count + n)] + NewestIds(year, count, n - 1)
  }

  lemma {:induction false} IncomingBackwards(found: seq<Buying.PurchaseOrder>, news: seq<Buying.PurchaseOrder>,
          sku: string)
    requires |found| == |news| && forall i :: 0 <= i < |news| ==> found[i] == news[|news| - 1 - i]
    ensures Incoming(found, sku) == Incoming(news, sku)
  {
    if news != [] {
      var before, last := news[..|news| - 1], news[|news| - 1];
      IncomingBackwards(found[1..], before, sku);
      assert news == before + [last];
      MrpAnswers.IncomingOfMoreOrders(before, [last], sku);
      assert [last][1..] == [] && found[0] == last;
    }
  }

  /** Every new order is on the page: the table has the column, the code is part of the word Draft, and the page has
      room for the new orders and all matches there were. */
  predicate PageHasRoom(p: Buying.Procurement, t: OrderTable, code: string, visit: seq<nat>) {
    && code != [] && t.targetBuilds.Some? && Contains(StatusText(Buying.Draft), code)
    && |visit| + |Matching(p.orders, t.targetBuilds.value, t.newestFirst, code)| <= PAGE
  }

  lemma NewOrdersAreListed(p: Buying.Procurement, visit: seq<nat>, year: nat, order: string, ls: seq<Requirement>,
          v: Routing.Vendors, t: OrderTable, code: string, sku: string)
    requires OrderLaws.NumberedWithin(p) && Pool.NonNegative(p.deficits.pool) && Visits(visit, ls, v)
    requires Handoff(p, visit, year, order, ls, v, UNDISTURBED).result == Buying.Ok
    requires IsTableOf(t, p.orders) && PageHasRoom(p, t, code, visit)
    ensures AllStocked(visit, ls, v, p.stock)
    ensures var p' := Handoff(p, visit, year, order, ls, v, UNDISTURBED).state;
            var news := NewestIds(year, |Buying.OrdersOfYear(p, year)|, |visit|);
            && AreNewIds(news, p, p')
            && Incoming(Listed(p'.orders, WithRows(t, news), code), sku)
               == Incoming(Listed(p.orders, t, code), sku) + Incoming(NewOrders(visit, ls, v, p.stock), sku)
  {
    var count := |Buying.OrdersOfYear(p, year)|;
    HandoffWrites(p, visit, year, order, ls, v);
    var p' := Handoff(p, visit, year, order, ls, v, UNDISTURBED).state;
    var drafts := NewOrders(visit, ls, v, p.stock);
    NewOrdersAreDrafts(visit, ls, v, p.stock);
    NewIdsAreTheDrafts(p.orders, year, count, drafts);
    NewDraftsAreListed(p.orders, p'.orders, t, NewestIds(year, count, |visit|), drafts, code, sku);
  }

  lemma NewDraftsAreListed(before: map<Buying.OrderId, Buying.PurchaseOrder>,
          after: map<Buying.OrderId, Buying.PurchaseOrder>, t: OrderTable, ids: seq<Buying.OrderId>,
          drafts: seq<Buying.PurchaseOrder>, code: string, sku: string)
    requires IsTableOf(t, before) && AddsDrafts(before, after, ids) && |ids| == |drafts|
    requires forall i :: 0 <= i < |drafts| ==> ids[i] in after && after[ids[i]] == drafts[|drafts| - 1 - i]
    requires code != [] && t.targetBuilds.Some? && Contains(StatusText(Buying.Draft), code)
    requires |drafts| + |Matching(before, t.targetBuilds.value, t.newestFirst, code)| <= PAGE
    ensures Incoming(Listed(after, WithRows(t, ids), code), sku)
         == Incoming(Listed(before, t, code), sku) + Incoming(drafts, sku)
  {
    DraftsAreListed(before, after, t, ids, code);
    var found := Matching(after, t.targetBuilds.value, ids, code);
    IncomingBackwards(found, drafts, sku);
    MrpAnswers.IncomingOfMoreOrders(found, Matching(before, t.targetBuilds.value, t.newestFirst, code), sku);
  }

  lemma NewestIdsAreThose(year: nat, count: nat, n: nat, id: Buying.OrderId)
    ensures id in NewestIds(year, count, n) <==> id.year == year && count < id.number <= count + n
  {
    var ids := NewestIds(year, count, n);
    if id.year == year && count < id.number <= count + n {
      assert ids[count + n - id.number] == id;
    }
  }

  lemma {:induction false} NewOrdersAreDrafts(visit: seq<nat>, ls: seq<Requirement>, v: Routing.Vendors,
          stock: map<string, Buying.Stock>)
    requires AllStocked(visit, ls, v, stock)
    ensures forall i :: 0 <= i < |visit| ==> NewOrders(visit, ls, v, stock)[i].status == Buying.Draft
  {
    if visit != [] {
      NewOrdersAreDrafts(visit[1..], ls, v, stock);
    }
  }

  lemma NewIdsAreTheDrafts(orders: map<Buying.OrderId, Buying.PurchaseOrder>, year: nat, count: nat,
          drafts: seq<Buying.PurchaseOrder>)
    requires forall id :: id in orders && id.year == year ==> id.number <= count
    requires forall i :: 0 <= i < |drafts| ==> drafts[i].status == Buying.Draft
    ensures var ids, after := NewestIds(year, count, |drafts|), WithOrders(orders, year, count, drafts);
            && AddsDrafts(orders, after, ids)
            && (forall id :: id in ids <==> id in after && id !in orders)
            && forall i :: 0 <= i < |drafts| ==> ids[i] in after && after[ids[i]] == drafts[|drafts| - 1 - i]
  {
    var ids, after := NewestIds(year, count, |drafts|), WithOrders(orders, year, count, drafts);
    forall id: Buying.OrderId
      ensures id in ids <==> id in after && id !in orders
      ensures id in orders ==> id in after && after[id] == orders[id]
      ensures id in ids ==> id in after && after[id].status == Buying.Draft
    {
      WithOrdersAt(orders, year, count, drafts, id);
      NewestIdsAreThose(year, count, |drafts|, id);
    }
    forall i | 0 <= i < |drafts|
      ensures ids[i] in after && after[ids[i]] == drafts[|drafts| - 1 - i]
    {
      WithOrdersAt(orders, year, count, drafts, ids[i]);
    }
  }

  /** Only where the search does find every new order does a second look count what was asked as incoming, so that
      nothing is short any more. What was incoming already was then ordered once more. */
  lemma FoundHandoffClearsShortages(p: Buying.Procurement, visit: seq<nat>, year: nat, order: string,
          es: seq<Bom.Entry>, quantity: int, v: Routing.Vendors, parts: map<nat, Part>, t: OrderTable, code: string,
          i: nat)
    requires OrderLaws.NumberedWithin(p) && Pool.NonNegative(p.deficits.pool)
    requires IsTableOf(t, p.orders) && PageHasRoom(p, t, code, visit)
    requires Explosion(es, quantity, SupplyFor(parts, p, t, code)).Some? && i < |es|
    requires var short := Shortages(Explosion(es, quantity, SupplyFor(parts, p, t, code)).value);
             && Visits(visit, short, v)
             && Handoff(p, visit, year, order, short, v, UNDISTURBED).result == Buying.Ok
    ensures var ls := Explosion(es, quantity, SupplyFor(parts, p, t, code)).value;
            var p' := Handoff(p, visit, year, order, Shortages(ls), v, UNDISTURBED).state;
            var news := NewestIds(year, |Buying.OrdersOfYear(p, year)|, |visit|);
            var again := Explosion(es, quantity, SupplyFor(parts, p', WithRows(t, news), code));
            && AreNewIds(news, p, p') && again.Some?
            && again.value[i].incoming == ls[i].incoming + AskedOf(Shortages(ls), ls[i].sku)
            && (ls[i].incoming >= 0 ==> !again.value[i].short)
            && (DistinctSkus(ls) && ls[i].short && Asked(ls[i]) > 0 ==>
                  again.value[i].available + again.value[i].incoming == ls[i].required + ls[i].incoming)
  {
    var s := SupplyFor(parts, p, t, code);
    var ls := Explosion(es, quantity, s).value;
    var short, sku := Shortages(ls), ls[i].sku;
    var p' := Handoff(p, visit, year, order, short, v, UNDISTURBED).state;
    var news := NewestIds(year, |Buying.OrdersOfYear(p, year)|, |visit|);
    IncomingAsIfListed(es, quantity, s, SupplyFor(parts, p', WithRows(t, news), code), i);
    NewOrdersAreListed(p, visit, year, order, short, v, t, code, sku);
    NewOrdersBringWhatIsAsked(visit, short, v, p.stock, sku);
    NotVisitedNotAsked(short, v, sku);
    if ls[i].short {
      ShortagesAsk(ls, i);
    }
    if DistinctSkus(ls) {
      ShortagesAskExactly(ls, i);
    }
  }

  // ---------------------------------------------------------------- hand-offs that break off

  /** A vendor's turn that breaks off after its draft was made leaves the draft. In every run of procurement calls
      after which that draft has not stopped blocking, a later turn of the vendor is turned away before it has done
      anything. */
  lemma HalfFilledDraftBlocksRetry(p: Buying.Procurement, vendor: nat, year: nat, order: string, ls: seq<Requirement>,
          f: HandoffFaults, steps: seq<Buying.Step>, laterYear: nat, later: seq<Requirement>, g: HandoffFaults)
    requires Buying.DraftOutcome(p, vendor, year, vendor in f.drafts) == Buying.Ok
    ensures var q := Buying.Run(HandVendor(p, vendor, year, order, ls, f).state, steps);
            var po := Buying.NextOrderId(p, year);
            && po in q.orders && q.orders[po].vendor == vendor
            && (Buying.Blocks(q.orders[po].status) ==>
                  HandVendor(q, vendor, laterYear, order, later, g) == Outcome(q, Buying.MonoVendorViolation))
  {
    var po := Buying.NextOrderId(p, year);
    LinesTouchOnlyTheDraft(Buying.AfterDraft(p, vendor, year, vendor in f.drafts), po, order, ls, f);
    OrderLaws.RunKeepsOrder(HandVendor(p, vendor, year, order, ls, f).state, steps, po);
  }

  // ---------------------------------------------------------------- announced twice

  /** Planning announces an order's shortages, and the hand-off announces them again to lock them: after both,
      undisturbed, the planning announcement still waits in the pool, in flight or among the dead letters, on top of
      what is reserved. */
  lemma PlanningAnnouncementStays(p: Buying.Procurement, t: Mrp, order: string, ls: seq<Requirement>, visit: seq<nat>,
          year: nat, v: Routing.Vendors, sku: string)
    requires ShortageLaws.Sound(t) && SyncOk(t, order, ls, SYNCS)
    requires forall i :: 0 <= i < |ls| ==> LiveOf(t.logs, order, ls[i].part) == []
    requires OrderLaws.NumberedWithin(p) && Pool.NonNegative(p.deficits.pool) && Visits(visit, Shortages(ls), v)
    ensures t.published <= AfterSync(t, order, ls, SYNCS).published
    ensures var announced := AfterSync(t, order, ls, SYNCS).published[|t.published|..];
            var p1 := p.(deficits := p.deficits.(pool := p.deficits.pool + announced));
            var x := Handoff(p1, visit, year, order, Shortages(ls), v, UNDISTURBED);
            && PoolLaws.InSystem(Pool.UnitsOf(sku), x.state.deficits)
               == PoolLaws.InSystem(Pool.UnitsOf(sku), p.deficits) + ShortageLaws.WantedOf(ls, sku)
            && (x.result == Buying.Ok ==>
                  Pool.Units(x.state.deficits.reserved, sku)
                  == Pool.Units(p.deficits.reserved, sku) + AskedOf(Shortages(ls), sku))
  {
    var published := AfterSync(t, order, ls, SYNCS).published;
    ShortageLaws.FirstSyncAnnouncesTheShortage(t, order, ls, sku);
    var announced := published[|t.published|..];
    assert published == t.published + announced;
    Pool.SumAppend(Pool.UnitsOf(sku), t.published, announced);
    ShortageLaws.FirstSyncAnnouncesPositive(t, order, ls);
    var p1 := p.(deficits := p.deficits.(pool := p.deficits.pool + announced));
    Pool.SumAppend(Pool.UnitsOf(sku), p.deficits.pool, announced);
    assert Buying.OrdersOfYear(p1, year) == Buying.OrdersOfYear(p, year) && OrderLaws.NumberedWithin(p1) by {
      assert forall y :: Buying.OrdersOfYear(p1, y) == Buying.OrdersOfYear(p, y);
    }
    if Sourced(Shortages(ls), v) {
      VendorsGoThrough(p1, visit, year, order, Shortages(ls), v);
    }
    if Handoff(p1, visit, year, order, Shortages(ls), v, UNDISTURBED).result == Buying.Ok {
      EachShortageOnOneOrder(p1, visit, year, order, Shortages(ls), v, sku);
    }
  }
}
