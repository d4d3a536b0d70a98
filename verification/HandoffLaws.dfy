/**
 The hand-off put together with the deficit pool and the purchase orders: when it goes through, and what it leaves
 in each of them.
 */
module HandoffLaws {
  import opened Sequences
  import opened Options
  import opened MrpModel
  import opened HandoffModel
  import Buying = ProcurementModel
  import OrderLaws
  import Pool = DeficitPool
  import PoolLaws = DeficitLaws
  import Routing = VendorRouting

  // ---------------------------------------------------------------- what should come out

  predicate StockedLine(l: Requirement, stock: map<string, Buying.Stock>) {
    Asked(l) > 0 ==> l.sku in stock
  }

  /** Everything that is ordered has a stock row to take the unit cost from. */
  predicate Stocked(ls: seq<Requirement>, stock: map<string, Buying.Stock>) {
    ls == [] || (StockedLine(ls[0], stock) && Stocked(ls[1..], stock))
  }

  function LineFor(l: Requirement, stock: map<string, Buying.Stock>): seq<Buying.OrderLine>
    requires StockedLine(l, stock)
  {
    if Asked(l) > 0 then [Buying.OrderLine(l.sku, Asked(l), 0, stock[l.sku].unitCost)] else []
  }

  function LinesFor(ls: seq<Requirement>, stock: map<string, Buying.Stock>): seq<Buying.OrderLine>
    requires Stocked(ls, stock)
  {
    if ls == [] then [] else LineFor(ls[0], stock) + LinesFor(ls[1..], stock)
  }

  function Reservation(l: Requirement): seq<Pool.Delivery> {
    if Asked(l) > 0 then [Pool.Message(l.sku, Asked(l))] else []
  }

  function Reservations(ls: seq<Requirement>): seq<Pool.Delivery> {
    if ls == [] then [] else Reservation(ls[0]) + Reservations(ls[1..])
  }

  /** Of every SKU the same units wait in the pool, in flight and among the dead letters. */
  ghost predicate SameUnits(b: Pool.Broker, b': Pool.Broker) {
    forall k :: PoolLaws.InSystem(Pool.UnitsOf(k), b') == PoolLaws.InSystem(Pool.UnitsOf(k), b)
  }

  /** Only the deficits and the orders of p' differ from those of p, and the pool kept its units. */
  ghost predicate Handled(p: Buying.Procurement, p': Buying.Procurement) {
    && p'.(orders := p.orders, deficits := p.deficits) == p
    && SameUnits(p.deficits, p'.deficits)
    && Pool.NonNegative(p'.deficits.pool)
  }

  // ---------------------------------------------------------------- one line

  predicate IsDraft(p: Buying.Procurement, po: Buying.OrderId) {
    po in p.orders && p.orders[po].status == Buying.Draft
  }

  lemma LockKeepsPoolNonNegative(b: Pool.Broker, sku: string, qty: int, f: Pool.Faults)
    requires Pool.NonNegative(b.pool)
    ensures Pool.NonNegative(Pool.AfterLock(b, sku, qty, f).pool)
  {
  }

  function WithLines(orders: map<Buying.OrderId, Buying.PurchaseOrder>, po: Buying.OrderId,
          lines: seq<Buying.OrderLine>)
    : map<Buying.OrderId, Buying.PurchaseOrder>
    requires po in orders
  {
    orders[po := orders[po].(lines := orders[po].lines + lines)]
  }

  lemma WithLinesTwice(orders: map<Buying.OrderId, Buying.PurchaseOrder>, po: Buying.OrderId,
          a: seq<Buying.OrderLine>, b: seq<Buying.OrderLine>)
    requires po in orders
    ensures WithLines(orders, po, []) == orders
    ensures WithLines(WithLines(orders, po, a), po, b) == WithLines(orders, po, a + b)
  {
    assert orders[po].lines + [] == orders[po].lines;
    assert orders[po].lines + (a + b) == (orders[po].lines + a) + b;
  }

  lemma AskedLineGoesThrough(p: Buying.Procurement, po: Buying.OrderId, order: string, l: Requirement)
    requires IsDraft(p, po) && Pool.NonNegative(p.deficits.pool) && Asked(l) > 0
    ensures var x := HandLine(p, po, order, l, UNDISTURBED);
            && (x.result == Buying.Ok <==> StockedLine(l, p.stock))
            && Handled(p, x.state)
            && x.state.deficits.reserved == p.deficits.reserved + Reservation(l)
            && x.state.orders
               == if StockedLine(l, p.stock) then WithLines(p.orders, po, LineFor(l, p.stock)) else p.orders
  {
    var announced := WithAnnouncement(p, l, order).deficits;
    var locked := Pool.AfterLock(announced, l.sku, Asked(l), Pool.NO_FAULTS);
    assert Pool.NonNegative(locked.pool) by {
      LockKeepsPoolNonNegative(announced, l.sku, Asked(l), Pool.NO_FAULTS);
    }
    PoolLaws.PublishThenLock(p.deficits, l.sku, Asked(l), order);
  }

  /** The quantity is reserved in either case; without a stock row it is reserved for no line. */
  lemma LineGoesThrough(p: Buying.Procurement, po: Buying.OrderId, order: string, l: Requirement)
    requires IsDraft(p, po) && Pool.NonNegative(p.deficits.pool)
    ensures var x := HandLine(p, po, order, l, UNDISTURBED);
            && (x.result == Buying.Ok <==> StockedLine(l, p.stock))
            && Handled(p, x.state)
            && x.state.deficits.reserved == p.deficits.reserved + Reservation(l)
            && x.state.orders
               == if StockedLine(l, p.stock) then WithLines(p.orders, po, LineFor(l, p.stock)) else p.orders
  {
    if Asked(l) > 0 {
      AskedLineGoesThrough(p, po, order, l);
    } else {
      WithLinesTwice(p.orders, po, [], []);
      assert p.deficits.reserved + [] == p.deficits.reserved;
    }
  }

  lemma AnnouncedCoversAnyLock(b: Pool.Broker, sku: string, qty: int, order: string, f: Pool.Faults)
    requires qty >= 1 && Pool.NonNegative(b.pool)
    ensures Pool.LockOutcome(b.(pool := b.pool + [Pool.Deficit(sku, qty, order, 0)]), sku, qty, f)
            != Pool.InsufficientDeficit
  {
    PoolLaws.PublishThenLock(b, sku, qty, order);
  }

  /** Having announced the quantity itself, a line can never be refused for want of deficit, whatever else fails. */
  lemma LineNeverLacksDeficit(p: Buying.Procurement, po: Buying.OrderId, order: string, l: Requirement,
          f: HandoffFaults)
    requires Pool.NonNegative(p.deficits.pool)
    ensures HandLine(p, po, order, l, f).result != Buying.InsufficientDeficit
    ensures Pool.NonNegative(HandLine(p, po, order, l, f).state.deficits.pool)
  {
    if Asked(l) > 0 && l.part !in f.announcements {
      AnnouncedCoversAnyLock(p.deficits, l.sku, Asked(l), order, LockFaults(f, l.part));
      LockKeepsPoolNonNegative(WithAnnouncement(p, l, order).deficits, l.sku, Asked(l), LockFaults(f, l.part));
    }
  }

  // ---------------------------------------------------------------- one vendor

  lemma HandledTwice(p: Buying.Procurement, p': Buying.Procurement, p'': Buying.Procurement)
    requires Handled(p, p') && Handled(p', p'')
    ensures Handled(p, p'')
  {
    forall k
      ensures PoolLaws.InSystem(Pool.UnitsOf(k), p''.deficits) == PoolLaws.InSystem(Pool.UnitsOf(k), p.deficits)
    {
      assert PoolLaws.InSystem(Pool.UnitsOf(k), p'.deficits) == PoolLaws.InSystem(Pool.UnitsOf(k), p.deficits);
    }
  }

  /** What a sequence of lines does, when it goes through. */
  ghost predicate LinesAdded(p: Buying.Procurement, p': Buying.Procurement, po: Buying.OrderId, ls: seq<Requirement>)
    requires po in p.orders && Stocked(ls, p.stock)
  {
    && p'.deficits.reserved == p.deficits.reserved + Reservations(ls)
    && p'.orders == WithLines(p.orders, po, LinesFor(ls, p.stock))
  }

  lemma ReservationsJoin(reserved: seq<Pool.Delivery>, ls: seq<Requirement>)
    requires ls != []
    ensures reserved + Reservations(ls) == (reserved + Reservation(ls[0])) + Reservations(ls[1..])
  {
  }

  lemma MoreLinesAdded(p: Buying.Procurement, p1: Buying.Procurement, p2: Buying.Procurement, po: Buying.OrderId,
          ls: seq<Requirement>)
    requires ls != [] && Stocked(ls, p.stock) && p1.stock == p.stock && po in p.orders
    requires p1.deficits.reserved == p.deficits.reserved + Reservation(ls[0])
    requires p1.orders == WithLines(p.orders, po, LineFor(ls[0], p.stock))
    requires LinesAdded(p1, p2, po, ls[1..])
    ensures LinesAdded(p, p2, po, ls)
  {
    WithLinesTwice(p.orders, po, LineFor(ls[0], p.stock), LinesFor(ls[1..], p.stock));
    ReservationsJoin(p.deficits.reserved, ls);
  }

  lemma {:induction false} LinesGoThrough(p: Buying.Procurement, po: Buying.OrderId, order: string,
          ls: seq<Requirement>)
    requires IsDraft(p, po) && Pool.NonNegative(p.deficits.pool)
    ensures var x := HandLines(p, po, order, ls, UNDISTURBED);
            && (x.result == Buying.Ok <==> Stocked(ls, p.stock))
            && Handled(p, x.state)
            && (Stocked(ls, p.stock) ==> LinesAdded(p, x.state, po, ls))
    decreases |ls|
  {
    if ls == [] {
      WithLinesTwice(p.orders, po, [], []);
      assert p.deficits.reserved + [] == p.deficits.reserved;
    } else {
      var first := HandLine(p, po, order, ls[0], UNDISTURBED);
      LineGoesThrough(p, po, order, ls[0]);
      if first.result == Buying.Ok {
        var x := HandLines(first.state, po, order, ls[1..], UNDISTURBED);
        LinesGoThrough(first.state, po, order, ls[1..]);
        HandledTwice(p, first.state, x.state);
        if Stocked(ls, p.stock) {
          MoreLinesAdded(p, first.state, x.state, po, ls);
        }
      }
    }
  }

  function NewOrder(vendor: nat, ls: seq<Requirement>, stock: map<string, Buying.Stock>): Buying.PurchaseOrder
    requires Stocked(ls, stock)
  {
    Buying.PurchaseOrder(vendor, Buying.Draft, 0.0, LinesFor(ls, stock))
  }

  lemma DraftThenLines(orders: map<Buying.OrderId, Buying.PurchaseOrder>, po: Buying.OrderId, vendor: nat,
          lines: seq<Buying.OrderLine>)
    ensures WithLines(orders[po := Buying.PurchaseOrder(vendor, Buying.Draft, 0.0, [])], po, lines)
         == orders[po := Buying.PurchaseOrder(vendor, Buying.Draft, 0.0, lines)]
  {
    assert [] + lines == lines;
  }

  /** A vendor is served exactly when no order of it blocks a new one and all it supplies is stocked. */
  lemma VendorGoesThrough(p: Buying.Procurement, vendor: nat, year: nat, order: string, ls: seq<Requirement>)
    requires OrderLaws.NumberedWithin(p) && Pool.NonNegative(p.deficits.pool)
    ensures Buying.NextOrderId(p, year) !in p.orders
    ensures var x := HandVendor(p, vendor, year, order, ls, UNDISTURBED);
            && (x.result == Buying.Ok <==> !Buying.VendorBusy(p, vendor) && Stocked(ls, p.stock))
            && Handled(p, x.state)
            && (x.result == Buying.Ok ==>
                  && x.state.deficits.reserved == p.deficits.reserved + Reservations(ls)
                  && x.state.orders == p.orders[Buying.NextOrderId(p, year) := NewOrder(vendor, ls, p.stock)])
  {
    OrderLaws.DraftNeverCollides(p, [], vendor, year, false);
    var po := Buying.NextOrderId(p, year);
    assert po in p.orders ==> po.number <= |Buying.OrdersOfYear(p, year)|;
    if Buying.DraftOutcome(p, vendor, year, false) == Buying.Ok {
      var drafted := Buying.AfterDraft(p, vendor, year, false);
      LinesGoThrough(drafted, po, order, ls);
      HandledTwice(p, drafted, HandLines(drafted, po, order, ls, UNDISTURBED).state);
      if Stocked(ls, p.stock) {
        DraftThenLines(p.orders, po, vendor, LinesFor(ls, p.stock));
      }
    }
  }

  // ---------------------------------------------------------------- all vendors

  predicate AllStocked(visit: seq<nat>, ls: seq<Requirement>, v: Routing.Vendors, stock: map<string, Buying.Stock>) {
    visit == [] || (Stocked(ForVendor(ls, v, visit[0]), stock) && AllStocked(visit[1..], ls, v, stock))
  }

  /** One order for each vendor visited. */
  function NewOrders(visit: seq<nat>, ls: seq<Requirement>, v: Routing.Vendors,
          stock: map<string, Buying.Stock>): (r: seq<Buying.PurchaseOrder>)
    requires AllStocked(visit, ls, v, stock)
    ensures |r| == |visit|
  {
    if visit == [] then []
    else [NewOrder(visit[0], ForVendor(ls, v, visit[0]), stock)] + NewOrders(visit[1..], ls, v, stock)
  }

  function NewId(year: nat, count: nat, i: nat): Buying.OrderId {
    Buying.OrderId(year, count + 1 + i)
  }

  /** New orders are numbered on from the orders of the year. */
  function WithOrders(orders: map<Buying.OrderId, Buying.PurchaseOrder>, year: nat, count: nat,
          news: seq<Buying.PurchaseOrder>)
    : map<Buying.OrderId, Buying.PurchaseOrder>
    decreases |news|
  {
    if news == [] then orders else WithOrders(orders[NewId(year, count, 0) := news[0]], year, count + 1, news[1..])
  }

  function AllReservations(visit: seq<nat>, ls: seq<Requirement>, v: Routing.Vendors): seq<Pool.Delivery> {
    if visit == [] then [] else Reservations(ForVendor(ls, v, visit[0])) + AllReservations(visit[1..], ls, v)
  }

  lemma AllReservationsJoin(reserved: seq<Pool.Delivery>, visit: seq<nat>, ls: seq<Requirement>, v: Routing.Vendors)
    requires visit != []
    ensures reserved + AllReservations(visit, ls, v)
         == (reserved + Reservations(ForVendor(ls, v, visit[0]))) + AllReservations(visit[1..], ls, v)
  {
    Associate(reserved, Reservations(ForVendor(ls, v, visit[0])), AllReservations(visit[1..], ls, v));
  }

  lemma WithOrdersJoin(orders: map<Buying.OrderId, Buying.PurchaseOrder>, year: nat, count: nat, visit: seq<nat>,
                       ls: seq<Requirement>, v: Routing.Vendors, stock: map<string, Buying.Stock>)
    requires visit != [] && AllStocked(visit, ls, v, stock)
    ensures WithOrders(orders, year, count, NewOrders(visit, ls, v, stock))
         == WithOrders(orders[NewId(year, count, 0) := NewOrder(visit[0], ForVendor(ls, v, visit[0]), stock)],
                       year, count + 1, NewOrders(visit[1..], ls, v, stock))
  {
    assert NewOrders(visit, ls, v, stock)[1..] == NewOrders(visit[1..], ls, v, stock);
  }

  predicate NoneBusy(p: Buying.Procurement, visit: seq<nat>) {
    forall i :: 0 <= i < |visit| ==> !Buying.VendorBusy(p, visit[i])
  }

  ghost predicate Distinct(visit: seq<nat>) {
    forall i, j :: 0 <= i < j < |visit| ==> visit[i] != visit[j]
  }

  lemma NewDraftBlocksItsVendorOnly(p: Buying.Procurement, p': Buying.Procurement, po: Buying.OrderId,
          o: Buying.PurchaseOrder)
    requires po !in p.orders && p'.orders == p.orders[po := o] && o.status == Buying.Draft
    ensures forall vendor :: vendor != o.vendor ==> (Buying.VendorBusy(p', vendor) <==> Buying.VendorBusy(p, vendor))
  {
    forall vendor | vendor != o.vendor
      ensures Buying.VendorBusy(p', vendor) <==> Buying.VendorBusy(p, vendor)
    {
      if Buying.VendorBusy(p, vendor) {
        var id :| id in p.orders && p.orders[id].vendor == vendor && Buying.Blocks(p.orders[id].status);
        assert id in p'.orders && p'.orders[id] == p.orders[id];
      }
    }
  }

  lemma NewDraftIsNumbered(p: Buying.Procurement, p': Buying.Procurement, year: nat, o: Buying.PurchaseOrder)
    requires OrderLaws.NumberedWithin(p) && p'.orders == p.orders[Buying.NextOrderId(p, year) := o]
    requires Buying.NextOrderId(p, year) !in p.orders
    ensures OrderLaws.NumberedWithin(p')
    ensures |Buying.OrdersOfYear(p', year)| == |Buying.OrdersOfYear(p, year)| + 1
  {
    var po := Buying.NextOrderId(p, year);
    assert Buying.OrdersOfYear(p', year) == Buying.OrdersOfYear(p, year) + {po};
    forall id | id in p'.orders
      ensures id.number <= |Buying.OrdersOfYear(p', id.year)|
    {
      if id.year != year {
        assert Buying.OrdersOfYear(p', id.year) == Buying.OrdersOfYear(p, id.year);
      }
    }
  }

  lemma NoneBusySplit(p: Buying.Procurement, p': Buying.Procurement, visit: seq<nat>)
    requires visit != [] && Distinct(visit)
    requires forall vendor :: vendor != visit[0] ==> (Buying.VendorBusy(p', vendor) <==> Buying.VendorBusy(p, vendor))
    ensures NoneBusy(p, visit) <==> !Buying.VendorBusy(p, visit[0]) && NoneBusy(p', visit[1..])
  {
    assert forall i :: 0 <= i < |visit[1..]| ==> visit[1..][i] == visit[i + 1] != visit[0];
    assert visit == [visit[0]] + visit[1..];
  }

  /** When nothing is disturbed, the hand-off goes through exactly when every vendor can take a draft and every
      ordered SKU has a stock row. It then leaves one draft for each vendor, with one line for each shortage, and
      exactly those quantities reserved. Whether it goes through or stops half-way, the units of every SKU waiting
      in the pool, in flight and among the dead letters are what they were. */
  lemma {:induction false} VendorsGoThrough(p: Buying.Procurement, visit: seq<nat>, year: nat, order: string,
          ls: seq<Requirement>, v: Routing.Vendors)
    requires OrderLaws.NumberedWithin(p) && Pool.NonNegative(p.deficits.pool) && Distinct(visit)
    ensures var x := HandVendors(p, visit, year, order, ls, v, UNDISTURBED);
            && (x.result == Buying.Ok <==> NoneBusy(p, visit) && AllStocked(visit, ls, v, p.stock))
            && Handled(p, x.state)
            && (x.result == Buying.Ok ==>
                  && x.state.deficits.reserved == p.deficits.reserved + AllReservations(visit, ls, v)
                  && x.state.orders
                     == WithOrders(p.orders, year, |Buying.OrdersOfYear(p, year)|, NewOrders(visit, ls, v, p.stock)))
    decreases |visit|
  {
    if visit == [] {
      assert p.deficits.reserved + [] == p.deficits.reserved;
    } else {
      var mine := ForVendor(ls, v, visit[0]);
      var first := HandVendor(p, visit[0], year, order, mine, UNDISTURBED);
      VendorGoesThrough(p, visit[0], year, order, mine);
      if first.result == Buying.Ok {
        var o := NewOrder(visit[0], mine, p.stock);
        NewDraftBlocksItsVendorOnly(p, first.state, Buying.NextOrderId(p, year), o);
        NewDraftIsNumbered(p, first.state, year, o);
        NoneBusySplit(p, first.state, visit);
        VendorsGoThrough(first.state, visit[1..], year, order, ls, v);
        var x := HandVendors(first.state, visit[1..], year, order, ls, v, UNDISTURBED);
        HandledTwice(p, first.state, x.state);
        AllReservationsJoin(p.deficits.reserved, visit, ls, v);
        if x.result == Buying.Ok {
          WithOrdersJoin(p.orders, year, |Buying.OrdersOfYear(p, year)|, visit, ls, v, p.stock);
        }
      }
    }
  }

  /** However the calls fail, no hand-off is ever refused for want of deficit. */
  lemma {:induction false} LinesNeverLackDeficit(p: Buying.Procurement, po: Buying.OrderId, order: string,
          ls: seq<Requirement>, f: HandoffFaults)
    requires Pool.NonNegative(p.deficits.pool)
    ensures HandLines(p, po, order, ls, f).result != Buying.InsufficientDeficit
    ensures Pool.NonNegative(HandLines(p, po, order, ls, f).state.deficits.pool)
    decreases |ls|
  {
    if ls != [] {
      LineNeverLacksDeficit(p, po, order, ls[0], f);
      LinesNeverLackDeficit(HandLine(p, po, order, ls[0], f).state, po, order, ls[1..], f);
    }
  }

  lemma {:induction false} HandoffNeverLacksDeficit(p: Buying.Procurement, visit: seq<nat>, year: nat, order: string,
          ls: seq<Requirement>, v: Routing.Vendors, f: HandoffFaults)
    requires Pool.NonNegative(p.deficits.pool)
    ensures HandVendors(p, visit, year, order, ls, v, f).result != Buying.InsufficientDeficit
    decreases |visit|
  {
    if visit != [] {
      var mine := ForVendor(ls, v, visit[0]);
      LinesNeverLackDeficit(Buying.AfterDraft(p, visit[0], year, visit[0] in f.drafts),
                            Buying.NextOrderId(p, year), order, mine, f);
      HandoffNeverLacksDeficit(HandVendor(p, visit[0], year, order, mine, f).state, visit[1..], year, order, ls, v, f);
    }
  }

  // ---------------------------------------------------------------- where the shortages went

  /** What is ordered of a SKU over all requirements. */
  function AskedOf(ls: seq<Requirement>, sku: string): (n: int)
    ensures n >= 0
  {
    if ls == [] then 0
    else (if ls[0].sku == sku && Asked(ls[0]) > 0 then Asked(ls[0]) else 0) + AskedOf(ls[1..], sku)
  }

  lemma {:induction false} AskedOfVendor(ls: seq<Requirement>, v: Routing.Vendors, vendor: nat, sku: string)
    ensures AskedOf(ForVendor(ls, v, vendor), sku) == if VendorFor(v, sku) == Some(vendor) then AskedOf(ls, sku) else 0
  {
    if ls != [] {
      AskedOfVendor(ls[1..], v, vendor, sku);
      var rest := ForVendor(ls[1..], v, vendor);
      if VendorFor(v, ls[0].sku) == Some(vendor) {
        assert ForVendor(ls, v, vendor)[1..] == rest;
      } else {
        assert ForVendor(ls, v, vendor) == rest;
      }
    }
  }

  lemma {:induction false} LinesOrderWhatIsAsked(ls: seq<Requirement>, stock: map<string, Buying.Stock>, sku: string)
    requires Stocked(ls, stock)
    ensures IncomingOf(Buying.Draft, LinesFor(ls, stock), sku) == AskedOf(ls, sku)
  {
    if ls != [] {
      LinesOrderWhatIsAsked(ls[1..], stock, sku);
      var rest := LinesFor(ls[1..], stock);
      if Asked(ls[0]) > 0 {
        assert LinesFor(ls, stock)[1..] == rest;
      } else {
        assert LinesFor(ls, stock) == rest;
      }
    }
  }

  lemma {:induction false} ReservationsReserveWhatIsAsked(ls: seq<Requirement>, sku: string)
    ensures Pool.Units(Reservations(ls), sku) == AskedOf(ls, sku)
  {
    if ls != [] {
      ReservationsReserveWhatIsAsked(ls[1..], sku);
      Pool.SumAppend(Pool.UnitsOf(sku), Reservation(ls[0]), Reservations(ls[1..]));
    }
  }

  predicate Visited(visit: seq<nat>, vendor: Option<nat>) {
    vendor.Some? && vendor.value in visit
  }

  lemma {:induction false} AllReservationsReserve(visit: seq<nat>, ls: seq<Requirement>, v: Routing.Vendors,
          sku: string)
    requires Distinct(visit)
    ensures Pool.Units(AllReservations(visit, ls, v), sku)
            == if Visited(visit, VendorFor(v, sku)) then AskedOf(ls, sku) else 0
  {
    if visit != [] {
      var mine := ForVendor(ls, v, visit[0]);
      AllReservationsReserve(visit[1..], ls, v, sku);
      ReservationsReserveWhatIsAsked(mine, sku);
      AskedOfVendor(ls, v, visit[0], sku);
      Pool.SumAppend(Pool.UnitsOf(sku), Reservations(mine), AllReservations(visit[1..], ls, v));
    }
  }

  lemma {:induction false} NotVisitedNotAsked(ls: seq<Requirement>, v: Routing.Vendors, sku: string)
    requires Sourced(ls, v)
    ensures AskedOf(ls, sku) > 0 ==> VendorFor(v, sku).Some? && Supplies(ls, v, VendorFor(v, sku).value)
  {
    if ls != [] && AskedOf(ls, sku) > 0 {
      if ls[0].sku == sku {
        assert VendorFor(v, ls[0].sku) == VendorFor(v, sku);
      } else {
        assert forall i :: 0 <= i < |ls[1..]| ==> ls[1..][i] == ls[i + 1];
        NotVisitedNotAsked(ls[1..], v, sku);
        var i :| 0 <= i < |ls[1..]| && VendorFor(v, ls[1..][i].sku) == VendorFor(v, sku);
        assert VendorFor(v, ls[i + 1].sku) == VendorFor(v, sku);
      }
    }
  }

  lemma {:induction false} WithOrdersAt(orders: map<Buying.OrderId, Buying.PurchaseOrder>, year: nat, count: nat,
          news: seq<Buying.PurchaseOrder>, id: Buying.OrderId)
    ensures var orders' := WithOrders(orders, year, count, news);
            if id.year == year && count < id.number <= count + |news|
            then id in orders' && orders'[id] == news[id.number - count - 1]
            else (id in orders' <==> id in orders) && (id in orders ==> orders'[id] == orders[id])
    decreases |news|
  {
    if news != [] {
      WithOrdersAt(orders[NewId(year, count, 0) := news[0]], year, count + 1, news[1..], id);
    }
  }

  lemma OldOrNew(orders: map<Buying.OrderId, Buying.PurchaseOrder>, year: nat, count: nat,
                 news: seq<Buying.PurchaseOrder>)
    requires forall id :: id in orders && id.year == year ==> id.number <= count
    ensures var orders' := WithOrders(orders, year, count, news);
            && (forall id :: id in orders ==> id in orders' && orders'[id] == orders[id])
            && (forall id :: id in orders' ==>
                  id in orders || exists i :: 0 <= i < |news| && id == NewId(year, count, i))
  {
    forall id: Buying.OrderId
      ensures var orders' := WithOrders(orders, year, count, news);
              && (id in orders ==> id in orders' && orders'[id] == orders[id])
              && (id in orders' ==> id in orders || exists i :: 0 <= i < |news| && id == NewId(year, count, i))
    {
      WithOrdersAt(orders, year, count, news, id);
      if id.year == year && count < id.number <= count + |news| {
        assert id == NewId(year, count, id.number - count - 1);
      }
    }
  }

  /** What a hand-off that went through has written. */
  lemma HandoffWrites(p: Buying.Procurement, visit: seq<nat>, year: nat, order: string, ls: seq<Requirement>,
                      v: Routing.Vendors)
    requires OrderLaws.NumberedWithin(p) && Pool.NonNegative(p.deficits.pool) && Visits(visit, ls, v)
    requires Handoff(p, visit, year, order, ls, v, UNDISTURBED).result == Buying.Ok
    ensures AllStocked(visit, ls, v, p.stock)
    ensures var p', count := Handoff(p, visit, year, order, ls, v, UNDISTURBED).state, |Buying.OrdersOfYear(p, year)|;
            && p'.deficits.reserved == p.deficits.reserved + AllReservations(visit, ls, v)
            && p'.orders == WithOrders(p.orders, year, count, NewOrders(visit, ls, v, p.stock))
            && forall id :: id in p.orders && id.year == year ==> id.number <= count
  {
    VendorsGoThrough(p, visit, year, order, ls, v);
  }

  lemma {:induction false} NewOrderAt(visit: seq<nat>, ls: seq<Requirement>, v: Routing.Vendors,
          stock: map<string, Buying.Stock>, i: nat)
    requires AllStocked(visit, ls, v, stock) && i < |visit|
    ensures Stocked(ForVendor(ls, v, visit[i]), stock)
    ensures NewOrders(visit, ls, v, stock)[i] == NewOrder(visit[i], ForVendor(ls, v, visit[i]), stock)
  {
    if i > 0 {
      NewOrderAt(visit[1..], ls, v, stock, i - 1);
    }
  }

  /** Each shortage is on exactly one purchase order, that of the best supplier of its SKU, and is reserved once:
      of every SKU the new order of its supplier has exactly what was asked, every other new order nothing. The
      orders there were are left alone. */
  lemma EachShortageOnOneOrder(p: Buying.Procurement, visit: seq<nat>, year: nat, order: string,
          ls: seq<Requirement>, v: Routing.Vendors, sku: string)
    requires OrderLaws.NumberedWithin(p) && Pool.NonNegative(p.deficits.pool) && Visits(visit, ls, v)
    requires Handoff(p, visit, year, order, ls, v, UNDISTURBED).result == Buying.Ok
    ensures var p' := Handoff(p, visit, year, order, ls, v, UNDISTURBED).state;
            var count := |Buying.OrdersOfYear(p, year)|;
            && (forall i :: 0 <= i < |visit| ==>
                  && NewId(year, count, i) in p'.orders && NewId(year, count, i) !in p.orders
                  && p'.orders[NewId(year, count, i)].vendor == visit[i]
                  && p'.orders[NewId(year, count, i)].status == Buying.Draft
                  && IncomingOf(Buying.Draft, p'.orders[NewId(year, count, i)].lines, sku)
                     == if VendorFor(v, sku) == Some(visit[i]) then AskedOf(ls, sku) else 0)
            && (forall id :: id in p.orders ==> id in p'.orders && p'.orders[id] == p.orders[id])
            && (forall id :: id in p'.orders ==>
                  id in p.orders || exists i :: 0 <= i < |visit| && id == NewId(year, count, i))
            && Pool.Units(p'.deficits.reserved, sku) == Pool.Units(p.deficits.reserved, sku) + AskedOf(ls, sku)
  {
    var count := |Buying.OrdersOfYear(p, year)|;
    HandoffWrites(p, visit, year, order, ls, v);
    var p' := Handoff(p, visit, year, order, ls, v, UNDISTURBED).state;
    var news := NewOrders(visit, ls, v, p.stock);
    forall i | 0 <= i < |visit|
      ensures NewId(year, count, i) in p'.orders && p'.orders[NewId(year, count, i)] == news[i]
      ensures news[i].vendor == visit[i] && news[i].status == Buying.Draft
      ensures IncomingOf(Buying.Draft, news[i].lines, sku)
              == if VendorFor(v, sku) == Some(visit[i]) then AskedOf(ls, sku) else 0
    {
      WithOrdersAt(p.orders, year, count, news, NewId(year, count, i));
      NewOrderAt(visit, ls, v, p.stock, i);
      LinesOrderWhatIsAsked(ForVendor(ls, v, visit[i]), p.stock, sku);
      AskedOfVendor(ls, v, visit[i], sku);
    }
    OldOrNew(p.orders, year, count, news);
    assert Pool.Units(p'.deficits.reserved, sku) == Pool.Units(p.deficits.reserved, sku) + AskedOf(ls, sku) by {
      AllReservationsReserve(visit, ls, v, sku);
      NotVisitedNotAsked(ls, v, sku);
      Pool.SumAppend(Pool.UnitsOf(sku), p.deficits.reserved, AllReservations(visit, ls, v));
    }
  }
}
