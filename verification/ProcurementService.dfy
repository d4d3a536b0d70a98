/**
 The procurement services over their tables. Each call changes the tables as its value-level counterpart in
 ProcurementModel says.
 */
module ProcurementService {
  import opened Sequences
  import opened Options
  import opened Ledger
  import opened ProcurementModel
  import Pool = DeficitPool
  import Locks = DeficitLock

  /** The tables and the broker the services share. */
  class Store {
    var orders: map<OrderId, PurchaseOrder>
    var shipments: map<nat, Shipment>
    var receipts: map<ReceiptId, Receipt>
    var stock: map<string, Stock>
    var ledger: seq<Entry>
    var clock: nat
    const locks: Locks.DeficitLockManager
    const maxAge: nat
    const checksReceipts: bool

    constructor (stock: map<string, Stock>, maxAge: nat, checksReceipts: bool)
      ensures fresh(locks) && locks.unacked == map[]
      ensures View() == Procurement(map[], map[], map[], stock, [], 0, Pool.Broker([], [], [], []), maxAge,
              checksReceipts)
    {
      orders, shipments, receipts, ledger, clock := map[], map[], map[], [], 0;
      this.stock, this.maxAge, this.checksReceipts := stock, maxAge, checksReceipts;
      locks := new Locks.DeficitLockManager();
    }

    ghost function View(): Procurement
      reads this, locks
    {
      Procurement(orders, shipments, receipts, stock, ledger, clock, locks.View(), maxAge, checksReceipts)
    }

    method HasOpenReceipts(id: OrderId) returns (open: bool)
      ensures open == OpenReceipts(View(), id)
    {
      open := exists r :: r in receipts && receipts[r].orderRef == id
                       && receipts[r].status != Complete && receipts[r].status != Discrepancy;
    }
  }

  class LedgerService {
    const store: Store

    constructor (store: Store)
      ensures this.store == store
    {
      this.store := store;
    }

    method RecordEntry(sku: string, change: int, fails: bool) returns (ok: bool)
      modifies store`ledger, store`clock
      ensures ok == !fails
      ensures store.ledger == if fails then old(store.ledger)
                              else Recorded(old(store.ledger), Write(sku, change, old(store.clock), old(store.clock)))
      ensures store.clock == old(store.clock) + (if fails then 0 else 1)
    {
      var previous := Balance(store.ledger, sku);
      if fails {
        return false;
      }
      store.ledger := store.ledger + [Entry(sku, change, previous + change, store.clock, store.clock)];
      store.clock := store.clock + 1;
      ok := true;
    }
  }

  // ---------------------------------------------------------------- purchase orders

  const STATUS_ORDER: seq<OrderStatus> := [Draft, Approved, InTransit, Partial, Received, Void]

  method IsValidTransition(current: OrderStatus, next: OrderStatus) returns (ok: bool)
    ensures ok == ValidTransition(current, next)
  {
    if current == Partial && next == InTransit {
      return true;
    }
    var order := STATUS_ORDER;
    var currentIdx, nextIdx := -1, -1;
    for i := 0 to |order|
      invariant -1 <= currentIdx < i && -1 <= nextIdx < i
      invariant if currentIdx == -1 then (forall j :: 0 <= j < i ==> order[j] != current)
                else order[currentIdx] == current
      invariant if nextIdx == -1 then (forall j :: 0 <= j < i ==> order[j] != next) else order[nextIdx] == next
    {
      if order[i] == current {
        currentIdx := i;
      }
      if order[i] == next {
        nextIdx := i;
      }
    }
    RankIsPosition(current, currentIdx);
    RankIsPosition(next, nextIdx);
    if currentIdx == -1 || nextIdx == -1 {
      return false;
    }
    if next == Void && current == Draft {
      return true;
    }
    ok := nextIdx > currentIdx;
  }

  lemma RankIsPosition(s: OrderStatus, i: int)
    requires -1 <= i < |STATUS_ORDER|
    requires if i == -1 then s !in STATUS_ORDER else STATUS_ORDER[i] == s
    ensures Rank(s) == if i == -1 then None else Some(i)
  {
    assert STATUS_ORDER[0] == Draft && STATUS_ORDER[1] == Approved && STATUS_ORDER[2] == InTransit;
    assert STATUS_ORDER[3] == Partial && STATUS_ORDER[4] == Received && STATUS_ORDER[5] == Void;
  }

  class PurchaseOrderService {
    const store: Store

    constructor (store: Store)
      ensures this.store == store
    {
      this.store := store;
    }

    method CreateDraft(vendor: nat, year: nat, fails: bool) returns (r: Result, id: OrderId)
      modifies store
      ensures r == old(DraftOutcome(store.View(), vendor, year, fails))
      ensures store.View() == old(AfterDraft(store.View(), vendor, year, fails))
      ensures r == Ok ==> id == old(NextOrderId(store.View(), year))
    {
      id := OrderId(year, 0);
      if exists o :: o in store.orders && store.orders[o].vendor == vendor && Blocks(store.orders[o].status) {
        return MonoVendorViolation, id;
      }
      var count := |set o | o in store.orders && o.year == year|;
      id := OrderId(year, count + 1);
      if fails || id in store.orders {
        return Failed, id;
      }
      store.orders := store.orders[id := PurchaseOrder(vendor, Draft, 0.0, [])];
      r := Ok;
    }

    method AddLineItemWithLock(id: OrderId, sku: string, qty: int, f: Pool.Faults, lineFails: bool) returns (r: Result)
      requires store.locks.unacked == map[]
      modifies store, store.locks
      ensures r == old(AddLineOutcome(store.View(), id, sku, qty, f, lineFails))
      ensures store.View() == old(AfterAddLine(store.View(), id, sku, qty, f, lineFails))
      ensures store.locks.unacked == map[]
    {
      if id !in store.orders {
        return NotFound;
      }
      if store.orders[id].status != Draft {
        return InvalidTransition;
      }
      var locked := store.locks.LockDeficit(sku, qty, f);
      if locked == Pool.InsufficientDeficit {
        return InsufficientDeficit;
      }
      if locked == Pool.BrokerError || sku !in store.stock || lineFails {
        return Failed;
      }
      var o := store.orders[id];
      store.orders := store.orders[id := o.(lines := o.lines + [OrderLine(sku, qty, 0, store.stock[sku].unitCost)])];
      r := Ok;
    }

    method ApproveOrder(id: OrderId, fails: bool) returns (r: Result)
      modifies store
      ensures r == old(ApproveOutcome(store.View(), id, fails))
      ensures store.View() == old(AfterApprove(store.View(), id, fails))
    {
      if id !in store.orders {
        return NotFound;
      }
      var o := store.orders[id];
      if o.status != Draft {
        return InvalidTransition;
      }
      var total := 0.0;
      for i := 0 to |o.lines|
        invariant total + Value(o.lines[i..]) == Value(o.lines)
      {
        assert o.lines[i..][1..] == o.lines[i + 1..];
        total := total + o.lines[i].ordered as real * o.lines[i].price;
      }
      if fails {
        return Failed;
      }
      store.orders := store.orders[id := o.(status := Approved, total := total)];
      r := Ok;
    }

    method TransitionState(id: OrderId, next: OrderStatus, fails: bool) returns (r: Result)
      modifies store
      ensures r == old(MoveOutcome(store.View(), id, next, fails))
      ensures store.View() == old(AfterMove(store.View(), id, next, fails))
    {
      if id !in store.orders {
        return NotFound;
      }
      var valid := IsValidTransition(store.orders[id].status, next);
      if !valid {
        return StateRegression;
      }
      if next != Void && store.checksReceipts {
        var open := store.HasOpenReceipts(id);
        if open {
          return IncompleteReceipts;
        }
      }
      if fails {
        return Failed;
      }
      store.orders := store.orders[id := store.orders[id].(status := next)];
      r := Ok;
    }
  }

  // ---------------------------------------------------------------- shipments

  const JOURNEY: seq<ShipmentStatus> := [Scheduled, Underway, Delivered, Delayed]

  method IsValidShipmentTransition(current: ShipmentStatus, next: ShipmentStatus) returns (ok: bool)
    ensures ok == ValidShipmentTransition(current, next)
  {
    var order := JOURNEY;
    var currentIdx, nextIdx := -1, -1;
    for i := 0 to |order|
      invariant -1 <= currentIdx < i && -1 <= nextIdx < i
      invariant if currentIdx == -1 then (forall j :: 0 <= j < i ==> order[j] != current)
                else order[currentIdx] == current
      invariant if nextIdx == -1 then (forall j :: 0 <= j < i ==> order[j] != next) else order[nextIdx] == next
    {
      if order[i] == current {
        currentIdx := i;
      }
      if order[i] == next {
        nextIdx := i;
      }
    }
    JourneyPosition(current, currentIdx);
    JourneyPosition(next, nextIdx);
    if currentIdx == -1 || nextIdx == -1 {
      return false;
    }
    if next == Delayed {
      return current == Underway;
    }
    if current == Delayed {
      return next == Underway;
    }
    ok := nextIdx > currentIdx;
  }

  lemma JourneyPosition(s: ShipmentStatus, i: int)
    requires -1 <= i < |JOURNEY|
    requires if i == -1 then s !in JOURNEY else JOURNEY[i] == s
    ensures ShipmentRank(s) == if i == -1 then None else Some(i)
  {
    assert JOURNEY[0] == Scheduled && JOURNEY[1] == Underway && JOURNEY[2] == Delivered && JOURNEY[3] == Delayed;
  }

  /** What is still to be cloned from line i on. */
  lemma ClonedFrom(items: seq<ShipmentItem>, lines: seq<OrderLine>, lost: set<nat>, i: nat)
    requires i <= |lines|
    ensures i == 0 && items == [] ==> items + Cloned(lines[i..], lost, i) == Cloned(lines, lost, 0)
    ensures i == |lines| ==> items + Cloned(lines[i..], lost, i) == items
    ensures i < |lines| ==>
              items + Cloned(lines[i..], lost, i)
              == (if i in lost then items else items + [ShipmentItem(lines[i].sku, lines[i].ordered)])
                 + Cloned(lines[i + 1..], lost, i + 1)
  {
    WholeSuffix(lines);
    if i < |lines| {
      ShorterSuffix(lines, i);
    }
  }

  class ShipmentService {
    const store: Store

    constructor (store: Store)
      ensures this.store == store
    {
      this.store := store;
    }

    /** lost: the items whose write fails, which goes unreported. */
    method CreateShipment(id: nat, orderRef: OrderId, status: ShipmentStatus, fails: bool, lost: set<nat>)
      returns (r: Result)
      modifies store
      ensures r == old(NewShipmentOutcome(store.View(), id, orderRef, fails))
      ensures store.View() == old(AfterNewShipment(store.View(), id, orderRef, status, fails, lost))
    {
      if orderRef !in store.orders {
        return NotFound;
      }
      if fails || id in store.shipments {
        return Failed;
      }
      store.shipments := store.shipments[id := Shipment(orderRef, status, FREE, [])];
      CloneItems(id, store.orders[orderRef].lines, lost);
      r := Ok;
    }

    method CloneItems(id: nat, lines: seq<OrderLine>, lost: set<nat>)
      requires id in store.shipments && store.shipments[id].items == []
      modifies store`shipments
      ensures store.shipments == old(store.shipments)[id := old(store.shipments[id]).(items := Cloned(lines, lost, 0))]
    {
      var shipment := store.shipments[id];
      var items: seq<ShipmentItem> := [];
      ghost var shipments := store.shipments;
      assert shipments == shipments[id := shipment.(items := items)];
      ClonedFrom(items, lines, lost, 0);
      for i := 0 to |lines|
        invariant items + Cloned(lines[i..], lost, i) == Cloned(lines, lost, 0)
        invariant store.shipments == shipments[id := shipment.(items := items)]
      {
        ClonedFrom(items, lines, lost, i);
        if i !in lost {
          items := items + [ShipmentItem(lines[i].sku, lines[i].ordered)];
          store.shipments := store.shipments[id := shipment.(items := items)];
        }
      }
      ClonedFrom(items, lines, lost, |lines|);
    }

    method AcquireDispatchLock(id: nat, operator: nat, now: nat, fails: bool) returns (r: Result)
      modifies store
      ensures r == old(LockShipmentOutcome(store.View(), id, operator, now, fails))
      ensures store.View() == old(AfterLockShipment(store.View(), id, operator, now, fails))
    {
      if id !in store.shipments {
        return NotFound;
      }
      var s := store.shipments[id];
      if s.status == Underway || s.status == Delivered {
        return AlreadyDispatched;
      }
      if s.hold.owner.Some? && s.hold.owner.value != operator {
        if s.hold.expires.Some? && s.hold.expires.value > now {
          return AlreadyLocked;
        }
      }
      if fails {
        return Failed;
      }
      store.shipments := store.shipments[id := s.(hold := OperatorLock(Some(operator), Some(now + DISPATCH_HOLD)))];
      r := Ok;
    }

    method ReleaseDispatchLock(id: nat, fails: bool) returns (r: Result)
      modifies store
      ensures r == if id !in old(store.shipments) then NotFound else if fails then Failed else Ok
      ensures store.View() == old(AfterUnlockShipment(store.View(), id, fails))
    {
      if id !in store.shipments {
        return NotFound;
      }
      if fails {
        return Failed;
      }
      store.shipments := store.shipments[id := store.shipments[id].(hold := OperatorLock(None, None))];
      r := Ok;
    }

    method DispatchShipment(id: nat, operator: nat, now: nat, fails: bool) returns (r: Result)
      modifies store
      ensures r == old(DispatchOutcome(store.View(), id, operator, now, fails))
      ensures store.View() == old(AfterDispatch(store.View(), id, operator, now, fails))
    {
      if id !in store.shipments {
        return NotFound;
      }
      var s := store.shipments[id];
      if s.status != Scheduled {
        if s.status == Underway || s.status == Delivered {
          return AlreadyDispatched;
        }
        return InvalidTransition;
      }
      if s.hold.owner.None? || s.hold.owner.value != operator {
        return NotLocked;
      }
      if s.hold.expires.Some? && s.hold.expires.value < now {
        return LockExpired;
      }
      if fails {
        return Failed;
      }
      store.shipments := store.shipments[id := s.(status := Underway, hold := OperatorLock(None, None))];
      r := Ok;
    }

    method TransitionState(id: nat, next: ShipmentStatus, fails: bool) returns (r: Result)
      modifies store
      ensures r == old(MoveShipmentOutcome(store.View(), id, next, fails))
      ensures store.View() == old(AfterMoveShipment(store.View(), id, next, fails))
    {
      if id !in store.shipments {
        return NotFound;
      }
      var valid := IsValidShipmentTransition(store.shipments[id].status, next);
      if !valid {
        return StateRegression;
      }
      if fails {
        return Failed;
      }
      store.shipments := store.shipments[id := store.shipments[id].(status := next)];
      r := Ok;
    }

    /** Save the receipt's lines one at a time, up to the one that fails. */
    method SaveReceiptLines(receipt: ReceiptId, items: seq<OrderLine>, f: DeliverFault) returns (ok: bool)
      requires receipt in store.receipts && store.receipts[receipt].lines == []
      modifies store`receipts
      ensures ok == !(f.LineFails? && f.at < |items|)
      ensures store.receipts == old(store.receipts)[receipt := old(store.receipts[receipt]).(
                lines := if f.LineFails? && f.at < |items| then Mirrored(items)[..f.at] else Mirrored(items))]
    {
      ghost var header := store.receipts[receipt];
      assert store.receipts == store.receipts[receipt := header.(lines := Mirrored(items)[..0])];
      for i := 0 to |items|
        invariant f.LineFails? ==> i <= f.at
        invariant store.receipts == old(store.receipts)[receipt := header.(lines := Mirrored(items)[..i])]
      {
        if f.LineFails? && f.at == i {
          return false;
        }
        MirroredLines(items);
        assert Mirrored(items)[..i + 1] == Mirrored(items)[..i] + [Mirrored(items)[i]];
        var line := ReceiptLine(items[i].sku, items[i].ordered, None, None, false, None, false);
        var saved := store.receipts[receipt];
        store.receipts := store.receipts[receipt := saved.(lines := saved.lines + [line])];
      }
      assert Mirrored(items)[..|items|] == Mirrored(items);
      ok := true;
    }

    method MarkDelivered(id: nat, operator: nat, f: DeliverFault) returns (r: Result)
      modifies store
      ensures r == old(DeliverOutcome(store.View(), id, f))
      ensures store.View() == old(AfterDeliver(store.View(), id, operator, f))
    {
      if id !in store.shipments {
        return NotFound;
      }
      if store.shipments[id].status != Underway {
        return InvalidTransition;
      }
      if f.StatusFails? {
        return Failed;
      }
      ghost var p := store.View();
      var order := store.shipments[id].orderRef;
      store.shipments := store.shipments[id := store.shipments[id].(status := Delivered)];
      assert store.View() == p.(shipments := p.shipments[id := p.shipments[id].(status := Delivered)]);
      if f.LinesUnread? {
        return Failed;
      }
      var items := if order in store.orders then store.orders[order].lines else [];
      var existing := |set x | x in store.receipts && store.receipts[x].orderRef == order|;
      assert existing == |ReceiptsOf(p, order)| && items == LinesOf(p, order);
      var receipt := ReceiptId(order, existing + 1);
      if f.ReceiptFails? || receipt in store.receipts {
        return Failed;
      }
      store.receipts := store.receipts[receipt := Receipt(order, Pending, operator, FREE, [])];
      var saved := SaveReceiptLines(receipt, items, f);
      assert store.receipts == old(store.receipts)[receipt := Receipt(order, Pending, operator, FREE,
        if f.LineFails? && f.at < |items| then Mirrored(items)[..f.at] else Mirrored(items))];
      r := if saved then Ok else Failed;
    }
  }

  // ---------------------------------------------------------------- goods receipts

  function CreditedLine(l: OrderLine, counted: seq<ReceiptLine>): OrderLine {
    l.(received := l.received + ReceivedOf(counted, l.sku))
  }

  /** rows agrees with the credits up to line i and with the lines from there on. */
  /** The first i lines are credited, but for those whose save failed. */
  ghost predicate CreditedUpTo(rows: seq<OrderLine>, lines: seq<OrderLine>, counted: seq<ReceiptLine>, lost: set<nat>,
                               i: nat)
  {
    && i <= |lines| == |rows|
    && forall j :: 0 <= j < |rows| ==>
         rows[j] == if j < i && j !in lost then CreditedLine(lines[j], counted) else lines[j]
  }

  lemma CreditedWhole(rows: seq<OrderLine>, lines: seq<OrderLine>, counted: seq<ReceiptLine>, lost: set<nat>)
    requires CreditedUpTo(rows, lines, counted, lost, |lines|)
    ensures rows == Credited(lines, counted, lost, 0)
  {
    forall j | 0 <= j < |lines|
      ensures rows[j] == Credited(lines, counted, lost, 0)[j]
    {
      CreditedAt(lines, counted, lost, 0, j);
    }
  }

  class GoodsReceiptService {
    const store: Store
    const ledger: LedgerService

    constructor (store: Store)
      ensures this.store == store && ledger.store == store
    {
      this.store := store;
      ledger := new LedgerService(store);
    }

    method AcquireLock(id: ReceiptId, operator: nat, now: nat, fails: bool) returns (r: Result)
      modifies store
      ensures r == old(LockReceiptOutcome(store.View(), id, operator, now, fails))
      ensures store.View() == old(AfterLockReceipt(store.View(), id, operator, now, fails))
    {
      if id !in store.receipts {
        return NotFound;
      }
      var receipt := store.receipts[id];
      if receipt.hold.owner.Some? && receipt.hold.owner.value != operator {
        if receipt.hold.expires.Some? && receipt.hold.expires.value > now {
          return AlreadyLocked;
        }
      }
      if fails {
        return Failed;
      }
      store.receipts := store.receipts[id := receipt.(hold := OperatorLock(Some(operator), Some(now + RECEIPT_HOLD)),
                                                      operator := operator)];
      r := Ok;
    }

    method ReleaseLock(id: ReceiptId, fails: bool) returns (r: Result)
      modifies store
      ensures r == if id !in old(store.receipts) then NotFound else if fails then Failed else Ok
      ensures store.View() == old(AfterUnlockReceipt(store.View(), id, fails))
    {
      if id !in store.receipts {
        return NotFound;
      }
      if fails {
        return Failed;
      }
      store.receipts := store.receipts[id := store.receipts[id].(hold := OperatorLock(None, None))];
      r := Ok;
    }

    /** The tables of a receipt under count, as the counting loop sees them. */
    ghost function Tables(id: ReceiptId, discrepancy: bool): Counting
      reads store
      requires id in store.receipts
    {
      Counting(store.receipts[id].lines, store.stock, store.ledger, store.clock, discrepancy)
    }

    /** Raise the stock of a SKU, and enter a positive quantity in the ledger, trying twice. */
    method StockUp(sku: string, received: int, f: LineFault)
      requires ledger.store == store && sku in store.stock
      modifies store`stock, store`ledger, store`clock
      ensures Counting([], store.stock, store.ledger, store.clock, false) ==
                old(StockedUp(Counting([], store.stock, store.ledger, store.clock, false), sku, received,
                              f != LedgerFailsTwice))
    {
      var row := store.stock[sku];
      store.stock := store.stock[sku := row.(qty := row.qty + received)];
      if received > 0 {
        var written := ledger.RecordEntry(sku, received, f == LedgerFailsOnce || f == LedgerFailsTwice);
        if !written {
          var _ := ledger.RecordEntry(sku, received, f == LedgerFailsTwice);
        }
      }
    }

    /** Write the count, and an over-age label where it is due, on one receipt line. */
    method SaveCount(id: ReceiptId, i: nat, c: Count, now: nat)
      requires id in store.receipts && i < |store.receipts[id].lines|
      modifies store`receipts
      ensures store.receipts == old(store.receipts)[id := old(store.receipts[id]).(
                lines := old(store.receipts[id].lines)[i :=
                    Counted(old(store.receipts[id].lines[i]), c, now, store.maxAge)])]
    {
      var receipt := store.receipts[id];
      var line := receipt.lines[i];
      var counted := line.(received := Some(c.received), defective := Some(c.defective));
      if line.agingSensitive && line.produced.Some? {
        if now - line.produced.value > store.maxAge {
          counted := counted.(overAge := true);
        }
      }
      store.receipts := store.receipts[id := receipt.(lines := receipt.lines[i := counted])];
    }

    method EnterLine(id: ReceiptId, i: nat, c: Count, now: nat, f: LineFault, discrepancy: bool)
      returns (ok: bool, discrepancy': bool)
      requires ledger.store == store && id in store.receipts && i < |store.receipts[id].lines|
      modifies store`receipts, store`stock, store`ledger, store`clock
      ensures id in store.receipts
      ensures ok == !old(Breaks(Tables(id, discrepancy), i, f))
      ensures Tables(id, discrepancy') == old(LineEntered(Tables(id, discrepancy), i, c, now, store.maxAge, f))
      ensures store.receipts == old(store.receipts)[id := old(store.receipts[id]).(lines := store.receipts[id].lines)]
    {
      var line := store.receipts[id].lines[i];
      ok, discrepancy' := true, discrepancy;
      if c.received != line.ordered || c.defective > 0 {
        discrepancy' := true;
      }
      if f == SaveFails {
        assert store.receipts == store.receipts[id := store.receipts[id]];
        ok := false;
      } else {
        SaveCount(id, i, c, now);
        if f == StockUnread || line.sku !in store.stock || f == StockUnsaved {
          ok := false;
        } else {
          StockUp(line.sku, c.received, f);
        }
      }
    }

    method ReceiveLine(id: ReceiptId, i: nat, counts: map<string, Count>, now: nat, f: LineFault, discrepancy: bool)
      returns (ok: bool, discrepancy': bool)
      requires ledger.store == store && id in store.receipts && i < |store.receipts[id].lines|
      modifies store`receipts, store`stock, store`ledger, store`clock
      ensures id in store.receipts
      ensures ok == !old(LineStops(Tables(id, discrepancy), i, counts, f))
      ensures Tables(id, discrepancy') == old(LineCounted(Tables(id, discrepancy), i, counts, now, store.maxAge, f))
      ensures store.receipts == old(store.receipts)[id := old(store.receipts[id]).(lines := store.receipts[id].lines)]
    {
      var sku := store.receipts[id].lines[i].sku;
      if sku in counts {
        ok, discrepancy' := EnterLine(id, i, counts[sku], now, f, discrepancy);
      } else {
        assert store.receipts == store.receipts[id := store.receipts[id]];
        ok, discrepancy' := true, discrepancy;
      }
    }

    method ReceiveLines(id: ReceiptId, counts: map<string, Count>, now: nat, f: ReceiveFaults)
      returns (ok: bool, discrepancy: bool)
      requires ledger.store == store && id in store.receipts
      modifies store
      ensures id in store.receipts
      ensures ok == old(CountsAll(store.View(), id, counts, now, f))
      ensures Tables(id, discrepancy) == old(Receiving(store.View(), id, counts, now, f))
      ensures store.receipts == old(store.receipts)[id := old(store.receipts[id]).(lines := store.receipts[id].lines)]
      ensures store.orders == old(store.orders) && store.shipments == old(store.shipments)
    {
      ghost var p := store.View();
      discrepancy := false;
      var i := 0;
      assert store.receipts == store.receipts[id := store.receipts[id]];
      while i < |store.receipts[id].lines|
        invariant id in store.receipts
        invariant CountedFrom(Tables(id, discrepancy), i, counts, now, store.maxAge, f)
                  == Receiving(p, id, counts, now, f)
        invariant CountsThrough(Tables(id, discrepancy), i, counts, now, store.maxAge, f)
                  == CountsAll(p, id, counts, now, f)
        invariant store.receipts == old(store.receipts)[id :=
                  old(store.receipts[id]).(lines := store.receipts[id].lines)]
        invariant store.orders == old(store.orders) && store.shipments == old(store.shipments)
        invariant |store.receipts[id].lines| == |p.receipts[id].lines|
        decreases |p.receipts[id].lines| - i
      {
        ok, discrepancy := ReceiveLine(id, i, counts, now, FaultAt(f, i), discrepancy);
        if !ok {
          return;
        }
        i := i + 1;
      }
      ok := true;
    }

    /** What the counted lines say was received, by SKU. */
    method SumReceived(counted: seq<ReceiptLine>) returns (received: map<string, int>)
      ensures forall k :: (if k in received then received[k] else 0) == ReceivedOf(counted, k)
    {
      received := map[];
      for i := 0 to |counted|
        invariant forall k ::
                    (if k in received then received[k] else 0) + ReceivedOf(counted[i..], k) == ReceivedOf(counted, k)
      {
        ShorterSuffix(counted, i);
        if counted[i].received.Some? {
          var k := counted[i].sku;
          received := received[k := (if k in received then received[k] else 0) + counted[i].received.value];
        }
      }
      WholeSuffix(counted);
      assert forall k :: ReceivedOf(counted[|counted|..], k) == 0;
    }

    /** Credit each line of the purchase order with what the receipt's lines say was received. The lines in hand are
        all credited; those whose save fails stay as they were in the table. */
    method CreditOrder(order: OrderId, counted: seq<ReceiptLine>, lost: set<nat>) returns (items: seq<OrderLine>)
      requires order in store.orders
      modifies store`orders
      ensures items == Credited(old(store.orders[order]).lines, counted, {}, 0)
      ensures store.orders == old(store.orders)[order := old(store.orders[order]).(
                lines := Credited(old(store.orders[order]).lines, counted, lost, 0))]
    {
      var received := SumReceived(counted);
      var o := store.orders[order];
      items := o.lines;
      var rows := items;
      assert store.orders == store.orders[order := o.(lines := rows)];
      for i := 0 to |items|
        invariant CreditedUpTo(items, o.lines, counted, {}, i) && CreditedUpTo(rows, o.lines, counted, lost, i)
        invariant store.orders == old(store.orders)[order := o.(lines := rows)]
      {
        if items[i].sku in received {
          var line := items[i].(received := items[i].received + received[items[i].sku]);
          items := items[i := line];
          if i !in lost {
            rows := rows[i := line];
            store.orders := store.orders[order := o.(lines := rows)];
          }
        } else {
          assert CreditedLine(o.lines[i], counted) == o.lines[i];
        }
      }
      CreditedWhole(items, o.lines, counted, {});
      CreditedWhole(rows, o.lines, counted, lost);
    }

    method AllReceived(items: seq<OrderLine>) returns (all: bool)
      ensures all == FullyReceived(items)
    {
      for i := 0 to |items|
        invariant forall j :: 0 <= j < i ==> items[j].received >= items[j].ordered
      {
        if items[i].received < items[i].ordered {
          return false;
        }
      }
      all := true;
    }

    /** After the counting loop: credit the purchase order, judge the receipt, close the order. */
    method FinishReceipt(id: ReceiptId, operator: nat, discrepancy: bool, f: ReceiveFaults) returns (r: Result)
      requires id in store.receipts
      modifies store`orders, store`receipts
      ensures r == old(FinishOutcome(store.View(), id, discrepancy, operator, f))
      ensures store.View() == old(Finished(store.View(), id, discrepancy, operator, f))
    {
      var order := store.receipts[id].orderRef;
      if order !in store.orders {
        return Failed;
      }
      ghost var p := store.View();
      var items := CreditOrder(order, store.receipts[id].lines, f.lostCredits);
      var allReceived := AllReceived(items);
      assert allReceived == AllIn(p, id) && store.View() == WithCredits(p, id, f.lostCredits);
      if f.receiptFails {
        return Failed;
      }
      store.receipts := store.receipts[id := store.receipts[id].(
        status := if discrepancy then Discrepancy else Complete, operator := operator)];
      assert store.View() == Judged(WithCredits(p, id, f.lostCredits), id, discrepancy, operator);
      var open := store.HasOpenReceipts(order);
      if !open {
        if f.orderFails {
          return Failed;
        }
        store.orders := store.orders[order := store.orders[order].(
          status := if allReceived then Received else Partial)];
      }
      r := Ok;
    }

    method ProcessBlindReceipt(id: ReceiptId, operator: nat, counts: map<string, Count>, now: nat, f: ReceiveFaults)
      returns (r: Result)
      requires ledger.store == store
      modifies store
      ensures r == old(ReceiveOutcome(store.View(), id, operator, counts, now, f))
      ensures store.View() == old(AfterReceive(store.View(), id, operator, counts, now, f))
    {
      if id !in store.receipts {
        return NotFound;
      }
      var hold := store.receipts[id].hold;
      if hold.owner.None? || hold.owner.value != operator {
        return AlreadyLocked;
      }
      if hold.expires.Some? && hold.expires.value < now {
        return LockExpired;
      }
      ghost var p := store.View();
      var ok, discrepancy := ReceiveLines(id, counts, now, f);
      assert store.View() == AfterLines(p, id, counts, now, f);
      if !ok {
        return Failed;
      }
      r := FinishReceipt(id, operator, discrepancy, f);
    }
  }
}
