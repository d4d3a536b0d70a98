/**
 Purchase orders, shipments, goods receipts, stock and ledger, as one value, with what each procurement
 call does to them. Each call is one atomic step; the failures a call can meet are its parameters.
 */
module ProcurementModel {
  import opened Options
  import opened Ledger
  import Pool = DeficitPool

  // ---------------------------------------------------------------- entities

  datatype OrderStatus = Draft | Approved | InTransit | Partial | Received | Void | OtherStatus(name: string)
  datatype OrderLine = OrderLine(sku: string, ordered: int, received: int, price: real)
  datatype OrderId = OrderId(year: nat, number: nat)
  datatype PurchaseOrder = PurchaseOrder(vendor: nat, status: OrderStatus, total: real, lines: seq<OrderLine>)

  datatype OperatorLock = OperatorLock(owner: Option<nat>, expires: Option<nat>)

  datatype ShipmentStatus = Scheduled | Underway | Delivered | Delayed | OtherShipmentStatus(name: string)
  datatype ShipmentItem = ShipmentItem(sku: string, qty: int)
  datatype Shipment = Shipment(orderRef: OrderId, status: ShipmentStatus, hold: OperatorLock, items: seq<ShipmentItem>)

  datatype ReceiptStatus = Pending | Inspected | Complete | Discrepancy
  datatype ReceiptId = ReceiptId(order: OrderId, number: nat)
  datatype ReceiptLine = ReceiptLine(sku: string, ordered: int, received: Option<int>, defective: Option<int>,
                                     agingSensitive: bool, produced: Option<nat>, overAge: bool)
  datatype Receipt = Receipt(orderRef: OrderId, status: ReceiptStatus, operator: nat, hold: OperatorLock,
                             lines: seq<ReceiptLine>)

  datatype Stock = Stock(qty: int, unitCost: real)

  /** clock stamps ledger entries; maxAge is the configured aging threshold; checksReceipts says whether the
      purchase-order service was given the receipts to look at. */
  datatype Procurement = Procurement(
    orders: map<OrderId, PurchaseOrder>,
    shipments: map<nat, Shipment>,
    receipts: map<ReceiptId, Receipt>,
    stock: map<string, Stock>,
    ledger: seq<Entry>,
    clock: nat,
    deficits: Pool.Broker,
    maxAge: nat,
    checksReceipts: bool)

  const RECEIPT_HOLD := 60
  const DISPATCH_HOLD := 30
  const FREE := OperatorLock(None, None)

  datatype Result = Ok | NotFound | MonoVendorViolation | InvalidTransition | StateRegression | IncompleteReceipts
    | InsufficientDeficit | AlreadyLocked | LockExpired | AlreadyDispatched | NotLocked | Failed

  // ---------------------------------------------------------------- purchase orders

  function Rank(s: OrderStatus): Option<nat> {
    match s
    case Draft => Some(0)
    case Approved => Some(1)
    case InTransit => Some(2)
    case Partial => Some(3)
    case Received => Some(4)
    case Void => Some(5)
    case OtherStatus(_) => None
  }

  /** Forward only, except that a partially received order may go back in transit. */
  predicate ValidTransition(current: OrderStatus, next: OrderStatus) {
    || (current == Partial && next == InTransit)
    || (Rank(current).Some? && Rank(next).Some? && Rank(next).value > Rank(current).value)
  }

  predicate Blocks(s: OrderStatus) {
    s == Draft || s == Approved || s == InTransit
  }

  predicate VendorBusy(p: Procurement, vendor: nat) {
    exists id :: id in p.orders && p.orders[id].vendor == vendor && Blocks(p.orders[id].status)
  }

  function OrdersOfYear(p: Procurement, year: nat): set<OrderId> {
    set id | id in p.orders && id.year == year
  }

  function NextOrderId(p: Procurement, year: nat): OrderId {
    OrderId(year, |OrdersOfYear(p, year)| + 1)
  }

  function DraftOutcome(p: Procurement, vendor: nat, year: nat, fails: bool): Result {
    if VendorBusy(p, vendor) then MonoVendorViolation
    else if fails || NextOrderId(p, year) in p.orders then Failed
    else Ok
  }

  function AfterDraft(p: Procurement, vendor: nat, year: nat, fails: bool): Procurement {
    if DraftOutcome(p, vendor, year, fails) != Ok then p
    else p.(orders := p.orders[NextOrderId(p, year) := PurchaseOrder(vendor, Draft, 0.0, [])])
  }

  /** The deficit is locked before the unit cost is looked up, so a missing stock row loses the line only. */
  function AddLineOutcome(p: Procurement, id: OrderId, sku: string, qty: int, f: Pool.Faults, lineFails: bool): Result {
    if id !in p.orders then NotFound
    else if p.orders[id].status != Draft then InvalidTransition
    else
      match Pool.LockOutcome(p.deficits, sku, qty, f)
      case InsufficientDeficit => InsufficientDeficit
      case BrokerError => Failed
      case Locked => if sku !in p.stock || lineFails then Failed else Ok
  }

  function AfterAddLine(p: Procurement, id: OrderId, sku: string, qty: int, f: Pool.Faults,
          lineFails: bool): Procurement {
    if id !in p.orders || p.orders[id].status != Draft then p
    else
      var locked := p.(deficits := Pool.AfterLock(p.deficits, sku, qty, f));
      if AddLineOutcome(p, id, sku, qty, f, lineFails) != Ok then locked
      else
        var o := p.orders[id];
        locked.(orders := p.orders[id := o.(lines := o.lines + [OrderLine(sku, qty, 0, p.stock[sku].unitCost)])])
  }

  function Value(lines: seq<OrderLine>): real {
    if lines == [] then 0.0 else lines[0].ordered as real * lines[0].price + Value(lines[1..])
  }

  function AfterApprove(p: Procurement, id: OrderId, fails: bool): Procurement {
    if ApproveOutcome(p, id, fails) != Ok then p
    else p.(orders := p.orders[id := p.orders[id].(status := Approved, total := Value(p.orders[id].lines))])
  }

  function ApproveOutcome(p: Procurement, id: OrderId, fails: bool): Result {
    if id !in p.orders then NotFound
    else if p.orders[id].status != Draft then InvalidTransition
    else if fails then Failed
    else Ok
  }

  /** Receipts still open: neither complete nor a recorded discrepancy. */
  predicate OpenReceipts(p: Procurement, id: OrderId) {
    exists r :: r in p.receipts && p.receipts[r].orderRef == id
             && p.receipts[r].status != Complete && p.receipts[r].status != Discrepancy
  }

  function MoveOutcome(p: Procurement, id: OrderId, next: OrderStatus, fails: bool): Result {
    if id !in p.orders then NotFound
    else if !ValidTransition(p.orders[id].status, next) then StateRegression
    else if next != Void && p.checksReceipts && OpenReceipts(p, id) then IncompleteReceipts
    else if fails then Failed
    else Ok
  }

  function AfterMove(p: Procurement, id: OrderId, next: OrderStatus, fails: bool): Procurement {
    if MoveOutcome(p, id, next, fails) != Ok then p
    else p.(orders := p.orders[id := p.orders[id].(status := next)])
  }

  // ---------------------------------------------------------------- operator locks

  /** Held by someone else and not yet expired. */
  predicate HeldByOther(l: OperatorLock, operator: nat, now: nat) {
    l.owner.Some? && l.owner.value != operator && l.expires.Some? && l.expires.value > now
  }

  function Held(operator: nat, until: nat): OperatorLock {
    OperatorLock(Some(operator), Some(until))
  }

  /** What stands in the way of an operator who has to hold the lock. */
  function HoldError(l: OperatorLock, operator: nat, now: nat): Option<Result> {
    if l.owner != Some(operator) then Some(NotLocked)
    else if l.expires.Some? && l.expires.value < now then Some(LockExpired)
    else None
  }

  // ---------------------------------------------------------------- shipments

  function ShipmentRank(s: ShipmentStatus): Option<nat> {
    match s
    case Scheduled => Some(0)
    case Underway => Some(1)
    case Delivered => Some(2)
    case Delayed => Some(3)
    case OtherShipmentStatus(_) => None
  }

  /** Delays only interrupt a journey; otherwise forward only. */
  predicate ValidShipmentTransition(current: ShipmentStatus, next: ShipmentStatus) {
    && ShipmentRank(current).Some? && ShipmentRank(next).Some?
    && (if next == Delayed then current == Underway
        else if current == Delayed then next == Underway
        else ShipmentRank(next).value > ShipmentRank(current).value)
  }

  /** The order's lines as shipment items; one whose write fails is missing, and nobody is told. */
  function Cloned(lines: seq<OrderLine>, lost: set<nat>, from: nat): seq<ShipmentItem>
    decreases |lines|
  {
    if lines == [] then []
    else
      (if from in lost then [] else [ShipmentItem(lines[0].sku, lines[0].ordered)])
      + Cloned(lines[1..], lost, from + 1)
  }

  function NewShipmentOutcome(p: Procurement, id: nat, orderRef: OrderId, fails: bool): Result {
    if orderRef !in p.orders then NotFound else if fails || id in p.shipments then Failed else Ok
  }

  /** The caller says which status the shipment starts in. */
  function AfterNewShipment(p: Procurement, id: nat, orderRef: OrderId, status: ShipmentStatus, fails: bool,
                            lost: set<nat>): Procurement {
    if NewShipmentOutcome(p, id, orderRef, fails) != Ok then p
    else p.(shipments := p.shipments[id := Shipment(orderRef, status, FREE, Cloned(p.orders[orderRef].lines, lost, 0))])
  }

  function LockShipmentOutcome(p: Procurement, id: nat, operator: nat, now: nat, fails: bool): Result {
    if id !in p.shipments then NotFound
    else if p.shipments[id].status == Underway || p.shipments[id].status == Delivered then AlreadyDispatched
    else if HeldByOther(p.shipments[id].hold, operator, now) then AlreadyLocked
    else if fails then Failed
    else Ok
  }

  function AfterLockShipment(p: Procurement, id: nat, operator: nat, now: nat, fails: bool): Procurement {
    if LockShipmentOutcome(p, id, operator, now, fails) != Ok then p
    else p.(shipments := p.shipments[id := p.shipments[id].(hold := Held(operator, now + DISPATCH_HOLD))])
  }

  function AfterUnlockShipment(p: Procurement, id: nat, fails: bool): Procurement {
    if id !in p.shipments || fails then p
    else p.(shipments := p.shipments[id := p.shipments[id].(hold := FREE)])
  }

  function DispatchOutcome(p: Procurement, id: nat, operator: nat, now: nat, fails: bool): Result {
    if id !in p.shipments then NotFound
    else
      var s := p.shipments[id];
      if s.status == Underway || s.status == Delivered then AlreadyDispatched
      else if s.status != Scheduled then InvalidTransition
      else if HoldError(s.hold, operator, now).Some? then HoldError(s.hold, operator, now).value
      else if fails then Failed
      else Ok
  }

  function AfterDispatch(p: Procurement, id: nat, operator: nat, now: nat, fails: bool): Procurement {
    if DispatchOutcome(p, id, operator, now, fails) != Ok then p
    else p.(shipments := p.shipments[id := p.shipments[id].(status := Underway, hold := FREE)])
  }

  function MoveShipmentOutcome(p: Procurement, id: nat, next: ShipmentStatus, fails: bool): Result {
    if id !in p.shipments then NotFound
    else if !ValidShipmentTransition(p.shipments[id].status, next) then StateRegression
    else if fails then Failed
    else Ok
  }

  function AfterMoveShipment(p: Procurement, id: nat, next: ShipmentStatus, fails: bool): Procurement {
    if MoveShipmentOutcome(p, id, next, fails) != Ok then p
    else p.(shipments := p.shipments[id := p.shipments[id].(status := next)])
  }

  // ---------------------------------------------------------------- deliveries create receipts

  datatype DeliverFault = DeliverFine | StatusFails | LinesUnread | ReceiptFails | LineFails(at: nat)

  function ReceiptsOf(p: Procurement, order: OrderId): set<ReceiptId> {
    set r | r in p.receipts && p.receipts[r].orderRef == order
  }

  function NextReceiptId(p: Procurement, order: OrderId): ReceiptId {
    ReceiptId(order, |ReceiptsOf(p, order)| + 1)
  }

  function LinesOf(p: Procurement, order: OrderId): seq<OrderLine> {
    if order in p.orders then p.orders[order].lines else []
  }

  /** A receipt line mirrors an order line, with nothing counted yet. */
  function Mirrored(lines: seq<OrderLine>): (r: seq<ReceiptLine>)
    ensures |r| == |lines|
  {
    if lines == [] then []
    else [ReceiptLine(lines[0].sku, lines[0].ordered, None, None, false, None, false)] + Mirrored(lines[1..])
  }

  lemma {:induction false} MirroredLines(lines: seq<OrderLine>)
    ensures forall i :: 0 <= i < |lines| ==>
              Mirrored(lines)[i] == ReceiptLine(lines[i].sku, lines[i].ordered, None, None, false, None, false)
  {
    if lines != [] {
      MirroredLines(lines[1..]);
      assert forall i :: 0 < i < |lines| ==> lines[i] == lines[1..][i - 1];
    }
  }

  function DeliverOutcome(p: Procurement, id: nat, f: DeliverFault): Result {
    if id !in p.shipments then NotFound
    else if p.shipments[id].status != Underway then InvalidTransition
    else
      var order := p.shipments[id].orderRef;
      if f.StatusFails? || f.LinesUnread? || f.ReceiptFails? || NextReceiptId(p, order) in p.receipts
         || (f.LineFails? && f.at < |LinesOf(p, order)|) then Failed
      else Ok
  }

  /** The shipment is marked first; a later failure leaves it delivered with no receipt, or part of one. */
  function AfterDeliver(p: Procurement, id: nat, operator: nat, f: DeliverFault): Procurement {
    if id !in p.shipments || p.shipments[id].status != Underway || f.StatusFails? then p
    else
      var order := p.shipments[id].orderRef;
      var marked := p.(shipments := p.shipments[id := p.shipments[id].(status := Delivered)]);
      if f.LinesUnread? || f.ReceiptFails? || NextReceiptId(p, order) in p.receipts then marked
      else
        var lines := Mirrored(LinesOf(p, order));
        var saved := if f.LineFails? && f.at < |lines| then lines[..f.at] else lines;
        marked.(receipts := p.receipts[NextReceiptId(p, order) := Receipt(order, Pending, operator, FREE, saved)])
  }

  // ---------------------------------------------------------------- blind receiving

  datatype Count = Count(received: int, defective: int)

  datatype LineFault = LineFine | SaveFails | StockUnread | StockUnsaved | LedgerFailsOnce | LedgerFailsTwice

  /** lostCredits: the order lines whose save fails, which is ignored. */
  datatype ReceiveFaults = ReceiveFaults(lines: map<nat, LineFault>, lostCredits: set<nat>, receiptFails: bool,
                                         orderFails: bool)

  /** The tables a receipt line moves, while its receipt is being counted. */
  datatype Counting = Counting(lines: seq<ReceiptLine>, stock: map<string, Stock>, ledger: seq<Entry>, clock: nat,
                               discrepancy: bool)

  function FaultAt(f: ReceiveFaults, i: nat): LineFault {
    if i in f.lines then f.lines[i] else LineFine
  }

  function Counted(l: ReceiptLine, c: Count, now: nat, maxAge: nat): ReceiptLine {
    l.(received := Some(c.received), defective := Some(c.defective),
       overAge := l.overAge || (l.agingSensitive && l.produced.Some? && now - l.produced.value > maxAge))
  }

  function StockedUp(w: Counting, sku: string, qty: int, ledgerWorks: bool): Counting
    requires sku in w.stock
  {
    var stocked := w.(stock := w.stock[sku := w.stock[sku].(qty := w.stock[sku].qty + qty)]);
    if qty > 0 && ledgerWorks then
      stocked.(ledger := Recorded(w.ledger, Write(sku, qty, w.clock, w.clock)), clock := w.clock + 1)
    else stocked
  }

  /** The line cannot be saved, or its stock row cannot be read or saved. */
  predicate Breaks(w: Counting, i: nat, f: LineFault)
    requires i < |w.lines|
  {
    f == SaveFails || f == StockUnread || f == StockUnsaved || w.lines[i].sku !in w.stock
  }

  /** One counted receipt line: save it, stock it, enter it in the ledger. */
  function LineEntered(w: Counting, i: nat, c: Count, now: nat, maxAge: nat, f: LineFault): Counting
    requires i < |w.lines|
  {
    var l := w.lines[i];
    var noted := w.(discrepancy := w.discrepancy || c.received != l.ordered || c.defective > 0);
    if f == SaveFails then noted
    else
      var saved := noted.(lines := w.lines[i := Counted(l, c, now, maxAge)]);
      if Breaks(w, i, f) then saved else StockedUp(saved, l.sku, c.received, f != LedgerFailsTwice)
  }

  /** Lines whose SKU is not in the counts are passed over. */
  function LineCounted(w: Counting, i: nat, counts: map<string, Count>, now: nat, maxAge: nat, f: LineFault): Counting
    requires i < |w.lines|
  {
    if w.lines[i].sku in counts then LineEntered(w, i, counts[w.lines[i].sku], now, maxAge, f) else w
  }

  predicate LineStops(w: Counting, i: nat, counts: map<string, Count>, f: LineFault)
    requires i < |w.lines|
  {
    w.lines[i].sku in counts && Breaks(w, i, f)
  }

  function CountedFrom(w: Counting, i: nat, counts: map<string, Count>, now: nat, maxAge: nat,
          f: ReceiveFaults): Counting
    decreases |w.lines| - i
  {
    if i >= |w.lines| then w
    else
      var w' := LineCounted(w, i, counts, now, maxAge, FaultAt(f, i));
      if LineStops(w, i, counts, FaultAt(f, i)) then w' else CountedFrom(w', i + 1, counts, now, maxAge, f)
  }

  predicate CountsThrough(w: Counting, i: nat, counts: map<string, Count>, now: nat, maxAge: nat, f: ReceiveFaults)
    decreases |w.lines| - i
  {
    i >= |w.lines|
    || (!LineStops(w, i, counts, FaultAt(f, i))
        && CountsThrough(LineCounted(w, i, counts, now, maxAge, FaultAt(f, i)), i + 1, counts, now, maxAge, f))
  }

  /** What the counted lines of a receipt say was received of a SKU, over all calls so far. */
  function ReceivedOf(lines: seq<ReceiptLine>, sku: string): int {
    if lines == [] then 0
    else (if lines[0].sku == sku && lines[0].received.Some? then lines[0].received.value else 0)
         + ReceivedOf(lines[1..], sku)
  }

  /** Each line credited with what was received of its SKU, but for the lines whose credit is lost. */
  function Credited(lines: seq<OrderLine>, counted: seq<ReceiptLine>, lost: set<nat>, from: nat): (r: seq<OrderLine>)
    ensures |r| == |lines|
    decreases |lines|
  {
    if lines == [] then []
    else
      [if from in lost then lines[0] else lines[0].(received := lines[0].received + ReceivedOf(counted, lines[0].sku))]
      + Credited(lines[1..], counted, lost, from + 1)
  }

  lemma {:induction false} CreditedAt(lines: seq<OrderLine>, counted: seq<ReceiptLine>, lost: set<nat>, from: nat,
                                      j: nat)
    requires j < |lines|
    ensures Credited(lines, counted, lost, from)[j]
         == if from + j in lost then lines[j]
            else lines[j].(received := lines[j].received + ReceivedOf(counted, lines[j].sku))
    decreases |lines|
  {
    if j > 0 {
      CreditedAt(lines[1..], counted, lost, from + 1, j - 1);
    }
  }

  predicate FullyReceived(lines: seq<OrderLine>) {
    forall i :: 0 <= i < |lines| ==> lines[i].received >= lines[i].ordered
  }

  function Begin(p: Procurement, r: ReceiptId): Counting
    requires r in p.receipts
  {
    Counting(p.receipts[r].lines, p.stock, p.ledger, p.clock, false)
  }

  function ReceiveError(p: Procurement, r: ReceiptId, operator: nat, now: nat): Option<Result> {
    if r !in p.receipts then Some(NotFound)
    else
      match HoldError(p.receipts[r].hold, operator, now)
      case Some(NotLocked) => Some(AlreadyLocked)
      case e => e
  }

  function Receiving(p: Procurement, r: ReceiptId, counts: map<string, Count>, now: nat, f: ReceiveFaults): Counting
    requires r in p.receipts
  {
    CountedFrom(Begin(p, r), 0, counts, now, p.maxAge, f)
  }

  predicate CountsAll(p: Procurement, r: ReceiptId, counts: map<string, Count>, now: nat, f: ReceiveFaults)
    requires r in p.receipts
  {
    CountsThrough(Begin(p, r), 0, counts, now, p.maxAge, f)
  }

  /** The lines, stock and ledger after the counting loop, before the purchase order is looked at. */
  function AfterLines(p: Procurement, r: ReceiptId, counts: map<string, Count>, now: nat, f: ReceiveFaults): Procurement
    requires r in p.receipts
  {
    var w := Receiving(p, r, counts, now, f);
    p.(receipts := p.receipts[r := p.receipts[r].(lines := w.lines)],
       stock := w.stock, ledger := w.ledger, clock := w.clock)
  }

  /** The order's lines credited with everything the receipt's lines say was received. */
  function WithCredits(p: Procurement, r: ReceiptId, lost: set<nat>): Procurement
    requires r in p.receipts && p.receipts[r].orderRef in p.orders
  {
    var id := p.receipts[r].orderRef;
    p.(orders := p.orders[id := p.orders[id].(lines := Credited(p.orders[id].lines, p.receipts[r].lines, lost, 0))])
  }

  /** Whether everything is received is judged on the lines in hand, saved or not. */
  predicate AllIn(p: Procurement, r: ReceiptId)
    requires r in p.receipts && p.receipts[r].orderRef in p.orders
  {
    FullyReceived(Credited(p.orders[p.receipts[r].orderRef].lines, p.receipts[r].lines, {}, 0))
  }

  function Judged(p: Procurement, r: ReceiptId, discrepancy: bool, operator: nat): Procurement
    requires r in p.receipts
  {
    p.(receipts := p.receipts[r := p.receipts[r].(
      status := if discrepancy then Discrepancy else Complete, operator := operator)])
  }

  function Closed(p: Procurement, id: OrderId, allIn: bool): Procurement
    requires id in p.orders
  {
    p.(orders := p.orders[id := p.orders[id].(status := if allIn then Received else Partial)])
  }

  /** What follows the counting loop: credit the order, judge the receipt, and close the order if no receipt of
      it is open any more. */
  function Finished(p: Procurement, r: ReceiptId, discrepancy: bool, operator: nat, f: ReceiveFaults): Procurement
    requires r in p.receipts
  {
    var id := p.receipts[r].orderRef;
    if id !in p.orders then p
    else
      var credited := WithCredits(p, r, f.lostCredits);
      if f.receiptFails then credited
      else
        var judged := Judged(credited, r, discrepancy, operator);
        if f.orderFails || OpenReceipts(judged, id) then judged else Closed(judged, id, AllIn(p, r))
  }

  function FinishOutcome(p: Procurement, r: ReceiptId, discrepancy: bool, operator: nat, f: ReceiveFaults): Result
    requires r in p.receipts
  {
    var id := p.receipts[r].orderRef;
    if id !in p.orders || f.receiptFails then Failed
    else
      var judged := Judged(WithCredits(p, r, f.lostCredits), r, discrepancy, operator);
      if f.orderFails && !OpenReceipts(judged, id) then Failed else Ok
  }

  function ReceiveOutcome(p: Procurement, r: ReceiptId, operator: nat, counts: map<string, Count>, now: nat,
                          f: ReceiveFaults): Result {
    if ReceiveError(p, r, operator, now).Some? then ReceiveError(p, r, operator, now).value
    else if !CountsAll(p, r, counts, now, f) then Failed
    else FinishOutcome(AfterLines(p, r, counts, now, f), r, Receiving(p, r, counts, now, f).discrepancy, operator, f)
  }

  function AfterReceive(p: Procurement, r: ReceiptId, operator: nat, counts: map<string, Count>, now: nat,
                        f: ReceiveFaults): Procurement {
    if ReceiveError(p, r, operator, now).Some? then p
    else
      var counted := AfterLines(p, r, counts, now, f);
      if !CountsAll(p, r, counts, now, f) then counted
      else Finished(counted, r, Receiving(p, r, counts, now, f).discrepancy, operator, f)
  }

  function LockReceiptOutcome(p: Procurement, r: ReceiptId, operator: nat, now: nat, fails: bool): Result {
    if r !in p.receipts then NotFound
    else if HeldByOther(p.receipts[r].hold, operator, now) then AlreadyLocked
    else if fails then Failed
    else Ok
  }

  function AfterLockReceipt(p: Procurement, r: ReceiptId, operator: nat, now: nat, fails: bool): Procurement {
    if LockReceiptOutcome(p, r, operator, now, fails) != Ok then p
    else
      p.(receipts := p.receipts[r := p.receipts[r].(hold := Held(operator, now + RECEIPT_HOLD), operator := operator)])
  }

  function AfterUnlockReceipt(p: Procurement, r: ReceiptId, fails: bool): Procurement {
    if r !in p.receipts || fails then p
    else p.(receipts := p.receipts[r := p.receipts[r].(hold := FREE)])
  }

  // ---------------------------------------------------------------- runs

  datatype Step =
    | CreateDraft(vendor: nat, year: nat, fails: bool)
    | AddLine(id: OrderId, sku: string, qty: int, lockFaults: Pool.Faults, fails: bool)
    | Approve(id: OrderId, fails: bool)
    | MoveOrder(id: OrderId, next: OrderStatus, fails: bool)
    | NewShipment(shipment: nat, orderRef: OrderId, status: ShipmentStatus, fails: bool, lost: set<nat>)
    | LockShipment(shipment: nat, operator: nat, now: nat, fails: bool)
    | UnlockShipment(shipment: nat, fails: bool)
    | Dispatch(shipment: nat, operator: nat, now: nat, fails: bool)
    | Deliver(shipment: nat, operator: nat, deliverFault: DeliverFault)
    | MoveShipment(shipment: nat, nextShipment: ShipmentStatus, fails: bool)
    | LockReceipt(receipt: ReceiptId, operator: nat, now: nat, fails: bool)
    | UnlockReceipt(receipt: ReceiptId, fails: bool)
    | Receive(receipt: ReceiptId, operator: nat, counts: map<string, Count>, now: nat, faults: ReceiveFaults)

  function Apply(p: Procurement, s: Step): Procurement {
    match s
    case CreateDraft(vendor, year, fails) => AfterDraft(p, vendor, year, fails)
    case AddLine(id, sku, qty, f, fails) => AfterAddLine(p, id, sku, qty, f, fails)
    case Approve(id, fails) => AfterApprove(p, id, fails)
    case MoveOrder(id, next, fails) => AfterMove(p, id, next, fails)
    case NewShipment(id, orderRef, status, fails, lost) => AfterNewShipment(p, id, orderRef, status, fails, lost)
    case LockShipment(id, operator, now, fails) => AfterLockShipment(p, id, operator, now, fails)
    case UnlockShipment(id, fails) => AfterUnlockShipment(p, id, fails)
    case Dispatch(id, operator, now, fails) => AfterDispatch(p, id, operator, now, fails)
    case Deliver(id, operator, f) => AfterDeliver(p, id, operator, f)
    case MoveShipment(id, next, fails) => AfterMoveShipment(p, id, next, fails)
    case LockReceipt(r, operator, now, fails) => AfterLockReceipt(p, r, operator, now, fails)
    case UnlockReceipt(r, fails) => AfterUnlockReceipt(p, r, fails)
    case Receive(r, operator, counts, now, f) => AfterReceive(p, r, operator, counts, now, f)
  }

  function Run(p: Procurement, steps: seq<Step>): Procurement
    decreases |steps|
  {
    if steps == [] then p else Run(Apply(p, steps[0]), steps[1..])
  }
}
