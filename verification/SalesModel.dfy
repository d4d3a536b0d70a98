/**
 Sales orders, their reservations, the available-to-promise counters and the allocation queue, as
 values, with what each service call does to them. A SKU's counter is kept under its normalised
 key: trimmed and upper-cased.
 */
module SalesModel {
  import opened Options
  import opened Text

  datatype Status = Pending | Processing | Delivering | Completed | Cancelled

  predicate CanTransitionTo(current: Status, next: Status) {
    match current
    case Pending => next == Processing || next == Cancelled
    case Processing => next == Delivering || next == Cancelled
    case Delivering => next == Completed
    case _ => false
  }

  datatype Item = Item(sku: string, qty: int, price: real)
  datatype ReservationItem = ReservationItem(sku: string, qty: int)
  datatype Reservation = Reservation(orderId: nat, items: seq<ReservationItem>)
  datatype Entry = Entry(orderId: nat, client: nat, requiredDate: nat, ingestedAt: nat)
  datatype Manifest = Manifest(orderId: nat, client: nat, address: string, items: seq<ReservationItem>)

  datatype Order = Order(client: nat, address: string, requiredDate: nat, status: Status, total: real,
                         locked: bool, createdAt: nat, items: seq<Item>)

  /** Order id 0 is the nil id. rows lists the order ids in creation order. The queue is a sorted set. */
  datatype Sales = Sales(
    orders: map<nat, Order>,
    rows: seq<nat>,
    reservations: seq<Reservation>,
    atp: map<string, int>,
    held: map<nat, map<string, int>>,
    queue: seq<Entry>)

  // ---------------------------------------------------------------- SKU keys

  function Key(sku: string): string {
    Upper(Trim(sku))
  }

  /** Storing the trimmed text keeps the key, so distinct keys at validation are distinct counters later. */
  lemma KeyOfStored(sku: string)
    ensures Key(Trim(sku)) == Key(sku)
  {
    TrimTwice(sku);
  }

  // ---------------------------------------------------------------- the allocation queue

  predicate Before(a: Entry, b: Entry) {
    a.ingestedAt < b.ingestedAt || (a.ingestedAt == b.ingestedAt && a.orderId < b.orderId)
  }

  function Remove(q: seq<Entry>, id: nat): seq<Entry> {
    if q == [] then [] else (if q[0].orderId == id then [] else [q[0]]) + Remove(q[1..], id)
  }

  function Insert(q: seq<Entry>, e: Entry): seq<Entry> {
    if q == [] || Before(e, q[0]) then [e] + q else [q[0]] + Insert(q[1..], e)
  }

  /** Sorted-set insertion: a member already there is moved, not repeated. */
  function Enqueue(q: seq<Entry>, e: Entry): seq<Entry> {
    Insert(Remove(q, e.orderId), e)
  }

  function EnqueueAll(q: seq<Entry>, es: seq<Entry>): seq<Entry>
    decreases |es|
  {
    if es == [] then q else EnqueueAll(Enqueue(q, es[0]), es[1..])
  }

  function EntryOf(id: nat, o: Order): Entry {
    Entry(id, o.client, o.requiredDate, o.createdAt)
  }

  function PendingEntries(orders: map<nat, Order>, rows: seq<nat>): seq<Entry> {
    if rows == [] then []
    else (if rows[0] in orders && orders[rows[0]].status == Pending
          then [EntryOf(rows[0], orders[rows[0]])] else [])
         + PendingEntries(orders, rows[1..])
  }

  /** Which call of a queue rebuild fails, if any. */
  datatype RebuildFault = NoFault | ReadFails | EnqueueFails(at: nat)

  function Rebuilt(s: Sales, f: RebuildFault): Sales {
    var es := PendingEntries(s.orders, s.rows);
    match f
    case ReadFails => s
    case EnqueueFails(k) => s.(queue := EnqueueAll([], if k < |es| then es[..k] else es))
    case NoFault => s.(queue := EnqueueAll([], es))
  }

  predicate RebuildOk(s: Sales, f: RebuildFault) {
    match f
    case ReadFails => false
    case EnqueueFails(k) => k >= |PendingEntries(s.orders, s.rows)|
    case NoFault => true
  }

  // ---------------------------------------------------------------- counters

  function Get(atp: map<string, int>, k: string): int {
    if k in atp then atp[k] else 0
  }

  function Wanted(items: seq<Item>): (r: seq<ReservationItem>)
    ensures |r| == |items|
  {
    if items == [] then [] else [ReservationItem(items[0].sku, items[0].qty)] + Wanted(items[1..])
  }

  function Decremented(atp: map<string, int>, items: seq<ReservationItem>): map<string, int>
    decreases |items|
  {
    if items == [] then atp
    else
      var k := Key(items[0].sku);
      Decremented(atp[k := Get(atp, k) - items[0].qty], items[1..])
  }

  /** Hash-field writes: a repeated key overwrites. */
  function Noted(h: map<string, int>, items: seq<ReservationItem>): map<string, int>
    decreases |items|
  {
    if items == [] then h else Noted(h[Key(items[0].sku) := items[0].qty], items[1..])
  }

  function Incremented(atp: map<string, int>, h: map<string, int>): map<string, int> {
    map k | k in atp.Keys + h.Keys :: Get(atp, k) + Get(h, k)
  }

  function HeldFor(s: Sales, id: nat): map<string, int> {
    if id in s.held then s.held[id] else map[]
  }

  /** The pipeline reads every counter once more while it is put together. */
  predicate Reservable(atp: map<string, int>, items: seq<ReservationItem>) {
    forall i :: 0 <= i < |items| ==> Get(atp, Key(items[i].sku)) >= items[i].qty
  }

  function Reserve(s: Sales, id: nat, items: seq<ReservationItem>): Sales {
    s.(atp := Decremented(s.atp, items), held := s.held[id := Noted(HeldFor(s, id), items)])
  }

  function Release(s: Sales, id: nat): Sales {
    s.(atp := Incremented(s.atp, HeldFor(s, id)), held := s.held - {id})
  }

  predicate HasReservation(rs: seq<Reservation>, id: nat) {
    exists i :: 0 <= i < |rs| && rs[i].orderId == id
  }

  function WithoutReservation(rs: seq<Reservation>, id: nat): seq<Reservation> {
    if rs == [] then [] else (if rs[0].orderId == id then [] else [rs[0]]) + WithoutReservation(rs[1..], id)
  }

  // ---------------------------------------------------------------- allocating one order

  /** Taking the head of the queue fails before it is removed, or after. */
  datatype DequeueFault = Dequeues | PopFails | PayloadFails

  datatype AllocFaults = AllocFaults(
    dequeue: DequeueFault, lookupFails: bool, atpFailsAt: Option<nat>, reserveFails: bool, createFails: bool,
        updateFails: bool,
    releaseFails: bool, deleteFails: bool, clientFails: bool, requeueFails: bool)

  const NO_ALLOC_FAULTS := AllocFaults(Dequeues, false, None, false, false, false, false, false, false, false)

  datatype AllocResult = Allocated | Insufficient | Rejected

  /** The reading of every counter in turn, before anything is changed. */
  function Check(atp: map<string, int>, items: seq<Item>, i: nat, failsAt: Option<nat>): AllocResult
    requires i <= |items|
    decreases |items| - i
  {
    if i == |items| then Allocated
    else if failsAt == Some(i) then Rejected
    else if Get(atp, Key(items[i].sku)) < items[i].qty then Insufficient
    else Check(atp, items, i + 1, failsAt)
  }

  function AllocOutcome(s: Sales, id: nat, f: AllocFaults): AllocResult {
    if id == 0 || id !in s.orders || f.lookupFails then Rejected
    else
      var checked := Check(s.atp, s.orders[id].items, 0, f.atpFailsAt);
      if checked != Allocated then checked
      else if f.reserveFails || f.createFails || HasReservation(s.reservations, id) || f.updateFails || f.clientFails
      then Rejected else Allocated
  }

  function AfterAlloc(s: Sales, id: nat, f: AllocFaults): Sales {
    if id == 0 || id !in s.orders || f.lookupFails then s
    else
      var o := s.orders[id];
      var items := Wanted(o.items);
      if Check(s.atp, o.items, 0, f.atpFailsAt) != Allocated || f.reserveFails then s
      else
        var held := Reserve(s, id, items);
        var undone := if f.releaseFails then held else Release(held, id);
        if f.createFails || HasReservation(s.reservations, id) then undone
        else
          var booked := s.reservations + [Reservation(id, items)];
          if f.updateFails then
            undone.(reservations := if f.deleteFails then booked else WithoutReservation(booked, id))
          else
            held.(reservations := booked, orders := s.orders[id := o.(status := Processing, locked := true)])
  }

  // ---------------------------------------------------------------- draining the queue

  function FaultsAt(fs: seq<AllocFaults>): AllocFaults {
    if fs == [] then NO_ALLOC_FAULTS else fs[0]
  }

  function Popped(s: Sales): Sales
    requires s.queue != []
  {
    s.(queue := s.queue[1..])
  }

  lemma AllocKeepsQueue(s: Sales, id: nat, f: AllocFaults)
    ensures AfterAlloc(s, id, f).queue == s.queue && AfterAlloc(s, id, f).rows == s.rows
  {
  }

  function Rest(fs: seq<AllocFaults>): seq<AllocFaults> {
    if fs == [] then [] else fs[1..]
  }

  function HeadOutcome(s: Sales, f: AllocFaults): AllocResult
    requires s.queue != []
  {
    if f.dequeue != Dequeues then Rejected else AllocOutcome(Popped(s), s.queue[0].orderId, f)
  }

  /** Taking the head off and allocating its order. Only an order short of inventory goes back into the queue. */
  function AfterHead(s: Sales, f: AllocFaults): Sales
    requires s.queue != []
  {
    match f.dequeue
    case PopFails => s
    case PayloadFails => Popped(s)
    case Dequeues =>
      var s' := AfterAlloc(Popped(s), s.queue[0].orderId, f);
      if HeadOutcome(s, f) == Insufficient && !f.requeueFails then s'.(queue := Enqueue(s'.queue, s.queue[0])) else s'
  }

  lemma AllocatedHeadLeaves(s: Sales, f: AllocFaults)
    requires s.queue != [] && HeadOutcome(s, f) == Allocated
    ensures AfterHead(s, f) == AfterAlloc(Popped(s), s.queue[0].orderId, f)
    ensures AfterHead(s, f).queue == s.queue[1..]
  {
  }

  /** The queue is worked off in order until it is empty or an order cannot be allocated. */
  function Processed(s: Sales, fs: seq<AllocFaults>): Sales
    decreases |s.queue|
  {
    if s.queue == [] then s
    else if HeadOutcome(s, FaultsAt(fs)) != Allocated then AfterHead(s, FaultsAt(fs))
    else Processed(AfterHead(s, FaultsAt(fs)), Rest(fs))
  }

  /** What ended the drain: Allocated if every order was. */
  function DrainOutcome(s: Sales, fs: seq<AllocFaults>): AllocResult
    decreases |s.queue|
  {
    if s.queue == [] then Allocated
    else if HeadOutcome(s, FaultsAt(fs)) != Allocated then HeadOutcome(s, FaultsAt(fs))
    else DrainOutcome(AfterHead(s, FaultsAt(fs)), Rest(fs))
  }

  function ManifestOf(s: Sales, id: nat): Manifest
    requires id in s.orders
  {
    var o := s.orders[id];
    Manifest(id, o.client, o.address, Wanted(o.items))
  }

  function Manifests(s: Sales, fs: seq<AllocFaults>): seq<Manifest>
    decreases |s.queue|
  {
    if s.queue == [] || HeadOutcome(s, FaultsAt(fs)) != Allocated then []
    else [ManifestOf(s, s.queue[0].orderId)] + Manifests(AfterHead(s, FaultsAt(fs)), Rest(fs))
  }

  /** The state a drain starts from: an empty queue is rebuilt first. */
  function Refilled(s: Sales, rf: RebuildFault): Sales {
    if s.queue == [] then Rebuilt(s, rf) else s
  }

  predicate Drains(s: Sales, listFails: bool, rf: RebuildFault) {
    !listFails && (s.queue == [] ==> RebuildOk(s, rf))
  }

  function AfterProcess(s: Sales, listFails: bool, rf: RebuildFault, fs: seq<AllocFaults>): Sales {
    if listFails then s
    else if !Drains(s, listFails, rf) then Rebuilt(s, rf)
    else Processed(Refilled(s, rf), fs)
  }

  function AfterShow(s: Sales, listFails: bool, rf: RebuildFault): Sales {
    if listFails then s else Refilled(s, rf)
  }

  // ---------------------------------------------------------------- placing and editing orders

  datatype RequestItem = RequestItem(sku: string, qty: int)

  /** The catalogue service: absent, or answering with the SKUs it knows and their prices. */
  datatype Catalogue = NoCatalogue | CatalogueDown | Known(prices: map<string, real>)

  datatype Validated = Valid(items: seq<Item>) | Invalid

  function Priced(sku: string, c: Catalogue): Option<real> {
    match c
    case NoCatalogue => Some(0.0)
    case CatalogueDown => None
    case Known(prices) => if sku in prices then Some(prices[sku]) else None
  }

  /** Every item has a SKU, a positive quantity and a price, and no two share a key. */
  function Validate(items: seq<RequestItem>, seen: set<string>, c: Catalogue): Validated
    decreases |items|
  {
    if items == [] then Valid([])
    else
      var sku, qty := Trim(items[0].sku), items[0].qty;
      if sku == [] || qty <= 0 || Upper(sku) in seen || Priced(sku, c).None? then Invalid
      else
        var rest := Validate(items[1..], seen + {Upper(sku)}, c);
        if rest.Invalid? then Invalid else Valid([Item(sku, qty, Priced(sku, c).value)] + rest.items)
  }

  function Total(items: seq<Item>): real {
    if items == [] then 0.0 else items[0].qty as real * items[0].price + Total(items[1..])
  }

  datatype CallResult = Ok | Refused | Failed

  datatype CreateRequest = CreateRequest(requiredDate: Option<nat>, items: seq<RequestItem>, client: nat,
      address: string)

  datatype CreateFaults = CreateFaults(clientFails: bool, orderFails: bool, itemFailsAt: Option<nat>,
                                       clientUpdateFails: bool, enqueueFails: bool)

  predicate Accepts(r: CreateRequest, c: Catalogue) {
    r.requiredDate.Some? && r.items != [] && Validate(r.items, {}, c).Valid?
  }

  function Stored(items: seq<Item>, failsAt: Option<nat>): seq<Item> {
    if failsAt.Some? && failsAt.value < |items| then items[..failsAt.value] else items
  }

  function NewOrder(r: CreateRequest, c: Catalogue, now: nat, f: CreateFaults): Order
    requires Accepts(r, c)
  {
    var items := Validate(r.items, {}, c).items;
    Order(r.client, r.address, r.requiredDate.value, Pending, Total(items), false, now, Stored(items, f.itemFailsAt))
  }

  predicate CreateCompletes(r: CreateRequest, f: CreateFaults) {
    (f.itemFailsAt.Some? ==> f.itemFailsAt.value >= |r.items|) && !f.clientUpdateFails
  }

  function AfterCreate(s: Sales, id: nat, r: CreateRequest, c: Catalogue, now: nat, f: CreateFaults): Sales {
    if !Accepts(r, c) || f.clientFails || f.orderFails then s
    else
      var o := NewOrder(r, c, now, f);
      s.(orders := s.orders[id := o], rows := s.rows + [id],
         queue := if CreateCompletes(r, f) && !f.enqueueFails then Enqueue(s.queue, EntryOf(id, o)) else s.queue)
  }

  function CreateOutcome(r: CreateRequest, c: Catalogue, f: CreateFaults): CallResult {
    if !Accepts(r, c) then Refused
    else if f.clientFails || f.orderFails || !CreateCompletes(r, f) then Failed
    else Ok
  }

  datatype UpdateRequest = UpdateRequest(address: Option<string>, requiredDate: Option<nat>, items: seq<RequestItem>)

  datatype UpdateFaults = UpdateFaults(replaceFails: bool, updateFails: bool, clearFails: bool)

  predicate Editable(s: Sales, id: nat) {
    id != 0 && id in s.orders && !s.orders[id].locked && s.orders[id].status == Pending
  }

  predicate Updates(s: Sales, id: nat, r: UpdateRequest, c: Catalogue) {
    && Editable(s, id)
    && (r.address.Some? || r.requiredDate.Some? || r.items != [])
    && (r.items != [] ==> Validate(r.items, {}, c).Valid?)
  }

  function AfterUpdate(s: Sales, id: nat, r: UpdateRequest, c: Catalogue, f: UpdateFaults): Sales {
    if !Updates(s, id, r, c) || (r.items != [] && f.replaceFails) then s
    else
      var o := s.orders[id];
      var items := if r.items == [] then o.items else Validate(r.items, {}, c).items;
      if f.updateFails then s.(orders := s.orders[id := o.(items := items)])
      else
        var o' := o.(address := if r.address.Some? then Trim(r.address.value) else o.address,
                     requiredDate := if r.requiredDate.Some? then r.requiredDate.value else o.requiredDate,
                     items := items,
                     total := if r.items == [] then o.total else Total(items));
        s.(orders := s.orders[id := o'], queue := if f.clearFails then s.queue else [])
  }

  function UpdateOutcome(s: Sales, id: nat, r: UpdateRequest, c: Catalogue, f: UpdateFaults): CallResult {
    if !Updates(s, id, r, c) then Refused
    else if (r.items != [] && f.replaceFails) || f.updateFails || f.clearFails then Failed
    else Ok
  }

  /** Clearing the queue may fail silently: the call still reports success. */
  function AfterCancel(s: Sales, id: nat, updateFails: bool, clearFails: bool): Sales {
    if !Editable(s, id) || updateFails then s
    else
      s.(orders := s.orders[id := s.orders[id].(status := Cancelled)], queue := if clearFails then s.queue else [])
  }

  function CancelOutcome(s: Sales, id: nat, updateFails: bool): CallResult {
    if !Editable(s, id) then Refused else if updateFails then Failed else Ok
  }
}
