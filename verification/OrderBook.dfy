/**
 The simple view of a market: two queues of resting orders, each in priority
 order (better price first, earlier arrival first), and a greedy walk that
 matches an incoming order against the opposite queue.  The pointer-based
 engine in module MatchingEngine is proved to compute exactly these functions.
 */
module OrderBook {
  import opened Common

  const REJECT_UNKNOWN_MARKET := 1001
  const REJECT_INSUFFICIENT_LIQUIDITY := 1002
  const REJECT_POST_ONLY_WOULD_CROSS := 1003
  const REJECT_ORDER_NOT_FOUND := 1004
  const REJECT_INVALID_QUANTITY := 1005
  const REJECT_DUPLICATE_ORDER_ID := 1006
  const REJECT_INVALID_DISPLAY_QUANTITY := 1007

  datatype OrderRequest = OrderRequest(
    id: OrderId, account: U64, side: Side, quantity: int, price: int,
    displayQuantity: int, tif: TimeInForce, flags: Flags)

  datatype ReplaceRequest = ReplaceRequest(
    id: OrderId, newQuantity: int, newPrice: int, newDisplayQuantity: int,
    newTif: TimeInForce, newFlags: Flags)

  datatype FillEvent = FillEvent(maker: OrderId, taker: OrderId, quantity: int, price: int)

  datatype OrderResult = OrderResult(
    accepted: bool, fullyFilled: bool, resting: bool, rejectCode: int, fills: seq<FillEvent>)

  datatype CancelResult = CancelResult(cancelled: bool, rejectCode: int)

  datatype ReplaceResult = ReplaceResult(accepted: bool, resting: bool, rejectCode: int, fills: seq<FillEvent>)

  /** The contents of one order record, without its list links. */
  datatype Order = Order(
    request: OrderRequest, remaining: int, displayRemaining: int, displaySize: int, fifoSeq: nat)

  datatype Book = Book(bids: seq<Order>, asks: seq<Order>, nextSequence: nat)

  const EMPTY_BOOK := Book([], [], 1)

  function Queue(b: Book, side: Side): seq<Order> {
    if side.Buy? then b.bids else b.asks
  }

  function WithQueue(b: Book, side: Side, q: seq<Order>): Book {
    if side.Buy? then b.(bids := q) else b.(asks := q)
  }

  predicate Crosses(side: Side, takerPrice: int, makerPrice: int) {
    if side.Buy? then makerPrice <= takerPrice else makerPrice >= takerPrice
  }

  /** Price p has strictly higher priority than q among the resting orders of a side. */
  predicate Better(side: Side, p: int, q: int) {
    if side.Buy? then p > q else p < q
  }

  /** What a record shows after `refresh_display`. */
  function Shown(flags: Flags, displaySize: int, remaining: int): int {
    if flags.hidden then 0
    else if flags.iceberg && displaySize > 0 then Min(displaySize, remaining)
    else remaining
  }

  function Refreshed(o: Order): Order {
    o.(displayRemaining := Shown(o.request.flags, o.displaySize, o.remaining))
  }

  function AfterFill(o: Order, traded: int): Order {
    Refreshed(o.(remaining := o.remaining - traded))
  }

  /** The record of a newly arrived order, before matching. */
  function NewOrder(req: OrderRequest, sequence: nat): Order {
    var size := if req.flags.hidden then 0 else if req.flags.iceberg then req.displayQuantity else req.quantity;
    var shown := if req.flags.hidden then 0 else if req.flags.iceberg then Min(req.displayQuantity, req.quantity) else req.quantity;
    Order(req, req.quantity, shown, size, sequence)
  }

  datatype WalkResult = WalkResult(fills: seq<FillEvent>, left: seq<Order>, remaining: int)

  /** Greedy matching: consume the queue from its front while quantity is left and prices cross. */
  function Walk(side: Side, limit: int, taker: OrderId, quantity: int, makers: seq<Order>): WalkResult
    decreases |makers|
  {
    if quantity <= 0 || makers == [] || !Crosses(side, limit, makers[0].request.price) then
      WalkResult([], makers, quantity)
    else
      var maker := makers[0];
      var traded := Min(quantity, maker.remaining);
      var fill := FillEvent(maker.request.id, taker, traded, maker.request.price);
      if traded == maker.remaining then
        var rest := Walk(side, limit, taker, quantity - traded, makers[1..]);
        WalkResult([fill] + rest.fills, rest.left, rest.remaining)
      else
        WalkResult([fill], [AfterFill(maker, traded)] + makers[1..], quantity - traded)
  }

  /** All quantity that an order with this limit could trade against. */
  function Fillable(side: Side, limit: int, makers: seq<Order>): int {
    if makers == [] || !Crosses(side, limit, makers[0].request.price) then 0
    else makers[0].remaining + Fillable(side, limit, makers[1..])
  }

  /** Time priority: a new order goes behind every order whose price is at least as good. */
  function Insert(side: Side, q: seq<Order>, o: Order): seq<Order> {
    if q == [] || Better(side, o.request.price, q[0].request.price) then [o] + q
    else [q[0]] + Insert(side, q[1..], o)
  }

  predicate HasId(q: seq<Order>, id: OrderId) {
    exists i :: 0 <= i < |q| && q[i].request.id == id
  }

  predicate Contains(b: Book, id: OrderId) {
    HasId(b.bids, id) || HasId(b.asks, id)
  }

  /** The position of an id in a queue that holds it. */
  function IndexOf(q: seq<Order>, id: OrderId): (i: nat)
    requires HasId(q, id)
    ensures i < |q| && q[i].request.id == id
    ensures forall j :: 0 <= j < i ==> q[j].request.id != id
  {
    if q[0].request.id == id then 0
    else
      assert HasId(q[1..], id) by {
        var k :| 0 <= k < |q| && q[k].request.id == id;
        assert q[1..][k - 1].request.id == id;
      }
      1 + IndexOf(q[1..], id)
  }

  function Without(q: seq<Order>, id: OrderId): seq<Order> {
    if HasId(q, id) then var i := IndexOf(q, id); q[..i] + q[i + 1..] else q
  }

  function Lookup(b: Book, id: OrderId): Order
    requires Contains(b, id)
  {
    if HasId(b.bids, id) then b.bids[IndexOf(b.bids, id)] else b.asks[IndexOf(b.asks, id)]
  }

  function RemoveId(b: Book, id: OrderId): Book {
    if HasId(b.bids, id) then b.(bids := Without(b.bids, id)) else b.(asks := Without(b.asks, id))
  }

  function Rejected(code: int, fills: seq<FillEvent>): OrderResult {
    OrderResult(false, false, false, code, fills)
  }

  datatype Placement = Placement(book: Book, result: OrderResult)

  predicate PostOnlyBlocked(b: Book, req: OrderRequest) {
    var makers := Queue(b, Opposite(req.side));
    req.flags.postOnly && makers != [] && Crosses(req.side, req.price, makers[0].request.price)
  }

  predicate FokBlocked(b: Book, req: OrderRequest) {
    req.tif.Fok? && Fillable(req.side, req.price, Queue(b, Opposite(req.side))) < req.quantity
  }

  /** The outcome of matching alone: fills, and the book with the consumed makers gone. */
  function Matched(b: Book, req: OrderRequest): WalkResult {
    Walk(req.side, req.price, req.id, req.quantity, Queue(b, Opposite(req.side)))
  }

  function AfterMatch(b: Book, req: OrderRequest): Book {
    WithQueue(b, Opposite(req.side), Matched(b, req).left).(nextSequence := b.nextSequence + 1)
  }

  /** The taker's record after matching. */
  function Unmatched(b: Book, req: OrderRequest): Order {
    NewOrder(req, b.nextSequence).(remaining := Matched(b, req).remaining)
  }

  /** What happens to a taker once its matching is over. */
  function Finish(b: Book, taker: Order, fills: seq<FillEvent>): Placement {
    var req := taker.request;
    if taker.remaining <= 0 then
      Placement(b, OrderResult(true, true, false, 0, fills))
    else if req.tif.Ioc? || req.tif.Fok? then
      Placement(b, OrderResult(true, false, false, 0, fills))
    else if Contains(b, req.id) then
      // The duplicate is noticed only now, after its fills have happened.
      Placement(b, Rejected(REJECT_DUPLICATE_ORDER_ID, fills))
    else
      var rested := Insert(req.side, Queue(b, req.side), Refreshed(taker));
      Placement(WithQueue(b, req.side, rested), OrderResult(true, false, true, 0, fills))
  }

  function Place(b: Book, req: OrderRequest): Placement {
    if PostOnlyBlocked(b, req) then
      Placement(b, Rejected(REJECT_POST_ONLY_WOULD_CROSS, []))
    else if FokBlocked(b, req) then
      Placement(b, Rejected(REJECT_INSUFFICIENT_LIQUIDITY, []))
    else
      Finish(AfterMatch(b, req), Unmatched(b, req), Matched(b, req).fills)
  }

  function ReplacementRequest(o: Order, req: ReplaceRequest): OrderRequest {
    OrderRequest(req.id, o.request.account, o.request.side, req.newQuantity, req.newPrice,
                 req.newDisplayQuantity, req.newTif, req.newFlags)
  }

  // ----- the engine: one book per market -----

  type Engine = map<U16, Book>

  function BookOf(e: Engine, market: U16): Book {
    if market in e then e[market] else EMPTY_BOOK
  }

  predicate Admissible(req: OrderRequest) {
    req.quantity > 0 && (req.flags.iceberg ==> 0 < req.displayQuantity <= req.quantity)
  }

  function Submit(e: Engine, req: OrderRequest): (Engine, OrderResult) {
    if req.quantity <= 0 then (e, Rejected(REJECT_INVALID_QUANTITY, []))
    else if !Admissible(req) then (e, Rejected(REJECT_INVALID_DISPLAY_QUANTITY, []))
    else
      var p := Place(BookOf(e, req.id.market), req);
      (e[req.id.market := p.book], p.result)
  }

  function Cancel(e: Engine, id: OrderId): (Engine, CancelResult) {
    if id.market !in e then (e, CancelResult(false, REJECT_UNKNOWN_MARKET))
    else if !Contains(e[id.market], id) then (e, CancelResult(false, REJECT_ORDER_NOT_FOUND))
    else (e[id.market := RemoveId(e[id.market], id)], CancelResult(true, 0))
  }

  function Replace(e: Engine, req: ReplaceRequest): (Engine, ReplaceResult) {
    var market := req.id.market;
    if market !in e then (e, ReplaceResult(false, false, REJECT_UNKNOWN_MARKET, []))
    else if !Contains(e[market], req.id) then (e, ReplaceResult(false, false, REJECT_ORDER_NOT_FOUND, []))
    else
      var placed := Place(RemoveId(e[market], req.id), ReplacementRequest(Lookup(e[market], req.id), req));
      var r := placed.result;
      (e[market := placed.book], ReplaceResult(r.accepted, r.resting, r.rejectCode, r.fills))
  }

  function AddMarket(e: Engine, market: U16): Engine {
    if market in e then e else e[market := EMPTY_BOOK]
  }

  function ClearMarket(e: Engine, market: U16): Engine {
    e[market := EMPTY_BOOK]
  }
}
