/**
  The price-time order book, as a client of the exchange understands it.

  Each side is one queue of resting orders, best price first and, within a tick, oldest first.
  `Step` says what one command does to the two queues and to the index of client order ids, and which
  events it emits.  There is no arena, no price level, no bitmap and no counter here: those live in
  the engine, which is proved to refine this module.
 */
module Exchange {
  import opened Types

  const MAX_OPEN_ORDERS: nat := 1000

  // ---------------------------------------------------------------- prices and ticks

  datatype Config = Config(basePrice: u64, tickSize: u64, capacity: nat)
  {
    ghost predicate Valid() {
      1 <= tickSize && 1 <= capacity
    }
  }

  /** The tick of a price, rounding down; None outside the ladder. */
  function PriceToTick(cfg: Config, price: u64): (tick: Option<nat>)
    requires cfg.Valid()
    ensures tick.Some? ==> tick.value < TICKS
  {
    if price < cfg.basePrice then
      None
    else
      var tick := (price - cfg.basePrice) / cfg.tickSize;
      if tick >= TICKS then None else Some(tick)
  }

  function TickToPrice(cfg: Config, tick: nat): nat {
    cfg.basePrice + tick * cfg.tickSize
  }

  /** The tick an order rests on. */
  function TickOf(cfg: Config, o: Order): (tick: nat)
    requires cfg.Valid()
    ensures tick < TICKS
  {
    match PriceToTick(cfg, o.price)
    case Some(tick) => tick
    case None => 0
  }

  /** Price priority within a side: smaller ranks trade first. */
  function Rank(cfg: Config, o: Order): int
    requires cfg.Valid()
  {
    if o.side == Sell then TickOf(cfg, o) else TICKS - TickOf(cfg, o)
  }

  // ---------------------------------------------------------------- queues

  /** How many leading orders of `q` have priority over a newcomer `o`. */
  function InsertionPoint(cfg: Config, q: seq<Order>, o: Order): (k: nat)
    requires cfg.Valid()
    ensures k <= |q|
    ensures forall i | 0 <= i < k :: Rank(cfg, q[i]) <= Rank(cfg, o)
    ensures k < |q| ==> Rank(cfg, o) < Rank(cfg, q[k])
  {
    if q == [] || Rank(cfg, o) < Rank(cfg, q[0]) then 0 else 1 + InsertionPoint(cfg, q[1..], o)
  }

  /** `o` joins the queue behind every order of the same or a better tick. */
  function Insert(cfg: Config, q: seq<Order>, o: Order): (r: seq<Order>)
    requires cfg.Valid()
    ensures |r| == |q| + 1
  {
    var k := InsertionPoint(cfg, q, o);
    q[..k] + [o] + q[k..]
  }

  /** The position of the order with internal id `id`, or `|q|`. */
  function Position(q: seq<Order>, id: nat): (k: nat)
    ensures k <= |q|
    ensures k < |q| ==> q[k].orderId == id
    ensures forall i | 0 <= i < k :: q[i].orderId != id
  {
    if q == [] || q[0].orderId == id then 0 else 1 + Position(q[1..], id)
  }

  function Contains(q: seq<Order>, id: nat): bool {
    Position(q, id) < |q|
  }

  function Without(q: seq<Order>, id: nat): seq<Order> {
    var k := Position(q, id);
    if k < |q| then q[..k] + q[k + 1..] else q
  }

  function Replaced(q: seq<Order>, o: Order): seq<Order> {
    var k := Position(q, o.orderId);
    if k < |q| then q[k := o] else q
  }

  /** The number of orders of `q` that belong to `client`. */
  function Owned(q: seq<Order>, client: u64): nat {
    if q == [] then 0 else (if q[0].clientId == client then 1 else 0) + Owned(q[1..], client)
  }

  // ---------------------------------------------------------------- matching

  /** An incoming order: `limit` is None for a market order. */
  datatype Aggressor = Aggressor(orderId: nat, clientId: u64, symbol: Symbol, side: Side, limit: Option<u64>)

  predicate Crosses(cfg: Config, a: Aggressor, tick: nat) {
    match a.limit
    case None => true
    case Some(limit) =>
      if a.side == Buy then limit >= TickToPrice(cfg, tick) else limit <= TickToPrice(cfg, tick)
  }

  function FillOf(a: Aggressor, o: Order, qty: nat): OutputEvent {
    Fill(a.orderId, o.orderId, a.clientId, o.clientId, a.symbol, o.price, qty, a.side)
  }

  /** What a sweep did: its events, the orders it filled completely, the queue it left and the
      quantity it could not fill. */
  datatype Sweep = Sweep(events: seq<OutputEvent>, filled: seq<Order>, rest: seq<Order>, left: nat)

  /** The aggressor trades against the head of the queue until it is done or the head does not cross. */
  function Match(cfg: Config, a: Aggressor, q: seq<Order>, qty: nat): (sweep: Sweep)
    requires cfg.Valid()
    ensures sweep.left <= qty
    decreases |q|
  {
    if qty == 0 || q == [] || !Crosses(cfg, a, TickOf(cfg, q[0])) then
      Sweep([], [], q, qty)
    else if qty < q[0].leavesQty then
      Sweep([FillOf(a, q[0], qty)], [], [q[0].Reduced(qty)] + q[1..], 0)
    else
      var next := Match(cfg, a, q[1..], qty - q[0].leavesQty);
      Sweep([FillOf(a, q[0], q[0].leavesQty)] + next.events, [q[0]] + next.filled, next.rest, next.left)
  }

  // ---------------------------------------------------------------- the exchange

  datatype State = State(bids: seq<Order>, asks: seq<Order>, index: map<Key, nat>, nextId: nat)
  {
    function Queue(side: Side): seq<Order> {
      if side == Buy then bids else asks
    }

    function WithQueue(side: Side, q: seq<Order>): State {
      if side == Buy then this.(bids := q) else this.(asks := q)
    }

    /** The resting order with internal id `id`. */
    function Locate(id: nat): Option<Order> {
      if Contains(bids, id) then Some(bids[Position(bids, id)])
      else if Contains(asks, id) then Some(asks[Position(asks, id)])
      else None
    }

    /** The resting order a client names by its own id. */
    function Find(key: Key): Option<Order> {
      if key in index then Locate(index[key]) else None
    }

    function OpenOrders(client: u64): nat {
      Owned(bids, client) + Owned(asks, client)
    }

    function Live(): nat {
      |bids| + |asks|
    }
  }

  const EMPTY: State := State([], [], map[], 1)

  datatype Outcome = Outcome(state: State, events: seq<OutputEvent>)

  function KeysOf(q: seq<Order>): set<Key> {
    set o | o in q :: o.Key()
  }

  /** The state after aggressor `a` has swept the other side. */
  function Swept(s: State, a: Aggressor, sweep: Sweep): State {
    s.WithQueue(Opposite(a.side), sweep.rest).(index := s.index - KeysOf(sweep.filled))
  }

  /** What is left of a limit order after its sweep, as it would rest. */
  function Residual(a: Aggressor, clientOrderId: u64, price: u64, quantity: nat, left: nat): Order
    requires left <= quantity
  {
    Order(a.orderId, a.clientId, clientOrderId, a.symbol, a.side, Limit, Gtc, price, quantity, left, quantity - left)
  }

  /** A residual rests if there is one and the arena has a slot for it. */
  function Rest(cfg: Config, s: State, o: Order): Outcome
    requires cfg.Valid()
  {
    if o.leavesQty == 0 then
      Outcome(s, [])
    else if s.Live() >= cfg.capacity then
      Outcome(s, [OrderRejected(o.clientId, o.clientOrderId, ArenaFull)])
    else
      Outcome(Rested(cfg, s, o),
              [OrderAccepted(o.orderId, o.clientId, o.clientOrderId, o.symbol, o.side, o.price, o.leavesQty)])
  }

  function PlaceLimit(cfg: Config, s: State, a: Aggressor, clientOrderId: u64, price: u64, quantity: nat): Outcome
    requires cfg.Valid()
  {
    var sweep := Match(cfg, a, s.Queue(Opposite(a.side)), quantity);
    var rest := Rest(cfg, Swept(s, a, sweep), Residual(a, clientOrderId, price, quantity, sweep.left));
    Outcome(rest.state, sweep.events + rest.events)
  }

  /** A market order never rests: what it cannot fill is cancelled. */
  function PlaceMarket(cfg: Config, s: State, a: Aggressor, quantity: nat): Outcome
    requires cfg.Valid()
  {
    var sweep := Match(cfg, a, s.Queue(Opposite(a.side)), quantity);
    Outcome(Swept(s, a, sweep),
            sweep.events + if sweep.left > 0 then [OrderCancelled(a.orderId, a.clientId, sweep.left)] else [])
  }

  function PlaceOrder(cfg: Config, s: State, cmd: Command): Outcome
    requires cfg.Valid() && cmd.Place?
  {
    if cmd.quantity == 0 then
      Outcome(s, [OrderRejected(cmd.clientId, cmd.clientOrderId, InvalidQuantity)])
    else if s.OpenOrders(cmd.clientId) >= MAX_OPEN_ORDERS then
      Outcome(s, [OrderRejected(cmd.clientId, cmd.clientOrderId, ClientOrderLimitExceeded)])
    else
      Admit(cfg, s.(nextId := s.nextId + 1), AggressorOf(cmd, s.nextId), cmd)
  }

  function AggressorOf(cmd: Command, id: nat): Aggressor
    requires cmd.Place?
  {
    Aggressor(id, cmd.clientId, cmd.symbol, cmd.side, if cmd.orderType == Market then None else cmd.price)
  }

  /** A placed order that has its internal id. */
  function Admit(cfg: Config, s: State, a: Aggressor, cmd: Command): Outcome
    requires cfg.Valid() && cmd.Place?
  {
    if cmd.orderType == Market then
      PlaceMarket(cfg, s, a, cmd.quantity)
    else if cmd.price.None? || PriceToTick(cfg, cmd.price.value).None? then
      Outcome(s, [OrderRejected(cmd.clientId, cmd.clientOrderId, InvalidPrice)])
    else
      PlaceLimit(cfg, s, a, cmd.clientOrderId, cmd.price.value, cmd.quantity)
  }

  /** The state with a new order resting in its queue and named by the index. */
  function Rested(cfg: Config, s: State, o: Order): State
    requires cfg.Valid()
  {
    s.WithQueue(o.side, Insert(cfg, s.Queue(o.side), o)).(index := s.index[o.Key() := o.orderId])
  }

  /** The state with an order gone from its queue and its key gone from the index. */
  function Removed(s: State, o: Order): State {
    s.WithQueue(o.side, Without(s.Queue(o.side), o.orderId)).(index := s.index - {o.Key()})
  }

  /** The state with the resting order of `o`'s id replaced by `o`. */
  function WithOrder(s: State, o: Order): State {
    s.WithQueue(o.side, Replaced(s.Queue(o.side), o))
  }

  function CancelOrder(s: State, clientId: u64, clientOrderId: u64): Outcome {
    match s.Find((clientId, clientOrderId))
    case None => Outcome(s, [CancelRejected(clientOrderId, clientId)])
    case Some(o) => Outcome(Removed(s, o), [OrderCancelled(o.orderId, clientId, o.leavesQty)])
  }

  function OrElse<T>(x: Option<T>, d: T): T {
    match x
    case Some(v) => v
    case None => d
  }

  /** The resting order `o` asks for a new price and a new open quantity. */
  function Amend(cfg: Config, s: State, o: Order, price: u64, leaves: nat): Outcome
    requires cfg.Valid()
  {
    if leaves == 0 then
      Outcome(s, [ModifyRejected(o.orderId, o.clientId)])
    else if price == o.price && leaves <= o.leavesQty then
      Outcome(WithOrder(s, o.Reduced(o.leavesQty - leaves)), [OrderModified(o.orderId, o.clientId, price, leaves)])
    else if PriceToTick(cfg, price).None? then
      Outcome(Removed(s, o), [ModifyRejected(o.orderId, o.clientId)])
    else
      Outcome(Rested(cfg, Removed(s, o), Requeued(o, price, leaves)),
              [OrderModified(o.orderId, o.clientId, price, leaves)])
  }

  /** `o` as it goes to the back of the queue of its new price; `quantity` and `filledQty` stay. */
  function Requeued(o: Order, price: u64, leaves: nat): Order {
    o.(timeInForce := Gtc, price := price, leavesQty := leaves)
  }

  function ModifyOrder(cfg: Config, s: State, clientId: u64, clientOrderId: u64,
                       newPrice: Option<u64>, newQty: Option<u64>): Outcome
    requires cfg.Valid()
  {
    match s.Find((clientId, clientOrderId))
    case None => Outcome(s, [ModifyRejected(clientOrderId, clientId)])
    case Some(o) => Amend(cfg, s, o, OrElse(newPrice, o.price), OrElse(newQty, o.leavesQty))
  }

  function Step(cfg: Config, s: State, cmd: Command): Outcome
    requires cfg.Valid()
  {
    match cmd
    case Place(_, _, _, _, _, _, _, _) =>
      PlaceOrder(cfg, s, cmd)
    case Cancel(clientId, clientOrderId) =>
      CancelOrder(s, clientId, clientOrderId)
    case Modify(clientId, clientOrderId, newPrice, newQty) =>
      ModifyOrder(cfg, s, clientId, clientOrderId, newPrice, newQty)
  }

  /** The state after a whole list of commands. */
  function Run(cfg: Config, s: State, cmds: seq<Command>): State
    requires cfg.Valid()
    decreases |cmds|
  {
    if cmds == [] then s else Run(cfg, Step(cfg, s, cmds[0]).state, cmds[1..])
  }
}
