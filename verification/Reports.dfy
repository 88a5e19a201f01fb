/**
  What every command reports and does, field by field and in numbers: each event is written out from the
  command and the book before it, and so is each order that a command leaves behind.
 */
module Reports {
  import opened Types
  import opened Arithmetic
  import opened Exchange
  import opened ExchangeInvariant
  import opened SweepLaws
  import opened LedgerLaws
  import opened CrossingLaws
  import opened EventLaws
  import opened LimitLaws
  import opened BookLaws
  import opened OrphanLaws
  import opened PlaceLaws

  // ---------------------------------------------------------------- prices

  /** The price is on the ladder of 262144 ticks. */
  predicate InRange(cfg: Config, price: u64) {
    cfg.basePrice <= price < cfg.basePrice + 262144 * cfg.tickSize
  }

  /** A price has a tick exactly when it is on the ladder, between two ticks or not: the last one that is
      not above it. */
  lemma TickIsFloor(cfg: Config, price: u64)
    requires cfg.Valid()
    ensures PriceToTick(cfg, price).Some? <==> InRange(cfg, price)
    ensures PriceToTick(cfg, price).Some? ==>
              var tick := PriceToTick(cfg, price).value;
              cfg.basePrice + tick * cfg.tickSize <= price < cfg.basePrice + (tick + 1) * cfg.tickSize
  {
    if cfg.basePrice <= price {
      var tick := (price - cfg.basePrice) / cfg.tickSize;
      Division(price - cfg.basePrice, cfg.tickSize);
      NextMultiple(tick, cfg.tickSize);
      if tick < 262144 {
        if tick < 262143 { MultipleGap(tick + 1, 262144, cfg.tickSize); }
      } else if tick > 262144 {
        MultipleGap(262144, tick, cfg.tickSize);
      }
    }
  }

  // ---------------------------------------------------------------- which places reach matching

  /** The place has a quantity, its client fewer than 1000 resting orders, and, unless it is a market
      order, it has a price on the ladder. */
  predicate Admitted(cfg: Config, s: State, cmd: Command) {
    && cmd.Place? && cmd.quantity > 0 && Owned(s.bids, cmd.clientId) + Owned(s.asks, cmd.clientId) < 1000
    && (cmd.orderType == Market || (cmd.price.Some? && InRange(cfg, cmd.price.value)))
  }

  lemma AdmittedMatches(cfg: Config, s: State, cmd: Command)
    requires cfg.Valid()
    ensures Admitted(cfg, s, cmd) <==> Matches(cfg, s, cmd)
    ensures Admitted(cfg, s, cmd) ==> cmd.Place? && (cmd.orderType == Limit ==> cmd.price.Some?)
  {
    if cmd.Place? && cmd.price.Some? {
      TickIsFloor(cfg, cmd.price.value);
    }
    hide Owned, PriceToTick, InRange;
  }

  /** A refused place: the first of three reasons that holds is reported, and of the state only the
      internal id changes, which is used up by a refusal of the price. */
  lemma RefusedPlace(cfg: Config, s: State, cmd: Command)
    requires cfg.Valid() && cmd.Place? && !Admitted(cfg, s, cmd)
    ensures var r := Step(cfg, s, cmd);
            if cmd.quantity == 0 then
              && r.events == [OrderRejected(clientId := cmd.clientId, clientOrderId := cmd.clientOrderId,
                                            reason := InvalidQuantity)]
              && r.state == s
            else if Owned(s.bids, cmd.clientId) + Owned(s.asks, cmd.clientId) >= 1000 then
              && r.events == [OrderRejected(clientId := cmd.clientId, clientOrderId := cmd.clientOrderId,
                                            reason := ClientOrderLimitExceeded)]
              && r.state == s
            else
              && r.events == [OrderRejected(clientId := cmd.clientId, clientOrderId := cmd.clientOrderId,
                                            reason := InvalidPrice)]
              && r.state == State(s.bids, s.asks, s.index, s.nextId + 1)
  {
    if cmd.price.Some? {
      TickIsFloor(cfg, cmd.price.value);
    }
    hide Owned, PriceToTick, InRange, PlaceLimit, PlaceMarket;
  }

  // ---------------------------------------------------------------- fills

  /** The queue the place trades against. */
  function Facing(s: State, cmd: Command): seq<Order>
    requires cmd.Place?
  {
    if cmd.side == Buy then s.asks else s.bids
  }

  /** The place would trade on the tick of this price. */
  predicate Willing(cfg: Config, cmd: Command, price: u64)
    requires cfg.Valid() && cmd.Place?
  {
    cmd.orderType == Market ||
    (cmd.price.Some? &&
     var level := cfg.basePrice + (price - cfg.basePrice) / cfg.tickSize * cfg.tickSize;
     if cmd.side == Buy then level <= cmd.price.value else cmd.price.value <= level)
  }

  /** The place trades with the `i`-th order of that queue: it would trade on its tick, and the orders ahead
      are not enough. */
  predicate Reached(cfg: Config, s: State, cmd: Command, i: nat)
    requires cfg.Valid() && cmd.Place?
  {
    var q := Facing(s, cmd);
    i < |q| && Willing(cfg, cmd, q[i].price) && Leaves(q[..i]) < cmd.quantity
  }

  lemma WillingCrosses(cfg: Config, cmd: Command, id: nat, o: Order)
    requires cfg.Valid() && cmd.Place? && PriceToTick(cfg, o.price).Some?
    requires cmd.orderType == Market || cmd.price.Some?
    ensures Crosses(cfg, AggressorOf(cmd, id), TickOf(cfg, o)) <==> Willing(cfg, cmd, o.price)
  {
  }

  lemma ReachedIff(cfg: Config, s: State, cmd: Command, i: nat)
    requires cfg.Valid() && Inv(cfg, s) && Admitted(cfg, s, cmd)
    ensures Facing(s, cmd) == s.Queue(Opposite(cmd.side))
    ensures i < |PlaceSweep(cfg, s, cmd).events| <==> Reached(cfg, s, cmd, i)
  {
    var a, q := AggressorOf(cmd, s.nextId), s.Queue(Opposite(cmd.side));
    QueueOk(cfg, s, Opposite(cmd.side));
    SweepReaches(cfg, a, q, s.nextId, cmd.quantity, i);
    if i < |q| {
      PricesInQueue(cfg, q, Opposite(cmd.side), s.nextId, i);
      WillingCrosses(cfg, cmd, s.nextId, q[i]);
    }
    hide Inv, SideOk, Match, Leaves, Willing, Crosses, TickOf;
  }

  lemma PricesInQueue(cfg: Config, q: seq<Order>, side: Side, nextId: nat, i: nat)
    requires cfg.Valid() && SideOk(cfg, q, side, nextId) && i < |q|
    ensures PriceToTick(cfg, q[i].price).Some?
  {
    hide Rank, PriceToTick;
  }

  /** The quantity of the `i`-th fill: all of the order, or what was still wanted. */
  lemma FillQuantity(cfg: Config, s: State, cmd: Command, i: nat)
    requires cfg.Valid() && Inv(cfg, s) && cmd.Place? && i < |PlaceSweep(cfg, s, cmd).events|
    ensures var q := s.Queue(Opposite(cmd.side));
            && i < |q| && Leaves(q[..i]) <= cmd.quantity
            && PlaceSweep(cfg, s, cmd).events[i] ==
               FillOf(AggressorOf(cmd, s.nextId), q[i], Min(q[i].leavesQty, cmd.quantity - Leaves(q[..i])))
  {
    hide Inv, SideOk, Match, Leaves, FillOf;
    var a, q := AggressorOf(cmd, s.nextId), s.Queue(Opposite(cmd.side));
    QueueOk(cfg, s, Opposite(cmd.side));
    PositiveLeaves(cfg, q, Opposite(cmd.side), s.nextId);
    var k, part := SweepIsGreedy(cfg, a, q, cmd.quantity);
    GreedyQuantity(a, q, Match(cfg, a, q, cmd.quantity), cmd.quantity, k, part, i);
  }

  lemma GreedyQuantity(a: Aggressor, q: seq<Order>, sweep: Sweep, qty: nat, k: nat, part: nat, i: nat)
    requires Greedy(a, q, sweep, k, part) && qty == Leaves(q[..k]) + part + sweep.left && i < |sweep.events|
    requires forall j | 0 <= j < |q| :: q[j].leavesQty > 0
    ensures i < |q| && Leaves(q[..i]) <= qty
    ensures sweep.events[i] == FillOf(a, q[i], Min(q[i].leavesQty, qty - Leaves(q[..i])))
  {
    hide Leaves, FillOf;
    if i < k {
      LeavesGrow(q, i + 1, k);
      OneMore(q, i);
    }
  }

  lemma OneMore(q: seq<Order>, i: nat)
    requires i < |q|
    ensures Leaves(q[..i + 1]) == Leaves(q[..i]) + q[i].leavesQty
  {
    assert q[..i + 1] == q[..i] + [q[i]];
    LeavesConcat(q[..i], [q[i]]);
    LeavesSingle(q[i]);
  }

  /** The `i`-th event of an admitted place is a fill exactly when the place trades with the `i`-th order of
      the other side; and then this is what it says. */
  lemma FillReport(cfg: Config, s: State, cmd: Command, i: nat)
    requires cfg.Valid() && Inv(cfg, s) && Admitted(cfg, s, cmd)
    ensures var events, q := Step(cfg, s, cmd).events, Facing(s, cmd);
            && (i < |events| && events[i].Fill? <==> Reached(cfg, s, cmd, i))
            && (Reached(cfg, s, cmd, i) ==>
                  events[i] == Fill(aggressorOrderId := s.nextId,
                                    restingOrderId := q[i].orderId,
                                    aggressorClientId := cmd.clientId,
                                    restingClientId := q[i].clientId,
                                    symbol := cmd.symbol,
                                    price := q[i].price,
                                    quantity := Min(q[i].leavesQty, cmd.quantity - Leaves(q[..i])),
                                    aggressorSide := cmd.side))
  {
    hide Step, Match, Inv, Admitted, Matches, Leaves, Willing, InRange;
    AdmittedMatches(cfg, s, cmd);
    PlaceFills(cfg, s, cmd);
    ReachedIff(cfg, s, cmd, i);
    var fills := PlaceSweep(cfg, s, cmd).events;
    if i < |fills| {
      FillQuantity(cfg, s, cmd, i);
      assert Step(cfg, s, cmd).events[..|fills|][i] == fills[i];
    }
  }

  /** Every fill but the last of an admitted place takes all of its order. */
  lemma FillsBeforeLast(cfg: Config, s: State, cmd: Command, i: nat)
    requires cfg.Valid() && Inv(cfg, s) && Admitted(cfg, s, cmd) && Reached(cfg, s, cmd, i + 1)
    ensures Reached(cfg, s, cmd, i)
    ensures i < |Step(cfg, s, cmd).events| && i < |Facing(s, cmd)|
    ensures Step(cfg, s, cmd).events[i].Fill? && Step(cfg, s, cmd).events[i].quantity == Facing(s, cmd)[i].leavesQty
  {
    hide Step, Match, Inv, Admitted, Leaves, Reached;
    AdmittedMatches(cfg, s, cmd);
    ReachedIff(cfg, s, cmd, i + 1);
    ReachedIff(cfg, s, cmd, i);
    FillReport(cfg, s, cmd, i);
    AheadOf(cfg, s, cmd, i + 1);
    OneMore(Facing(s, cmd), i);
  }

  lemma AheadOf(cfg: Config, s: State, cmd: Command, i: nat)
    requires cfg.Valid() && cmd.Place? && Reached(cfg, s, cmd, i)
    ensures i < |Facing(s, cmd)| && Leaves(Facing(s, cmd)[..i]) < cmd.quantity
  {
    hide Willing, Leaves;
  }

  // ---------------------------------------------------------------- what follows the fills

  /** There is a slot for it: one was free, or a fill has freed one. */
  predicate SlotFor(cfg: Config, s: State, cmd: Command)
    requires cfg.Valid()
  {
    |s.bids| + |s.asks| < cfg.capacity || Filled(Step(cfg, s, cmd).events) > 0
  }

  /** The event after the fills of a place that is not filled. */
  function LastWord(s: State, cmd: Command, left: nat, room: bool): OutputEvent
    requires cmd.Place? && (cmd.orderType == Limit ==> cmd.price.Some?)
  {
    if cmd.orderType == Market then
      OrderCancelled(orderId := s.nextId, clientId := cmd.clientId, leavesQty := left)
    else if room then
      OrderAccepted(orderId := s.nextId, clientId := cmd.clientId, clientOrderId := cmd.clientOrderId,
                    symbol := cmd.symbol, side := cmd.side, price := cmd.price.value, quantity := left)
    else
      OrderRejected(clientId := cmd.clientId, clientOrderId := cmd.clientOrderId, reason := ArenaFull)
  }

  lemma EventsInParts(cfg: Config, s: State, cmd: Command)
    requires cfg.Valid() && Inv(cfg, s) && Matches(cfg, s, cmd)
    ensures cmd.orderType == Limit ==> cmd.price.Some?
    ensures var sweep := PlaceSweep(cfg, s, cmd);
            Step(cfg, s, cmd).events ==
            sweep.events + if sweep.left > 0 then [LastWord(s, cmd, sweep.left, PlaceRests(cfg, s, cmd))] else []
  {
    hide Inv, State.OpenOrders, Match, Swept, PriceToTick, Rested, Rests, State.Live;
    var s0, a := s.(nextId := s.nextId + 1), AggressorOf(cmd, s.nextId);
    assert s0.Queue(Opposite(cmd.side)) == s.Queue(Opposite(cmd.side));
    NextIdRests(cfg, s, a, cmd.quantity);
    NextIdKeepsInv(cfg, s);
    RestsIff(cfg, s0, a, cmd.quantity);
  }

  /** The fills of a place say what it has traded. */
  lemma TradedIs(cfg: Config, s: State, cmd: Command)
    requires cfg.Valid() && Inv(cfg, s) && cmd.Place? && Matches(cfg, s, cmd)
    ensures Filled(Step(cfg, s, cmd).events) == cmd.quantity - PlaceSweep(cfg, s, cmd).left
  {
    hide Step, Match, Inv, Matches, PlaceRests;
    EventsInParts(cfg, s, cmd);
    var sweep := PlaceSweep(cfg, s, cmd);
    SweepLedger(cfg, AggressorOf(cmd, s.nextId), s.Queue(Opposite(cmd.side)), cmd.quantity);
    if sweep.left > 0 {
      var last := LastWord(s, cmd, sweep.left, PlaceRests(cfg, s, cmd));
      EventsConcat(sweep.events, [last]);
      EventOne(last);
    } else {
      assert sweep.events + [] == sweep.events;
    }
  }

  /** Whether a place comes to rest, in terms of what it has traded. */
  lemma RestsByTrade(cfg: Config, s: State, cmd: Command)
    requires cfg.Valid() && Inv(cfg, s) && Matches(cfg, s, cmd)
    ensures PlaceRests(cfg, s, cmd) <==>
            cmd.orderType == Limit && Filled(Step(cfg, s, cmd).events) < cmd.quantity && SlotFor(cfg, s, cmd)
  {
    TradedIs(cfg, s, cmd);
    QueueOk(cfg, s, Opposite(cmd.side));
    SweepTakesAll(cfg, AggressorOf(cmd, s.nextId), s.Queue(Opposite(cmd.side)), cmd.quantity, s.nextId);
    hide Step, Match, Inv, SideOk, CrossingLeaves, State.OpenOrders, PriceToTick;
  }

  /** An admitted place, in terms of what its fills add up to: all of its events are fills when they are
      its whole quantity, and otherwise all but the last, which cancels the rest of a market order, accepts
      what is left of a limit order at its own price, or rejects it for want of a slot. */
  lemma PlaceReport(cfg: Config, s: State, cmd: Command)
    requires cfg.Valid() && Inv(cfg, s) && Admitted(cfg, s, cmd)
    ensures var events := Step(cfg, s, cmd).events;
            var traded := Filled(events);
            && traded <= cmd.quantity
            && (traded == cmd.quantity ==> forall i | 0 <= i < |events| :: events[i].Fill?)
            && (traded < cmd.quantity ==>
                  && events != []
                  && (forall i | 0 <= i < |events| - 1 :: events[i].Fill?)
                  && events[|events| - 1] ==
                     if cmd.orderType == Market then
                       OrderCancelled(orderId := s.nextId, clientId := cmd.clientId, leavesQty := cmd.quantity - traded)
                     else if |s.bids| + |s.asks| < cfg.capacity || traded > 0 then
                       OrderAccepted(orderId := s.nextId, clientId := cmd.clientId, clientOrderId := cmd.clientOrderId,
                                     symbol := cmd.symbol, side := cmd.side, price := cmd.price.value,
                                     quantity := cmd.quantity - traded)
                     else
                       OrderRejected(clientId := cmd.clientId, clientOrderId := cmd.clientOrderId, reason := ArenaFull))
  {
    AdmittedMatches(cfg, s, cmd);
    EventsInParts(cfg, s, cmd);
    TradedIs(cfg, s, cmd);
    RestsByTrade(cfg, s, cmd);
    OnlyFills(cfg, AggressorOf(cmd, s.nextId), s.Queue(Opposite(cmd.side)), cmd.quantity);
    hide Step, Match, Inv, Matches, PlaceRests;
    assert Match(cfg, AggressorOf(cmd, s.nextId), s.Queue(Opposite(cmd.side)), cmd.quantity) == PlaceSweep(cfg, s, cmd);
  }

  /** What an admitted place leaves in the book under its own id, and in the index under its key. */
  lemma PlacedOrder(cfg: Config, s: State, cmd: Command)
    requires cfg.Valid() && Inv(cfg, s) && Admitted(cfg, s, cmd)
    ensures var s', traded := Step(cfg, s, cmd).state, Filled(Step(cfg, s, cmd).events);
            && s'.nextId == s.nextId + 1
            && traded <= cmd.quantity
            && if cmd.orderType == Limit && traded < cmd.quantity &&
                  (|s.bids| + |s.asks| < cfg.capacity || traded > 0) then
                 && cmd.price.Some?
                 && Resting(s', Order(orderId := s.nextId, clientId := cmd.clientId, clientOrderId := cmd.clientOrderId,
                                      symbol := cmd.symbol, side := cmd.side, orderType := Limit, timeInForce := Gtc,
                                      price := cmd.price.value, quantity := cmd.quantity,
                                      leavesQty := cmd.quantity - traded, filledQty := traded))
                 && (cmd.clientId, cmd.clientOrderId) in s'.index
                 && s'.index[(cmd.clientId, cmd.clientOrderId)] == s.nextId
               else
                 Gone(s', s.nextId)
  {
    hide Step, PlaceOrder, Match, Inv, Matches, Rests, Swept, Rested, Resting, Fresh, Gone, AfterSweep, Admitted,
         Filled;
    AdmittedMatches(cfg, s, cmd);
    TradedIs(cfg, s, cmd);
    RestsByTrade(cfg, s, cmd);
    PlaceStep(cfg, s, cmd);
    PlaceShape(cfg, s, cmd);
    SweepId(cfg, s, cmd);
    if PlaceRests(cfg, s, cmd) {
      ResidualFresh(cfg, s, cmd);
      RestedId(cfg, AfterSweep(cfg, s, cmd), PlaceResidual(cfg, s, cmd));
      RestedFacts(cfg, AfterSweep(cfg, s, cmd), PlaceResidual(cfg, s, cmd));
    } else {
      NoNewOrder(cfg, s, cmd);
    }
  }

  lemma SweepId(cfg: Config, s: State, cmd: Command)
    requires cfg.Valid() && cmd.Place?
    ensures AfterSweep(cfg, s, cmd).nextId == s.nextId + 1
  {
    hide Match;
  }

  lemma NoNewOrder(cfg: Config, s: State, cmd: Command)
    requires cfg.Valid() && Inv(cfg, s) && cmd.Place?
    ensures Gone(AfterSweep(cfg, s, cmd), s.nextId)
  {
    hide Inv, Match, Swept, Resting;
    var s0, a := s.(nextId := s.nextId + 1), AggressorOf(cmd, s.nextId);
    assert s0.Queue(Opposite(cmd.side)) == s.Queue(Opposite(cmd.side));
    NextIdKeepsInv(cfg, s);
    SweepKeepsInv(cfg, s0, a, cmd.quantity);
  }

  /** A place leaves every other order as it was but for what the fills take: of `o`, so much less is open
      and so much more filled, and nothing else about it changes. */
  lemma OthersAfterPlace(cfg: Config, s: State, cmd: Command, o: Order)
    requires cfg.Valid() && Inv(cfg, s) && cmd.Place? && Resting(s, o)
    ensures var r := Step(cfg, s, cmd);
            var taken := FilledOf(r.events, o.orderId);
            && taken <= o.leavesQty
            && if taken < o.leavesQty then
                 Resting(r.state, Order(orderId := o.orderId, clientId := o.clientId, clientOrderId := o.clientOrderId,
                                        symbol := o.symbol, side := o.side, orderType := o.orderType,
                                        timeInForce := o.timeInForce, price := o.price, quantity := o.quantity,
                                        leavesQty := o.leavesQty - taken, filledQty := o.filledQty + taken))
               else Gone(r.state, o.orderId)
  {
    hide Inv, Resting, PlaceOrder, Gone;
    PlaceStep(cfg, s, cmd);
    RestingLeaves(cfg, s, o);
    PlaceKeeps(cfg, s, cmd, o);
  }

  // ---------------------------------------------------------------- cancels and modifies

  /** From `s` to `s'`, `o'` has come in the place of `o`, and every other order is as it was. */
  ghost predicate Exchanged(s: State, s': State, o: Order, o': Order) {
    forall p :: Resting(s', p) <==> (Resting(s, p) && p != o) || p == o'
  }

  /** ... and here nothing has. */
  ghost predicate Deleted(s: State, s': State, o: Order) {
    forall p :: Resting(s', p) <==> Resting(s, p) && p != o
  }

  /** A key that is not in the index: the client's own id is given back, and nothing changes. */
  lemma UnknownKey(cfg: Config, s: State, cmd: Command)
    requires cfg.Valid() && Inv(cfg, s) && !cmd.Place? && (cmd.clientId, cmd.clientOrderId) !in s.index
    ensures Step(cfg, s, cmd).state == s
    ensures cmd.Cancel? ==>
              Step(cfg, s, cmd).events == [CancelRejected(orderId := cmd.clientOrderId, clientId := cmd.clientId)]
    ensures cmd.Modify? ==>
              Step(cfg, s, cmd).events == [ModifyRejected(orderId := cmd.clientOrderId, clientId := cmd.clientId)]
  {
  }

  /** The order a key of the index names: it rests under that key. */
  lemma KnownKey(cfg: Config, s: State, key: Key, o: Order)
    requires cfg.Valid() && Inv(cfg, s) && Resting(s, o) && key in s.index && s.index[key] == o.orderId
    ensures s.Find(key) == Some(o) && o.clientId == key.0 && o.clientOrderId == key.1 && o.leavesQty > 0
  {
    FoundIsResting(cfg, s, key);
    SameIdSameOrder(cfg, s, o, s.Find(key).value);
  }

  /** A cancel of a key that names `o`: the open quantity is reported, the order and its name are gone, and
      every other order and name is as it was. */
  lemma CancelReport(cfg: Config, s: State, cmd: Command, o: Order)
    requires cfg.Valid() && Inv(cfg, s) && cmd.Cancel? && Resting(s, o)
    requires var key := (cmd.clientId, cmd.clientOrderId); key in s.index && s.index[key] == o.orderId
    ensures var r := Step(cfg, s, cmd);
            && r.events == [OrderCancelled(orderId := o.orderId, clientId := cmd.clientId, leavesQty := o.leavesQty)]
            && Deleted(s, r.state, o)
            && r.state.index == s.index - {(cmd.clientId, cmd.clientOrderId)}
            && r.state.nextId == s.nextId
  {
    KnownKey(cfg, s, (cmd.clientId, cmd.clientOrderId), o);
    RemovedFacts(cfg, s, o);
    RemovedId(s, o);
    hide Inv, Resting, State.Find, Removed;
  }

  lemma RemovedId(s: State, o: Order)
    ensures Removed(s, o).nextId == s.nextId
  {
    hide Without;
  }

  /** The price and the open quantity a modify asks for; what it does not mention stays. */
  function AskedPrice(cmd: Command, o: Order): u64
    requires cmd.Modify?
  {
    if cmd.newPrice.Some? then cmd.newPrice.value else o.price
  }

  function AskedLeaves(cmd: Command, o: Order): nat
    requires cmd.Modify?
  {
    if cmd.newQty.Some? then cmd.newQty.value else o.leavesQty
  }

  lemma AmendInPlace(cfg: Config, s: State, o: Order, leaves: nat)
    requires cfg.Valid() && Inv(cfg, s) && Resting(s, o) && 0 < leaves <= o.leavesQty
    ensures var r := Amend(cfg, s, o, o.price, leaves);
            && r.events == [OrderModified(orderId := o.orderId, clientId := o.clientId, newPrice := o.price,
                                          newQty := leaves)]
            && r.state.index == s.index && r.state.nextId == s.nextId
            && Exchanged(s, r.state, o, o.(leavesQty := leaves, filledQty := o.filledQty + (o.leavesQty - leaves)))
  {
    hide Inv, Resting, WithOrder, PriceToTick;
    ReplacedFacts(cfg, s, o, o.Reduced(o.leavesQty - leaves));
    WithOrderId(s, o.Reduced(o.leavesQty - leaves));
  }

  lemma AmendOff(cfg: Config, s: State, o: Order, price: u64, leaves: nat)
    requires cfg.Valid() && Inv(cfg, s) && Resting(s, o) && leaves > 0 && PriceToTick(cfg, price).None?
    ensures var r := Amend(cfg, s, o, price, leaves);
            && r.events == [ModifyRejected(orderId := o.orderId, clientId := o.clientId)]
            && r.state.index == s.index - {(o.clientId, o.clientOrderId)} && r.state.nextId == s.nextId
            && Deleted(s, r.state, o)
  {
    hide Inv, Resting, Removed, PriceToTick;
    OnLadder(cfg, s, o);
    RemovedFacts(cfg, s, o);
    RemovedId(s, o);
  }

  lemma AmendRequeues(cfg: Config, s: State, o: Order, price: u64, leaves: nat)
    requires cfg.Valid() && Inv(cfg, s) && Resting(s, o) && Requeues(cfg, o, price, leaves)
    ensures var r := Amend(cfg, s, o, price, leaves);
            && r.events == [OrderModified(orderId := o.orderId, clientId := o.clientId, newPrice := price,
                                          newQty := leaves)]
            && r.state.index == s.index[(o.clientId, o.clientOrderId) := o.orderId] && r.state.nextId == s.nextId
            && Exchanged(s, r.state, o, o.(timeInForce := Gtc, price := price, leavesQty := leaves))
  {
    hide Inv, Resting, Removed, Rested, PriceToTick, Fresh;
    var o' := Requeued(o, price, leaves);
    RemovedFacts(cfg, s, o);
    RemovedId(s, o);
    RequeueIsFresh(cfg, s, o, o');
    RestedFacts(cfg, Removed(s, o), o');
    RestedId(cfg, Removed(s, o), o');
    assert (s.index - {o.Key()})[o.Key() := o.orderId] == s.index[o.Key() := o.orderId];
  }

  lemma ModifyIsAmend(cfg: Config, s: State, cmd: Command, o: Order)
    requires cfg.Valid() && cmd.Modify? && s.Find((cmd.clientId, cmd.clientOrderId)) == Some(o)
    ensures Step(cfg, s, cmd) == Amend(cfg, s, o, AskedPrice(cmd, o), AskedLeaves(cmd, o))
  {
    hide State.Find, Amend;
  }

  /** A modify of a key that names `o`: what it reports, and what rests afterwards in the place of `o`.
      All other orders are as they were. */
  lemma ModifyReport(cfg: Config, s: State, cmd: Command, o: Order)
    requires cfg.Valid() && Inv(cfg, s) && cmd.Modify? && Resting(s, o)
    requires var key := (cmd.clientId, cmd.clientOrderId); key in s.index && s.index[key] == o.orderId
    ensures var r, price, leaves := Step(cfg, s, cmd), AskedPrice(cmd, o), AskedLeaves(cmd, o);
            && r.state.nextId == s.nextId
            && if leaves == 0 then
                 r.events == [ModifyRejected(orderId := o.orderId, clientId := cmd.clientId)] && r.state == s
               else if price == o.price && leaves <= o.leavesQty then
                 && r.events == [OrderModified(orderId := o.orderId, clientId := cmd.clientId, newPrice := price,
                                               newQty := leaves)]
                 && r.state.index == s.index
                 && Exchanged(s, r.state, o, o.(leavesQty := leaves, filledQty := o.filledQty + (o.leavesQty - leaves)))
               else if !InRange(cfg, price) then
                 && r.events == [ModifyRejected(orderId := o.orderId, clientId := cmd.clientId)]
                 && r.state.index == s.index - {(cmd.clientId, cmd.clientOrderId)}
                 && Deleted(s, r.state, o)
               else
                 && r.events == [OrderModified(orderId := o.orderId, clientId := cmd.clientId, newPrice := price,
                                               newQty := leaves)]
                 && r.state.index == s.index
                 && Exchanged(s, r.state, o, o.(timeInForce := Gtc, price := price, leavesQty := leaves))
  {
    hide Inv, Resting, State.Find, Step, PriceToTick, InRange, Exchanged, Deleted;
    var price, leaves := AskedPrice(cmd, o), AskedLeaves(cmd, o);
    KnownKey(cfg, s, (cmd.clientId, cmd.clientOrderId), o);
    ModifyIsAmend(cfg, s, cmd, o);
    TickIsFloor(cfg, price);
    if leaves > 0 {
      if price == o.price && leaves <= o.leavesQty {
        AmendInPlace(cfg, s, o, leaves);
      } else if PriceToTick(cfg, price).Some? {
        AmendRequeues(cfg, s, o, price, leaves);
        assert s.index[(o.clientId, o.clientOrderId) := o.orderId] == s.index;
      } else {
        AmendOff(cfg, s, o, price, leaves);
      }
    }
  }

  lemma WithOrderId(s: State, o: Order)
    ensures WithOrder(s, o).nextId == s.nextId
  {
    hide Replaced;
  }
}
