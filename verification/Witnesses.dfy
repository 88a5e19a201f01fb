/**
  Runs from the empty exchange in which the properties fail that the code does not keep: short ones, and
  for every configuration and every price on the ladder that they can be about.
 */
module Witnesses {
  import opened Types
  import opened Exchange
  import opened ExchangeInvariant
  import opened SweepLaws
  import opened LedgerLaws
  import opened CrossingLaws
  import opened BookLaws
  import opened EventBuffers
  import opened EventLaws
  import opened OrphanLaws
  import opened NameLaws

  // ---------------------------------------------------------------- building blocks

  /** The order a limit order for one unit becomes when it rests under internal id `id`. */
  function UnitOrder(id: nat, clientId: u64, side: Side, price: u64): Order {
    Order(id, clientId, clientId, [0, 0, 0, 0, 0, 0, 0, 0], side, Limit, Gtc, price, 1, 1, 0)
  }

  /** The exchange with one order in it. */
  lemma OneOrder(cfg: Config, side: Side, price: u64)
    requires cfg.Valid() && PriceToTick(cfg, price).Some?
    ensures var o := UnitOrder(1, 1, side, price);
            Run(cfg, EMPTY, [LimitOrder(1, side, price)]) ==
            State(if side == Buy then [o] else [], if side == Sell then [o] else [], map[(1, 1) := 1], 2)
    ensures Inv(cfg, Run(cfg, EMPTY, [LimitOrder(1, side, price)]))
  {
    hide PriceToTick, TickOf, Crosses, Inv, Step, Rested, Run;
    EmptyInv(cfg);
    RunKeepsInv(cfg, EMPTY, [LimitOrder(1, side, price)]);
    RunOne(cfg, LimitOrder(1, side, price));
    RestsUntouched(cfg, EMPTY, LimitOrder(1, side, price));
    FirstRested(cfg, UnitOrder(1, 1, side, price));
  }

  lemma FirstRested(cfg: Config, o: Order)
    requires cfg.Valid()
    ensures Rested(cfg, EMPTY.(nextId := 2), o) ==
            State(if o.side == Buy then [o] else [], if o.side == Sell then [o] else [], map[o.Key() := o.orderId], 2)
  {
    hide Rank;
  }

  lemma OnlyOrder(cfg: Config, s: State, o: Order)
    requires s.bids == [o] && s.asks == [] && s.index == map[o.Key() := o.orderId] && o.side == Buy
    ensures s.Find(o.Key()) == Some(o) && Resting(s, o)
    ensures forall p | Resting(s, p) :: p == o
  {
  }

  lemma {:induction false} OwnedAtMost(q: seq<Order>, client: u64)
    ensures Owned(q, client) <= |q|
  {
    if q != [] {
      OwnedAtMost(q[1..], client);
    }
  }

  // ---------------------------------------------------------------- a modify crosses the book

  /** A bid below an ask, and a modify that prices the bid like the ask: the book is crossed. */
  lemma ModifyCrosses(cfg: Config, low: u64, high: u64)
    requires cfg.Valid() && cfg.capacity >= 2
    requires PriceToTick(cfg, low).Some? && PriceToTick(cfg, high).Some?
    requires PriceToTick(cfg, low).value < PriceToTick(cfg, high).value
    ensures var cmds := [LimitOrder(1, Buy, low), LimitOrder(2, Sell, high)];
            && Uncrossed(cfg, Run(cfg, EMPTY, cmds))
            && !Uncrossed(cfg, Run(cfg, EMPTY, cmds + [Modify(1, 1, Some(high), None)]))
  {
    var cmds := [LimitOrder(1, Buy, low), LimitOrder(2, Sell, high)];
    BidAndAsk(cfg, low, high);
    var s := Run(cfg, EMPTY, cmds);
    var o := UnitOrder(1, 1, Buy, low);
    RunSnoc(cfg, EMPTY, cmds, Modify(1, 1, Some(high), None));
    assert s.Find((1, 1)) == Some(o) && Resting(s, o);
    TickOfPrice(cfg, o);
    TickOfPrice(cfg, s.asks[0]);
    AmendUncrossed(cfg, s, o, high, 1);
    hide PriceToTick, TickOf, Run, Inv;
    assert s.asks[0] in s.asks;
  }

  lemma BidAndAsk(cfg: Config, low: u64, high: u64)
    requires cfg.Valid() && cfg.capacity >= 2
    requires PriceToTick(cfg, low).Some? && PriceToTick(cfg, high).Some?
    requires PriceToTick(cfg, low).value < PriceToTick(cfg, high).value
    ensures var s := Run(cfg, EMPTY, [LimitOrder(1, Buy, low), LimitOrder(2, Sell, high)]);
            && s == State([UnitOrder(1, 1, Buy, low)], [UnitOrder(2, 2, Sell, high)], map[(1, 1) := 1, (2, 2) := 2], 3)
            && Inv(cfg, s)
  {
    hide PriceToTick, Inv, Step, Run;
    var buy, sell := LimitOrder(1, Buy, low), LimitOrder(2, Sell, high);
    EmptyInv(cfg);
    RunKeepsInv(cfg, EMPTY, [buy, sell]);
    OneOrder(cfg, Buy, low);
    assert [buy] + [sell] == [buy, sell];
    RunSnoc(cfg, EMPTY, [buy], sell);
    AskAbove(cfg, Run(cfg, EMPTY, [buy]), low, high);
  }

  lemma AskAbove(cfg: Config, s: State, low: u64, high: u64)
    requires cfg.Valid() && cfg.capacity >= 2
    requires PriceToTick(cfg, low).Some? && PriceToTick(cfg, high).Some?
    requires PriceToTick(cfg, low).value < PriceToTick(cfg, high).value
    requires s == State([UnitOrder(1, 1, Buy, low)], [], map[(1, 1) := 1], 2)
    ensures Step(cfg, s, LimitOrder(2, Sell, high)).state ==
            State([UnitOrder(1, 1, Buy, low)], [UnitOrder(2, 2, Sell, high)], map[(1, 1) := 1, (2, 2) := 2], 3)
  {
    var sell := LimitOrder(2, Sell, high);
    TickOfPrice(cfg, s.bids[0]);
    hide PriceToTick, TickOf, TickToPrice, Step;
    PriceInTick(cfg, high);
    TicksAscend(cfg, PriceToTick(cfg, low).value, PriceToTick(cfg, high).value);
    OwnedAtMost(s.bids, 2);
    RestsUntouched(cfg, s, sell);
  }

  // ---------------------------------------------------------------- a rejected modify destroys

  /** A modify to a price below the ladder: reported as rejected, and the order is gone. */
  lemma RejectedAndGone(cfg: Config, price: u64, below: u64)
    requires cfg.Valid() && PriceToTick(cfg, price).Some? && below < cfg.basePrice
    ensures var s := Run(cfg, EMPTY, [LimitOrder(1, Buy, price)]);
            var r := Step(cfg, s, Modify(1, 1, Some(below), None));
            && Resting(s, UnitOrder(1, 1, Buy, price))
            && r.events == [ModifyRejected(1, 1)] && r.state.bids == [] && r.state.asks == []
  {
    hide Inv, Run, Step, State.Find, PriceToTick, Resting, Amend;
    OneOrder(cfg, Buy, price);
    var s, o := Run(cfg, EMPTY, [LimitOrder(1, Buy, price)]), UnitOrder(1, 1, Buy, price);
    OnlyOrder(cfg, s, o);
    OnLadder(cfg, price);
    OffLadder(cfg, s, o, below);
    Repriced(cfg, s, o, below);
  }

  lemma OnLadder(cfg: Config, price: u64)
    requires cfg.Valid() && PriceToTick(cfg, price).Some?
    ensures cfg.basePrice <= price
  {
  }

  lemma Repriced(cfg: Config, s: State, o: Order, price: u64)
    requires cfg.Valid() && s.Find(o.Key()) == Some(o)
    ensures Step(cfg, s, Modify(o.clientId, o.clientOrderId, Some(price), None)) ==
            Amend(cfg, s, o, price, o.leavesQty)
  {
    hide Amend, Inv, State.Find;
  }

  lemma OffLadder(cfg: Config, s: State, o: Order, below: u64)
    requires cfg.Valid() && s.bids == [o] && s.asks == [] && o.side == Buy && o.leavesQty == 1
    requires below < cfg.basePrice <= o.price
    ensures var r := Amend(cfg, s, o, below, 1);
            && r.events == [ModifyRejected(o.orderId, o.clientId)] && r.state.bids == [] && r.state.asks == []
  {
    assert PriceToTick(cfg, below).None?;
    hide PriceToTick;
    assert Removed(s, o).bids == [] && Removed(s, o).asks == [];
  }

  // ---------------------------------------------------------------- a re-queue unbalances

  /** A modify that asks for more at the same price: leaves and filled no longer make up the quantity. */
  lemma IncreaseUnbalances(cfg: Config, price: u64, more: u64)
    requires cfg.Valid() && PriceToTick(cfg, price).Some? && more > 1
    ensures var s := Run(cfg, EMPTY, [LimitOrder(1, Buy, price)]);
            AllBalanced(s) && !AllBalanced(Step(cfg, s, Modify(1, 1, None, Some(more))).state)
  {
    hide Inv, Run, State.Find, PriceToTick, Resting, Amend;
    OneOrder(cfg, Buy, price);
    var s, o := Run(cfg, EMPTY, [LimitOrder(1, Buy, price)]), UnitOrder(1, 1, Buy, price);
    OnlyOrder(cfg, s, o);
    assert AllBalanced(s);
    AmendBalance(cfg, s, o, price, more);
  }

  // ---------------------------------------------------------------- a reused id orphans

  /** Two orders under one key: the second takes the name.  One cancel removes the second order, the next
      is rejected, and the first order still rests. */
  lemma ReuseOrphans(cfg: Config, price: u64)
    requires cfg.Valid() && cfg.capacity >= 2 && PriceToTick(cfg, price).Some?
    ensures var cmds := [LimitOrder(1, Buy, price), LimitOrder(1, Buy, price)];
            var s, first := Run(cfg, EMPTY, cmds), UnitOrder(1, 1, Buy, price);
            && Resting(s, first) && Nameless(s, first.orderId) && Inv(cfg, s)
            && var s1 := Step(cfg, s, Cancel(1, 1));
            && s1.events == [OrderCancelled(2, 1, 1)] && Resting(s1.state, first)
            && Step(cfg, s1.state, Cancel(1, 1)).events == [CancelRejected(1, 1)]
  {
    var buy, first := LimitOrder(1, Buy, price), UnitOrder(1, 1, Buy, price);
    OneOrder(cfg, Buy, price);
    EmptyInv(cfg);
    RunKeepsInv(cfg, EMPTY, [buy, buy]);
    assert [buy] + [buy] == [buy, buy];
    RunSnoc(cfg, EMPTY, [buy], buy);
    var s1 := Run(cfg, EMPTY, [buy]);
    SecondUnderKey(cfg, s1, price);
  }

  lemma SecondUnderKey(cfg: Config, s1: State, price: u64)
    requires cfg.Valid() && cfg.capacity >= 2 && PriceToTick(cfg, price).Some?
    requires s1 == State([UnitOrder(1, 1, Buy, price)], [], map[(1, 1) := 1], 2)
    ensures var s, first := Step(cfg, s1, LimitOrder(1, Buy, price)).state, UnitOrder(1, 1, Buy, price);
            && Resting(s, first) && Nameless(s, first.orderId)
            && var s2 := Step(cfg, s, Cancel(1, 1));
            && s2.events == [OrderCancelled(2, 1, 1)] && Resting(s2.state, first)
            && Step(cfg, s2.state, Cancel(1, 1)).events == [CancelRejected(1, 1)]
  {
    var buy, first, second := LimitOrder(1, Buy, price), UnitOrder(1, 1, Buy, price), UnitOrder(2, 1, Buy, price);
    hide PriceToTick;
    OwnedAtMost(s1.bids, 1);
    RestsUntouched(cfg, s1, buy);
    var s := Step(cfg, s1, buy).state;
    SecondInserted(cfg, first, second);
    assert s == State([first, second], [], map[(1, 1) := 2], 3);
    TwoNamedLast(s, first, second);
    assert s.Find((1, 1)) == Some(second);
    assert Removed(s, second).index == map[];
    assert first in Removed(s, second).bids;
  }

  lemma SecondInserted(cfg: Config, first: Order, second: Order)
    requires cfg.Valid() && first.price == second.price && first.side == second.side
    ensures Insert(cfg, [first], second) == [first, second]
  {
    hide PriceToTick;
    assert [first][1..] == [];
    assert InsertionPoint(cfg, [first], second) == 1;
  }

  lemma TwoNamedLast(s: State, first: Order, second: Order)
    requires s.bids == [first, second] && s.asks == [] && first.orderId != second.orderId
    ensures s.Locate(second.orderId) == Some(second) && Without(s.bids, second.orderId) == [first]
  {
    assert [first, second][1..] == [second] && Position([second], second.orderId) == 0;
    assert Position(s.bids, second.orderId) == 1;
  }

  // ---------------------------------------------------------------- a fill takes another order's name

  /** Two sells under one key, the second on a worse tick, and a buy that fills the first: the second still
      rests, but its name is gone with the first, and its cancel is rejected. */
  lemma FillTakesName(cfg: Config, low: u64, high: u64)
    requires cfg.Valid() && cfg.capacity >= 2
    requires PriceToTick(cfg, low).Some? && PriceToTick(cfg, high).Some?
    requires PriceToTick(cfg, low).value < PriceToTick(cfg, high).value
    ensures var cmds := [LimitOrder(1, Sell, low), LimitOrder(1, Sell, high)];
            var s, second := Run(cfg, EMPTY, cmds), UnitOrder(2, 1, Sell, high);
            var s' := Run(cfg, EMPTY, cmds + [LimitOrder(2, Buy, low)]);
            && Inv(cfg, s) && Resting(s, second) && Named(s, second)
            && Resting(s', second) && Nameless(s', second.orderId)
            && Step(cfg, s', Cancel(1, 1)).events == [CancelRejected(1, 1)]
  {
    hide PriceToTick, Inv, Step, Run, Resting, Nameless;
    var sell1, sell2 := LimitOrder(1, Sell, low), LimitOrder(1, Sell, high);
    EmptyInv(cfg);
    RunKeepsInv(cfg, EMPTY, [sell1, sell2]);
    OneOrder(cfg, Sell, low);
    assert [sell1] + [sell2] == [sell1, sell2];
    RunSnoc(cfg, EMPTY, [sell1], sell2);
    RunSnoc(cfg, EMPTY, [sell1, sell2], LimitOrder(2, Buy, low));
    SecondAsk(cfg, Run(cfg, EMPTY, [sell1]), low, high);
    FirstFilled(cfg, Run(cfg, EMPTY, [sell1, sell2]), low, high);
  }

  lemma SecondAsk(cfg: Config, s: State, low: u64, high: u64)
    requires cfg.Valid() && cfg.capacity >= 2
    requires PriceToTick(cfg, low).Some? && PriceToTick(cfg, high).Some?
    requires PriceToTick(cfg, low).value < PriceToTick(cfg, high).value
    requires s == State([], [UnitOrder(1, 1, Sell, low)], map[(1, 1) := 1], 2)
    ensures Step(cfg, s, LimitOrder(1, Sell, high)).state ==
            State([], [UnitOrder(1, 1, Sell, low), UnitOrder(2, 1, Sell, high)], map[(1, 1) := 2], 3)
  {
    var sell, first, second := LimitOrder(1, Sell, high), UnitOrder(1, 1, Sell, low), UnitOrder(2, 1, Sell, high);
    assert Rank(cfg, first) < Rank(cfg, second);
    hide PriceToTick, TickOf, Rank, Step;
    OwnedAtMost(s.asks, 1);
    RestsUntouched(cfg, s, sell);
    assert [first][1..] == [];
    assert InsertionPoint(cfg, [first], second) == 1;
  }

  lemma FirstFilled(cfg: Config, s: State, low: u64, high: u64)
    requires cfg.Valid() && PriceToTick(cfg, low).Some?
    requires s == State([], [UnitOrder(1, 1, Sell, low), UnitOrder(2, 1, Sell, high)], map[(1, 1) := 2], 3)
    ensures var second, s' := UnitOrder(2, 1, Sell, high), Step(cfg, s, LimitOrder(2, Buy, low)).state;
            && Resting(s, second) && Named(s, second)
            && Resting(s', second) && Nameless(s', second.orderId)
            && Step(cfg, s', Cancel(1, 1)).events == [CancelRejected(1, 1)]
  {
    var first, second, buy := UnitOrder(1, 1, Sell, low), UnitOrder(2, 1, Sell, high), LimitOrder(2, Buy, low);
    var a := AggressorOf(buy, s.nextId);
    PriceInTick(cfg, low);
    TickOfPrice(cfg, first);
    assert s.asks[1..] == [second] && second in [second] && second in s.asks;
    hide PriceToTick, TickOf, TickToPrice;
    OwnedAtMost(s.asks, 2);
    assert Crosses(cfg, a, TickOf(cfg, first));
    assert Match(cfg, a, [second], 0) == Sweep([], [], [second], 0);
    assert Match(cfg, a, s.asks, 1) == Sweep([FillOf(a, first, 1)], [first], [second], 0);
    assert first.Key() in KeysOf([first]);
  }

  // ---------------------------------------------------------------- seventeen fills

  function Sells(n: nat, price: u64): seq<Command> {
    seq(n, _ => LimitOrder(1, Sell, price))
  }

  /** A book of unit asks and nothing else. */
  ghost predicate UnitAsks(s: State, n: nat) {
    s.bids == [] && |s.asks| == n && forall o | o in s.asks :: o.leavesQty == 1
  }

  lemma {:induction false} SellsRest(cfg: Config, price: u64, n: nat)
    requires cfg.Valid() && PriceToTick(cfg, price).Some? && n <= cfg.capacity && n <= MAX_OPEN_ORDERS
    ensures Inv(cfg, Run(cfg, EMPTY, Sells(n, price))) && UnitAsks(Run(cfg, EMPTY, Sells(n, price)), n)
  {
    hide PriceToTick, Inv, Step, UnitAsks;
    if n == 0 {
      EmptyInv(cfg);
      assert UnitAsks(EMPTY, 0) by { NoAsks(); }
    } else {
      SellsRest(cfg, price, n - 1);
      var s, sell := Run(cfg, EMPTY, Sells(n - 1, price)), LimitOrder(1, Sell, price);
      assert Sells(n, price) == Sells(n - 1, price) + [sell];
      RunSnoc(cfg, EMPTY, Sells(n - 1, price), sell);
      StepKeepsInv(cfg, s, sell);
      OneMoreAsk(cfg, s, price, n - 1);
    }
  }

  lemma NoAsks()
    ensures UnitAsks(EMPTY, 0)
  {
  }

  lemma OneMoreAsk(cfg: Config, s: State, price: u64, n: nat)
    requires cfg.Valid() && PriceToTick(cfg, price).Some? && n < cfg.capacity && n < MAX_OPEN_ORDERS && UnitAsks(s, n)
    ensures UnitAsks(Step(cfg, s, LimitOrder(1, Sell, price)).state, n + 1)
  {
    hide PriceToTick, TickOf, Crosses, Step, Insert;
    var sell := LimitOrder(1, Sell, price);
    OwnedAtMost(s.asks, 1);
    RestsUntouched(cfg, s, sell);
    InsertMembers(cfg, s.asks, Residual(AggressorOf(sell, s.nextId), 1, price, 1, 1));
  }

  lemma InsertMembers(cfg: Config, q: seq<Order>, o: Order)
    requires cfg.Valid()
    ensures |Insert(cfg, q, o)| == |q| + 1 && forall p | p in Insert(cfg, q, o) :: p in q || p == o
  {
    hide InsertionPoint;
  }

  lemma {:induction false} UnitLeaves(q: seq<Order>)
    requires forall o | o in q :: o.leavesQty == 1
    ensures Leaves(q) == |q|
  {
    if q != [] {
      UnitLeaves(q[1..]);
    }
  }

  /** Seventeen resting orders of one unit, swept by one market order: seventeen fills, and the buffer
      keeps sixteen. */
  lemma SeventeenthFillLost(cfg: Config, price: u64)
    requires cfg.Valid() && PriceToTick(cfg, price).Some? && cfg.capacity >= 17
    ensures var s := Run(cfg, EMPTY, Sells(17, price));
            var events := Step(cfg, s, Place(2, 2, [0, 0, 0, 0, 0, 0, 0, 0], Buy, Market, None, 17, Gtc)).events;
            |events| == 17 && |Kept(events)| == 16
  {
    SellsRest(cfg, price, 17);
    var s := Run(cfg, EMPTY, Sells(17, price));
    var buy := Place(2, 2, [0, 0, 0, 0, 0, 0, 0, 0], Buy, Market, None, 17, Gtc);
    var a := AggressorOf(buy, s.nextId);
    OwnedAtMost(s.asks, 2);
    EventCount(cfg, s, buy);
    QueueOk(cfg, s, Sell);
    UnitLeaves(s.asks[..16]);
    SweepReaches(cfg, a, s.asks, s.nextId, 17, 16);
    SweepReaches(cfg, a, s.asks, s.nextId, 17, 17);
    PositiveLeaves(cfg, s.asks, Sell, s.nextId);
    var k, part := SweepIsGreedy(cfg, a, s.asks, 17);
    UnitLeaves(s.asks[..k]);
    hide Run, Step, Inv, Match, SideOk, Leaves;
  }
}
