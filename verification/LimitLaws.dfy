/**
  When a buyer pays more than the limit.  A sell never trades below its limit
  (`SweepLaws.LimitProtection`); a buy trades above it exactly where an ask off its tick is reached.
 */
module LimitLaws {
  import opened Types
  import opened Exchange
  import opened ExchangeInvariant
  import opened SweepLaws
  import opened CrossingLaws
  import opened EventLaws

  /** The event is a fill above the limit. */
  predicate FillAbove(event: OutputEvent, limit: u64) {
    event.Fill? && event.price > limit
  }

  ghost predicate SomeAbove(events: seq<OutputEvent>, limit: u64) {
    exists i :: 0 <= i < |events| && FillAbove(events[i], limit)
  }

  /** Ask `i` is dearer than the limit, crosses all the same, and those ahead of it are not enough. */
  ghost predicate DearReached(cfg: Config, a: Aggressor, q: seq<Order>, limit: u64, qty: nat, i: nat)
    requires cfg.Valid()
  {
    i < |q| && q[i].price > limit && Crosses(cfg, a, TickOf(cfg, q[i])) && Leaves(q[..i]) < qty
  }

  /** The `i`-th fill of a sweep is at the price of the `i`-th order. */
  lemma FillPrice(cfg: Config, a: Aggressor, q: seq<Order>, qty: nat, i: nat)
    requires cfg.Valid() && i < |Match(cfg, a, q, qty).events|
    ensures i < |q| && Match(cfg, a, q, qty).events[i].Fill? && Match(cfg, a, q, qty).events[i].price == q[i].price
  {
    FillsCross(cfg, a, q, qty, i);
    hide Match, Crosses, TickOf;
  }

  /** A buy trades above its limit exactly when it reaches an ask that is dearer than the limit. */
  lemma SweepAboveLimit(cfg: Config, s: State, a: Aggressor, limit: u64, qty: nat)
    requires cfg.Valid() && Inv(cfg, s) && a.side == Buy
    ensures SomeAbove(Match(cfg, a, s.asks, qty).events, limit) <==>
            exists i: nat :: DearReached(cfg, a, s.asks, limit, qty, i)
  {
    QueueOk(cfg, s, Sell);
    hide Match, Crosses, TickOf, Leaves, SideOk, Inv;
    var events := Match(cfg, a, s.asks, qty).events;
    forall i: nat
      ensures i < |events| && FillAbove(events[i], limit) <==> DearReached(cfg, a, s.asks, limit, qty, i)
    {
      SweepReaches(cfg, a, s.asks, s.nextId, qty, i);
      if i < |events| {
        FillPrice(cfg, a, s.asks, qty, i);
      }
    }
    if i: nat :| DearReached(cfg, a, s.asks, limit, qty, i) {
      assert i < |events| && FillAbove(events[i], limit);
    }
  }

  /** A buy limit order of any limit and quantity stays within its limit. */
  ghost predicate Protected(cfg: Config, s: State, a: Aggressor, limit: u64, qty: nat)
    requires cfg.Valid()
  {
    !SomeAbove(Match(cfg, a.(limit := Some(limit)), s.asks, qty).events, limit)
  }

  /** Alignment of the resting asks is exactly what protects buyers: no buy can trade above its limit if
      and only if every ask in the book is priced on its tick. */
  lemma BuyProtectedIffAligned(cfg: Config, s: State, a: Aggressor)
    requires cfg.Valid() && Inv(cfg, s) && a.side == Buy
    ensures (forall o | o in s.asks :: Aligned(cfg, o.price)) <==>
            (forall limit: u64, qty: nat :: Protected(cfg, s, a, limit, qty))
  {
    hide Inv, Aligned, Protected;
    if forall o | o in s.asks :: Aligned(cfg, o.price) {
      forall limit: u64, qty: nat
        ensures Protected(cfg, s, a, limit, qty)
      {
        AlignedProtects(cfg, s, a, limit, qty);
      }
    }
    if o :| o in s.asks && !Aligned(cfg, o.price) {
      var limit: u64, qty := UnalignedExposes(cfg, s, a, o);
    }
  }

  /** Ask `i` is within reach of a command: the quantity ahead of it is less than the most a command can
      carry. */
  ghost predicate WithinReach(q: seq<Order>, i: nat) {
    i < |q| && Leaves(q[..i]) < MAX_QUANTITY
  }

  ghost predicate AlignedIfReached(cfg: Config, q: seq<Order>, i: nat)
    requires cfg.Valid()
  {
    WithinReach(q, i) ==> Aligned(cfg, q[i].price)
  }

  const MAX_QUANTITY: u64 := 0xFFFF_FFFF_FFFF_FFFF

  /** The same for the quantities a command can carry: no buy command can trade above its limit if and
      only if every ask within reach of one is priced on its tick. */
  lemma BuyCommandsProtectedIff(cfg: Config, s: State, a: Aggressor)
    requires cfg.Valid() && Inv(cfg, s) && a.side == Buy
    ensures (forall i: nat :: AlignedIfReached(cfg, s.asks, i)) <==>
            (forall limit: u64, qty: u64 :: Protected(cfg, s, a, limit, qty))
  {
    hide Inv, Protected, AlignedIfReached;
    if forall i: nat :: AlignedIfReached(cfg, s.asks, i) {
      forall limit: u64, qty: u64
        ensures Protected(cfg, s, a, limit, qty)
      {
        AlignedWithinReach(cfg, s, a, limit, qty);
      }
    }
    if i: nat :| !AlignedIfReached(cfg, s.asks, i) {
      var limit := UnalignedWithinReach(cfg, s, a, i);
    }
  }

  lemma AlignedWithinReach(cfg: Config, s: State, a: Aggressor, limit: u64, qty: u64)
    requires cfg.Valid() && Inv(cfg, s) && a.side == Buy
    requires forall i: nat :: AlignedIfReached(cfg, s.asks, i)
    ensures Protected(cfg, s, a, limit, qty)
  {
    var b := a.(limit := Some(limit));
    SweepAboveLimit(cfg, s, b, limit, qty);
    hide Match, Leaves, Inv, PriceToTick, TickOf, SomeAbove;
    forall i: nat
      ensures !DearReached(cfg, b, s.asks, limit, qty, i)
    {
      if WithinReach(s.asks, i) {
        assert AlignedIfReached(cfg, s.asks, i);
        AskOnLadder(cfg, s, s.asks[i]);
      }
    }
  }

  lemma UnalignedWithinReach(cfg: Config, s: State, a: Aggressor, i: nat) returns (limit: u64)
    requires cfg.Valid() && Inv(cfg, s) && a.side == Buy && !AlignedIfReached(cfg, s.asks, i)
    ensures !Protected(cfg, s, a, limit, MAX_QUANTITY)
  {
    hide Match, Leaves, Inv, PriceToTick, TickOf, SomeAbove;
    AskOnLadder(cfg, s, s.asks[i]);
    PriceInTick(cfg, s.asks[i].price);
    limit := TickToPrice(cfg, TickOf(cfg, s.asks[i]));
    var b := a.(limit := Some(limit));
    SweepAboveLimit(cfg, s, b, limit, MAX_QUANTITY);
    assert DearReached(cfg, b, s.asks, limit, MAX_QUANTITY, i);
  }

  lemma AskOnLadder(cfg: Config, s: State, o: Order)
    requires cfg.Valid() && Inv(cfg, s) && o in s.asks
    ensures PriceToTick(cfg, o.price).Some? && TickOf(cfg, o) == PriceToTick(cfg, o.price).value
  {
    hide Rank, PriceToTick;
  }

  lemma AlignedProtects(cfg: Config, s: State, a: Aggressor, limit: u64, qty: nat)
    requires cfg.Valid() && Inv(cfg, s) && a.side == Buy && forall o | o in s.asks :: Aligned(cfg, o.price)
    ensures Protected(cfg, s, a, limit, qty)
  {
    var b := a.(limit := Some(limit));
    SweepAboveLimit(cfg, s, b, limit, qty);
    hide Match, Leaves, Inv, PriceToTick, TickOf, SomeAbove;
    forall i: nat
      ensures !DearReached(cfg, b, s.asks, limit, qty, i)
    {
      if i < |s.asks| {
        AskOnLadder(cfg, s, s.asks[i]);
      }
    }
  }

  /** An ask between two ticks can be bought above a limit: that of its tick's own price. */
  lemma UnalignedExposes(cfg: Config, s: State, a: Aggressor, o: Order) returns (limit: u64, qty: nat)
    requires cfg.Valid() && Inv(cfg, s) && a.side == Buy && o in s.asks && !Aligned(cfg, o.price)
    ensures !Protected(cfg, s, a, limit, qty)
  {
    AskOnLadder(cfg, s, o);
    PriceInTick(cfg, o.price);
    hide Match, Leaves, Inv, PriceToTick, TickOf, SomeAbove;
    limit := TickToPrice(cfg, TickOf(cfg, o));
    var j: nat :| j < |s.asks| && s.asks[j] == o;
    qty := Leaves(s.asks[..j]) + 1;
    var b := a.(limit := Some(limit));
    SweepAboveLimit(cfg, s, b, limit, qty);
    assert DearReached(cfg, b, s.asks, limit, qty, j);
  }

  /** A buy command trades above its limit exactly when it reaches matching and then such an ask. */
  lemma BuyAboveLimitIff(cfg: Config, s: State, cmd: Command)
    requires cfg.Valid() && Inv(cfg, s) && cmd.Place? && cmd.side == Buy && cmd.orderType == Limit && cmd.price.Some?
    ensures SomeAbove(Step(cfg, s, cmd).events, cmd.price.value) <==>
            && Matches(cfg, s, cmd)
            && exists i: nat :: DearReached(cfg, AggressorOf(cmd, s.nextId), s.asks, cmd.price.value, cmd.quantity, i)
  {
    var a := AggressorOf(cmd, s.nextId);
    SweepAboveLimit(cfg, s, a, cmd.price.value, cmd.quantity);
    PlaceFills(cfg, s, cmd);
    hide Inv, Step, Match, DearReached, Matches;
    var events := Step(cfg, s, cmd).events;
    if Matches(cfg, s, cmd) {
      var fills := Match(cfg, a, s.asks, cmd.quantity).events;
      assert forall i | 0 <= i < |fills| :: events[i] == fills[i];
      if SomeAbove(fills, cmd.price.value) {
        var i :| 0 <= i < |fills| && FillAbove(fills[i], cmd.price.value);
        assert FillAbove(events[i], cmd.price.value);
      }
    }
  }

  /** The events of a place: its fills, and at most one event that is not a fill. */
  lemma PlaceFills(cfg: Config, s: State, cmd: Command)
    requires cfg.Valid() && cmd.Place?
    ensures var events := Step(cfg, s, cmd).events;
            if Matches(cfg, s, cmd) then
              var a := AggressorOf(cmd, s.nextId);
              var fills := Match(cfg, a, s.Queue(Opposite(a.side)), cmd.quantity).events;
              && |fills| <= |events| <= |fills| + 1 && fills == events[..|fills|]
              && (|events| == |fills| + 1 ==> !events[|fills|].Fill?)
            else
              |events| == 1 && !events[0].Fill?
  {
    hide Match, Swept, State.OpenOrders, PriceToTick, Rested;
    if Matches(cfg, s, cmd) {
      assert (s.(nextId := s.nextId + 1)).Queue(Opposite(cmd.side)) == s.Queue(Opposite(cmd.side));
    }
  }

  // ---------------------------------------------------------------- a run that shows it

  /** For every ask price between two ticks: from the empty book, an ask at that price and then a buy
      limited to the tick below trade at the ask's price. */
  lemma UnalignedBuyAboveLimit(cfg: Config, price: u64, below: u64)
    requires cfg.Valid()
    requires PriceToTick(cfg, price).Some? && below == TickToPrice(cfg, PriceToTick(cfg, price).value) && below != price
    ensures var s := Run(cfg, EMPTY, [LimitOrder(1, Sell, price)]);
            SomeAbove(Step(cfg, s, LimitOrder(2, Buy, below)).events, below) && below < price
  {
    var t := PriceToTick(cfg, price).value;
    PriceInTick(cfg, price);
    TickPriceIsAligned(cfg, t);
    var sell, buy := LimitOrder(1, Sell, price), LimitOrder(2, Buy, below);
    EmptyInv(cfg);
    RunOne(cfg, sell);
    RunKeepsInv(cfg, EMPTY, [sell]);
    hide PriceToTick, TickToPrice, Step, Inv, SomeAbove, Run;
    RestsUntouched(cfg, EMPTY, sell);
    var s := Run(cfg, EMPTY, [sell]);
    assert |s.asks| == 1 && s.bids == [] && s.asks[0].price == price && TickOf(cfg, s.asks[0]) == t;
    assert s.asks[..0] == [];
    BuyAboveLimitIff(cfg, s, buy);
    assert DearReached(cfg, AggressorOf(buy, s.nextId), s.asks, below, 1, 0);
  }
}
