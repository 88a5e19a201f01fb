/**
  A place in one piece: whether it reaches matching, what its sweep leaves behind, and whether what is
  left of it comes to rest.
 */
module PlaceLaws {
  import opened Types
  import opened Exchange
  import opened ExchangeInvariant
  import opened SweepLaws
  import opened CrossingLaws
  import opened EventLaws

  /** The place is a limit order that reaches matching and comes to rest; this can be told from the state
      before it. */
  ghost predicate PlaceRests(cfg: Config, s: State, cmd: Command)
    requires cfg.Valid()
  {
    && cmd.Place? && cmd.orderType == Limit && cmd.price.Some?
    && Matches(cfg, s, cmd) && Rests(cfg, s, AggressorOf(cmd, s.nextId), cmd.quantity)
  }

  function PlaceSweep(cfg: Config, s: State, cmd: Command): Sweep
    requires cfg.Valid() && cmd.Place?
  {
    Match(cfg, AggressorOf(cmd, s.nextId), s.Queue(Opposite(cmd.side)), cmd.quantity)
  }

  function AfterSweep(cfg: Config, s: State, cmd: Command): State
    requires cfg.Valid() && cmd.Place?
  {
    Swept(s.(nextId := s.nextId + 1), AggressorOf(cmd, s.nextId), PlaceSweep(cfg, s, cmd))
  }

  function PlaceResidual(cfg: Config, s: State, cmd: Command): Order
    requires cfg.Valid() && cmd.Place? && cmd.price.Some?
  {
    Residual(AggressorOf(cmd, s.nextId), cmd.clientOrderId, cmd.price.value, cmd.quantity, PlaceSweep(cfg, s, cmd).left)
  }

  /** A place that does not reach matching leaves queues and index alone; any other leaves the state after
      its sweep, with its residual added exactly when it rests. */
  lemma PlaceShape(cfg: Config, s: State, cmd: Command)
    requires cfg.Valid() && Inv(cfg, s) && cmd.Place?
    ensures var s' := PlaceOrder(cfg, s, cmd).state;
            && s.nextId <= s'.nextId <= s.nextId + 1
            && (!Matches(cfg, s, cmd) ==> s'.bids == s.bids && s'.asks == s.asks && s'.index == s.index)
            && (Matches(cfg, s, cmd) && !PlaceRests(cfg, s, cmd) ==> s' == AfterSweep(cfg, s, cmd))
            && (PlaceRests(cfg, s, cmd) ==>
                  s' == Rested(cfg, AfterSweep(cfg, s, cmd), PlaceResidual(cfg, s, cmd)))
  {
    hide Inv, State.OpenOrders, Match, Swept, PriceToTick, Rested, Rests, State.Live;
    var s0 := s.(nextId := s.nextId + 1);
    assert s0.Queue(Opposite(cmd.side)) == s.Queue(Opposite(cmd.side));
    NextIdRests(cfg, s, AggressorOf(cmd, s.nextId), cmd.quantity);
    NextIdKeepsInv(cfg, s);
    SweptId(s0, AggressorOf(cmd, s.nextId), PlaceSweep(cfg, s, cmd));
    if Matches(cfg, s, cmd) {
      RestsIff(cfg, s0, AggressorOf(cmd, s.nextId), cmd.quantity);
      if cmd.price.Some? {
        RestedId(cfg, AfterSweep(cfg, s, cmd), PlaceResidual(cfg, s, cmd));
      }
    }
  }

  lemma RestedId(cfg: Config, s: State, o: Order)
    requires cfg.Valid()
    ensures Rested(cfg, s, o).nextId == s.nextId
  {
    hide Insert;
  }

  lemma NextIdRests(cfg: Config, s: State, a: Aggressor, quantity: nat)
    requires cfg.Valid()
    ensures Rests(cfg, s.(nextId := s.nextId + 1), a, quantity) == Rests(cfg, s, a, quantity)
  {
    hide CrossingLeaves;
  }

  lemma SweptId(s: State, a: Aggressor, sweep: Sweep)
    ensures Swept(s, a, sweep).nextId == s.nextId
  {
  }

  /** What is said of the state before the sweep is so after it: something is left, and there is room. */
  lemma RestsIff(cfg: Config, s: State, a: Aggressor, quantity: nat)
    requires cfg.Valid() && Inv(cfg, s)
    ensures var sweep := Match(cfg, a, s.Queue(Opposite(a.side)), quantity);
            Rests(cfg, s, a, quantity) <==> sweep.left > 0 && Swept(s, a, sweep).Live() < cfg.capacity
  {
    hide Inv, Match, Swept, CrossingLeaves, State.Live;
    var q := s.Queue(Opposite(a.side));
    QueueOk(cfg, s, Opposite(a.side));
    SweepTakesAll(cfg, a, q, quantity, s.nextId);
    if CrossingLeaves(cfg, a, q) < quantity {
      var k := SweepLeavesOver(cfg, s, a, quantity);
      LiveWithin(cfg, s);
    }
  }

  /** The residual that comes to rest is new to the book after the sweep. */
  lemma ResidualFresh(cfg: Config, s: State, cmd: Command)
    requires cfg.Valid() && Inv(cfg, s) && PlaceRests(cfg, s, cmd)
    ensures Inv(cfg, AfterSweep(cfg, s, cmd))
    ensures Fresh(cfg, AfterSweep(cfg, s, cmd), PlaceResidual(cfg, s, cmd))
  {
    hide Inv, State.OpenOrders, Match, Swept, PriceToTick, Rests, State.Live, Resting, Fresh;
    var s0, a := s.(nextId := s.nextId + 1), AggressorOf(cmd, s.nextId);
    assert s0.Queue(Opposite(cmd.side)) == s.Queue(Opposite(cmd.side));
    NextIdKeepsInv(cfg, s);
    NextIdPositive(cfg, s);
    NextIdRests(cfg, s, a, cmd.quantity);
    RestsIff(cfg, s0, a, cmd.quantity);
    SweepKeepsInv(cfg, s0, a, cmd.quantity);
    SweptId(s0, a, PlaceSweep(cfg, s, cmd));
    FreshAfterSweep(cfg, s0, AfterSweep(cfg, s, cmd), PlaceResidual(cfg, s, cmd));
  }

  ghost predicate Accepts(events: seq<OutputEvent>, id: nat) {
    exists i :: 0 <= i < |events| && events[i].OrderAccepted? && events[i].orderId == id
  }

  /** A place comes to rest exactly when it is reported as accepted. */
  lemma AcceptedIffRests(cfg: Config, s: State, cmd: Command)
    requires cfg.Valid() && Inv(cfg, s) && cmd.Place?
    ensures Accepts(PlaceOrder(cfg, s, cmd).events, s.nextId) <==> PlaceRests(cfg, s, cmd)
  {
    hide Inv, State.OpenOrders, Match, Swept, PriceToTick, Rested, Rests, State.Live;
    var s0, a := s.(nextId := s.nextId + 1), AggressorOf(cmd, s.nextId);
    assert s0.Queue(Opposite(cmd.side)) == s.Queue(Opposite(cmd.side));
    NextIdRests(cfg, s, a, cmd.quantity);
    NextIdKeepsInv(cfg, s);
    var events := PlaceOrder(cfg, s, cmd).events;
    if Matches(cfg, s, cmd) {
      RestsIff(cfg, s0, a, cmd.quantity);
      var fills := PlaceSweep(cfg, s, cmd).events;
      OnlyFills(cfg, a, s.Queue(Opposite(cmd.side)), cmd.quantity);
      assert forall i | 0 <= i < |fills| :: events[i] == fills[i];
      assert PlaceRests(cfg, s, cmd) ==> events[|fills|].OrderAccepted? && events[|fills|].orderId == s.nextId;
    }
  }

  lemma OnlyFills(cfg: Config, a: Aggressor, q: seq<Order>, qty: nat)
    requires cfg.Valid()
    ensures var events := Match(cfg, a, q, qty).events; forall i | 0 <= i < |events| :: events[i].Fill?
  {
    hide Match;
    forall i | 0 <= i < |Match(cfg, a, q, qty).events|
      ensures Match(cfg, a, q, qty).events[i].Fill?
    {
      FillsCross(cfg, a, q, qty, i);
    }
  }
}
