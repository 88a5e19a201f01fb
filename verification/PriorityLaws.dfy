/**
  Price-time priority over whole runs.  Time is told by a stamp: the number of the command by which an
  order last joined a queue.  Within a tick the queue is in the order of stamps, so that a sweep trades
  with an order only after it has completely filled all that have a better tick, or the same tick and
  were there before.
 */
module PriorityLaws {
  import opened Types
  import opened Exchange
  import opened ExchangeInvariant
  import opened SweepLaws
  import opened CrossingLaws
  import opened EventLaws
  import opened LimitLaws
  import opened BookLaws
  import opened PlaceLaws

  // ---------------------------------------------------------------- stamps

  /** The order that joins a queue by this command: a place that rests, or a modify that re-queues. */
  ghost function Joins(cfg: Config, s: State, cmd: Command): Option<nat>
    requires cfg.Valid()
  {
    match cmd
    case Place(_, _, _, _, _, _, _, _) => if PlaceRests(cfg, s, cmd) then Some(s.nextId) else None
    case Cancel(_, _) => None
    case Modify(clientId, clientOrderId, newPrice, newQty) =>
      match s.Find((clientId, clientOrderId))
      case None => None
      case Some(o) =>
        if Requeues(cfg, o, OrElse(newPrice, o.price), OrElse(newQty, o.leavesQty)) then Some(o.orderId) else None
  }

  /** The stamps after a command that is the `now`-th. */
  ghost function Stamp(cfg: Config, s: State, cmd: Command, stamps: map<nat, nat>, now: nat): map<nat, nat>
    requires cfg.Valid()
  {
    match Joins(cfg, s, cmd)
    case None => stamps
    case Some(id) => stamps[id := now]
  }

  ghost function RunStamps(cfg: Config, s: State, cmds: seq<Command>, stamps: map<nat, nat>, now: nat): map<nat, nat>
    requires cfg.Valid()
    decreases |cmds|
  {
    if cmds == [] then stamps
    else RunStamps(cfg, Step(cfg, s, cmds[0]).state, cmds[1..], Stamp(cfg, s, cmds[0], stamps, now), now + 1)
  }

  ghost predicate Stamped(stamps: map<nat, nat>, now: nat, id: nat) {
    id in stamps && stamps[id] < now
  }

  /** Every order of the queue has a stamp from before `now`; those of one rank are in the order of
      their stamps. */
  ghost predicate Fifo(cfg: Config, q: seq<Order>, stamps: map<nat, nat>, now: nat)
    requires cfg.Valid()
  {
    && (forall i | 0 <= i < |q| :: Stamped(stamps, now, q[i].orderId))
    && (forall i, j | 0 <= i < j < |q| && Rank(cfg, q[i]) == Rank(cfg, q[j]) ::
          stamps[q[i].orderId] < stamps[q[j].orderId])
  }

  ghost predicate BookFifo(cfg: Config, s: State, stamps: map<nat, nat>, now: nat)
    requires cfg.Valid()
  {
    Fifo(cfg, s.bids, stamps, now) && Fifo(cfg, s.asks, stamps, now)
  }

  // ---------------------------------------------------------------- one queue

  lemma CutFifo(cfg: Config, q: seq<Order>, stamps: map<nat, nat>, now: nat, k: nat)
    requires cfg.Valid() && Fifo(cfg, q, stamps, now) && k < |q|
    ensures Fifo(cfg, q[..k] + q[k + 1..], stamps, now)
  {
    hide Rank;
    var q' := q[..k] + q[k + 1..];
    assert forall i | 0 <= i < |q'| :: q'[i] == if i < k then q[i] else q[i + 1];
  }

  lemma UpdateFifo(cfg: Config, q: seq<Order>, stamps: map<nat, nat>, now: nat, k: nat, o': Order)
    requires cfg.Valid() && Fifo(cfg, q, stamps, now) && k < |q|
    requires o'.orderId == q[k].orderId && Rank(cfg, o') == Rank(cfg, q[k])
    ensures Fifo(cfg, q[k := o'], stamps, now)
  {
    hide Rank;
  }

  /** Time goes on, and an order that is not in this queue may get a stamp. */
  lemma LaterFifo(cfg: Config, q: seq<Order>, stamps: map<nat, nat>, now: nat, id: nat)
    requires cfg.Valid() && Fifo(cfg, q, stamps, now) && forall p | p in q :: p.orderId != id
    ensures Fifo(cfg, q, stamps[id := now], now + 1)
  {
    hide Rank;
    assert forall i | 0 <= i < |q| :: q[i] in q;
  }

  lemma TimePasses(cfg: Config, q: seq<Order>, stamps: map<nat, nat>, now: nat)
    requires cfg.Valid() && Fifo(cfg, q, stamps, now)
    ensures Fifo(cfg, q, stamps, now + 1)
  {
    hide Rank;
  }

  /** A newcomer with the latest stamp goes behind all of its rank. */
  lemma InsertFifo(cfg: Config, q: seq<Order>, side: Side, nextId: nat, stamps: map<nat, nat>, now: nat, o: Order)
    requires cfg.Valid() && SideOk(cfg, q, side, nextId) && Fifo(cfg, q, stamps, now)
    requires forall p | p in q :: p.orderId != o.orderId
    ensures Fifo(cfg, Insert(cfg, q, o), stamps[o.orderId := now], now + 1)
  {
    hide Rank, PriceToTick;
    LaterFifo(cfg, q, stamps, now, o.orderId);
    var k := InsertedAt(cfg, q, side, nextId, o);
    SpliceFifo(cfg, q, Insert(cfg, q, o), stamps[o.orderId := now], now, k);
  }

  lemma SpliceFifo(cfg: Config, q: seq<Order>, q': seq<Order>, stamps: map<nat, nat>, now: nat, k: nat)
    requires cfg.Valid() && k < |q'| && q'[..k] + q'[k + 1..] == q && Fifo(cfg, q, stamps, now + 1)
    requires q'[k].orderId in stamps && stamps[q'[k].orderId] == now
    requires forall i | 0 <= i < |q| :: stamps[q[i].orderId] < now
    requires forall i | k < i < |q'| :: Rank(cfg, q'[k]) < Rank(cfg, q'[i])
    ensures Fifo(cfg, q', stamps, now + 1)
  {
    hide Rank;
    assert forall i | 0 <= i < k :: q'[i] == q[i];
    assert forall i | k < i < |q'| :: q'[i] == q[i - 1];
  }

  lemma {:induction false} MatchFifo(cfg: Config, a: Aggressor, q: seq<Order>, qty: nat, stamps: map<nat, nat>,
                                     now: nat)
    requires cfg.Valid() && Fifo(cfg, q, stamps, now)
    ensures Fifo(cfg, Match(cfg, a, q, qty).rest, stamps, now)
    decreases |q|
  {
    hide Fifo, Crosses, TickOf, Rank, FillOf;
    if qty > 0 && q != [] && Crosses(cfg, a, TickOf(cfg, q[0])) {
      if qty < q[0].leavesQty {
        SameRank(cfg, q[0], q[0].Reduced(qty));
        UpdateFifo(cfg, q, stamps, now, 0, q[0].Reduced(qty));
        assert q[0 := q[0].Reduced(qty)] == [q[0].Reduced(qty)] + q[1..];
      } else {
        CutFifo(cfg, q, stamps, now, 0);
        assert q[..0] + q[1..] == q[1..];
        MatchFifo(cfg, a, q[1..], qty - q[0].leavesQty, stamps, now);
      }
    }
  }

  lemma WithoutFifo(cfg: Config, q: seq<Order>, stamps: map<nat, nat>, now: nat, id: nat)
    requires cfg.Valid() && Fifo(cfg, q, stamps, now)
    ensures Fifo(cfg, Without(q, id), stamps, now)
  {
    hide Fifo;
    if Position(q, id) < |q| {
      CutFifo(cfg, q, stamps, now, Position(q, id));
    }
  }

  lemma ReplacedFifo(cfg: Config, q: seq<Order>, side: Side, nextId: nat, stamps: map<nat, nat>, now: nat,
                     o: Order, o': Order)
    requires cfg.Valid() && SideOk(cfg, q, side, nextId) && Fifo(cfg, q, stamps, now)
    requires o in q && SameButQuantities(o, o')
    ensures Fifo(cfg, Replaced(q, o'), stamps, now)
  {
    var k :| 0 <= k < |q| && q[k] == o;
    SameRank(cfg, o, o');
    hide Fifo, Rank, PriceToTick;
    PositionOf(q, k);
    UpdateFifo(cfg, q, stamps, now, k, o');
  }

  lemma SameRank(cfg: Config, o: Order, o': Order)
    requires cfg.Valid() && SameButQuantities(o, o')
    ensures Rank(cfg, o') == Rank(cfg, o) && o'.orderId == o.orderId && o'.side == o.side
  {
  }

  // ---------------------------------------------------------------- the whole book

  lemma BookTimePasses(cfg: Config, s: State, s': State, stamps: map<nat, nat>, now: nat)
    requires cfg.Valid() && BookFifo(cfg, s, stamps, now) && s'.bids == s.bids && s'.asks == s.asks
    ensures BookFifo(cfg, s', stamps, now + 1)
  {
    hide Fifo;
    TimePasses(cfg, s.bids, stamps, now);
    TimePasses(cfg, s.asks, stamps, now);
  }

  lemma SweptFifo(cfg: Config, s: State, a: Aggressor, qty: nat, stamps: map<nat, nat>, now: nat)
    requires cfg.Valid() && BookFifo(cfg, s, stamps, now)
    ensures BookFifo(cfg, Swept(s, a, Match(cfg, a, s.Queue(Opposite(a.side)), qty)), stamps, now)
  {
    hide Fifo, Match;
    MatchFifo(cfg, a, s.Queue(Opposite(a.side)), qty, stamps, now);
  }

  lemma RemovedFifo(cfg: Config, s: State, o: Order, stamps: map<nat, nat>, now: nat)
    requires cfg.Valid() && BookFifo(cfg, s, stamps, now)
    ensures BookFifo(cfg, Removed(s, o), stamps, now)
  {
    hide Fifo, Without;
    WithoutFifo(cfg, s.Queue(o.side), stamps, now, o.orderId);
  }

  lemma WithOrderFifo(cfg: Config, s: State, o: Order, o': Order, stamps: map<nat, nat>, now: nat)
    requires cfg.Valid() && Inv(cfg, s) && BookFifo(cfg, s, stamps, now) && Resting(s, o) && SameButQuantities(o, o')
    ensures BookFifo(cfg, WithOrder(s, o'), stamps, now)
  {
    QueueOk(cfg, s, o.side);
    hide Fifo, Replaced, Inv, SideOk;
    ReplacedFifo(cfg, s.Queue(o.side), o.side, s.nextId, stamps, now, o, o');
  }

  lemma RestedFifo(cfg: Config, s: State, o: Order, stamps: map<nat, nat>, now: nat)
    requires cfg.Valid() && Inv(cfg, s) && BookFifo(cfg, s, stamps, now) && Fresh(cfg, s, o)
    ensures BookFifo(cfg, Rested(cfg, s, o), stamps[o.orderId := now], now + 1)
  {
    QueueOk(cfg, s, o.side);
    RestingSides(cfg, s);
    FreshIds(cfg, s, o);
    hide Fifo, Insert, Inv, SideOk, Resting, Fresh;
    LaterFifo(cfg, s.Queue(Opposite(o.side)), stamps, now, o.orderId);
    InsertFifo(cfg, s.Queue(o.side), o.side, s.nextId, stamps, now, o);
  }

  lemma PlaceFifo(cfg: Config, s: State, cmd: Command, stamps: map<nat, nat>, now: nat)
    requires cfg.Valid() && Inv(cfg, s) && BookFifo(cfg, s, stamps, now) && cmd.Place?
    ensures BookFifo(cfg, PlaceOrder(cfg, s, cmd).state, Stamp(cfg, s, cmd, stamps, now), now + 1)
  {
    hide Inv, Fifo, PlaceOrder, Matches, Rests, Rested, Match, Swept, Fresh;
    PlaceShape(cfg, s, cmd);
    var s0, a := s.(nextId := s.nextId + 1), AggressorOf(cmd, s.nextId);
    assert s0.Queue(Opposite(cmd.side)) == s.Queue(Opposite(cmd.side));
    SweptFifo(cfg, s0, a, cmd.quantity, stamps, now);
    if PlaceRests(cfg, s, cmd) {
      ResidualFresh(cfg, s, cmd);
      RestedFifo(cfg, AfterSweep(cfg, s, cmd), PlaceResidual(cfg, s, cmd), stamps, now);
    } else if Matches(cfg, s, cmd) {
      BookTimePasses(cfg, AfterSweep(cfg, s, cmd), AfterSweep(cfg, s, cmd), stamps, now);
    } else {
      BookTimePasses(cfg, s, PlaceOrder(cfg, s, cmd).state, stamps, now);
    }
  }

  lemma AmendFifo(cfg: Config, s: State, o: Order, price: u64, leaves: nat, stamps: map<nat, nat>, now: nat)
    requires cfg.Valid() && Inv(cfg, s) && BookFifo(cfg, s, stamps, now) && Resting(s, o)
    ensures BookFifo(cfg, Amend(cfg, s, o, price, leaves).state,
                     if Requeues(cfg, o, price, leaves) then stamps[o.orderId := now] else stamps, now + 1)
  {
    hide Inv, BookFifo, Resting, Removed, Rested, WithOrder, PriceToTick, Fresh;
    if leaves > 0 {
      if price == o.price && leaves <= o.leavesQty {
        ReductionFifo(cfg, s, o, leaves, stamps, now);
      } else if PriceToTick(cfg, price).Some? {
        RequeueFifo(cfg, s, o, Requeued(o, price, leaves), stamps, now);
      } else {
        RemovalFifo(cfg, s, o, stamps, now);
      }
    } else {
      BookTimePasses(cfg, s, s, stamps, now);
    }
  }

  lemma ReductionFifo(cfg: Config, s: State, o: Order, leaves: nat, stamps: map<nat, nat>, now: nat)
    requires cfg.Valid() && Inv(cfg, s) && BookFifo(cfg, s, stamps, now) && Resting(s, o) && 0 < leaves <= o.leavesQty
    ensures BookFifo(cfg, WithOrder(s, o.Reduced(o.leavesQty - leaves)), stamps, now + 1)
  {
    hide Inv, BookFifo, Resting, WithOrder;
    var o' := o.Reduced(o.leavesQty - leaves);
    WithOrderFifo(cfg, s, o, o', stamps, now);
    BookTimePasses(cfg, WithOrder(s, o'), WithOrder(s, o'), stamps, now);
  }

  lemma RequeueFifo(cfg: Config, s: State, o: Order, o': Order, stamps: map<nat, nat>, now: nat)
    requires cfg.Valid() && Inv(cfg, s) && BookFifo(cfg, s, stamps, now) && Resting(s, o)
    requires o'.orderId == o.orderId && o'.leavesQty > 0 && PriceToTick(cfg, o'.price).Some?
    ensures BookFifo(cfg, Rested(cfg, Removed(s, o), o'), stamps[o.orderId := now], now + 1)
  {
    hide Inv, BookFifo, Resting, Removed, Rested, PriceToTick, Fresh;
    RemovedFifo(cfg, s, o, stamps, now);
    RequeueIsFresh(cfg, s, o, o');
    RestedFifo(cfg, Removed(s, o), o', stamps, now);
  }

  lemma RemovalFifo(cfg: Config, s: State, o: Order, stamps: map<nat, nat>, now: nat)
    requires cfg.Valid() && BookFifo(cfg, s, stamps, now)
    ensures BookFifo(cfg, Removed(s, o), stamps, now + 1)
  {
    hide BookFifo, Removed;
    RemovedFifo(cfg, s, o, stamps, now);
    BookTimePasses(cfg, Removed(s, o), Removed(s, o), stamps, now);
  }

  /** Every command keeps the queues in the order of the stamps. */
  lemma StepFifo(cfg: Config, s: State, cmd: Command, stamps: map<nat, nat>, now: nat)
    requires cfg.Valid() && Inv(cfg, s) && BookFifo(cfg, s, stamps, now)
    ensures BookFifo(cfg, Step(cfg, s, cmd).state, Stamp(cfg, s, cmd, stamps, now), now + 1)
  {
    hide Inv, BookFifo, Resting, State.Find, PlaceOrder, Amend, Removed, Requeues, PlaceRests;
    match cmd
    case Place(_, _, _, _, _, _, _, _) =>
      PlaceFifo(cfg, s, cmd, stamps, now);
    case Cancel(clientId, clientOrderId) =>
      if s.Find((clientId, clientOrderId)).Some? {
        RemovalFifo(cfg, s, s.Find((clientId, clientOrderId)).value, stamps, now);
      } else {
        BookTimePasses(cfg, s, s, stamps, now);
      }
    case Modify(clientId, clientOrderId, newPrice, newQty) =>
      FoundIsResting(cfg, s, (clientId, clientOrderId));
      if s.Find((clientId, clientOrderId)).Some? {
        var o := s.Find((clientId, clientOrderId)).value;
        AmendFifo(cfg, s, o, OrElse(newPrice, o.price), OrElse(newQty, o.leavesQty), stamps, now);
      } else {
        BookTimePasses(cfg, s, s, stamps, now);
      }
  }

  /** ... and so does every run: whatever the commands, orders of one tick stand in the order in which
      they joined. */
  lemma {:induction false} RunFifo(cfg: Config, s: State, cmds: seq<Command>, stamps: map<nat, nat>, now: nat)
    requires cfg.Valid() && Inv(cfg, s) && BookFifo(cfg, s, stamps, now)
    ensures BookFifo(cfg, Run(cfg, s, cmds), RunStamps(cfg, s, cmds, stamps, now), now + |cmds|)
    decreases |cmds|
  {
    hide Inv, Step, BookFifo, Stamp;
    if cmds != [] {
      StepFifo(cfg, s, cmds[0], stamps, now);
      StepKeepsInv(cfg, s, cmds[0]);
      RunFifo(cfg, Step(cfg, s, cmds[0]).state, cmds[1..], Stamp(cfg, s, cmds[0], stamps, now), now + 1);
    }
  }

  // ---------------------------------------------------------------- what priority means

  /** Price before time: a better tick, or the same tick and an earlier stamp. */
  ghost predicate Precedes(cfg: Config, stamps: map<nat, nat>, o: Order, p: Order)
    requires cfg.Valid()
  {
    Rank(cfg, o) < Rank(cfg, p) ||
    (&& Rank(cfg, o) == Rank(cfg, p) && o.orderId in stamps && p.orderId in stamps
     && stamps[o.orderId] < stamps[p.orderId])
  }

  /** The queue is exactly the orders in their priority. */
  lemma QueueIsPriority(cfg: Config, q: seq<Order>, side: Side, nextId: nat, stamps: map<nat, nat>, now: nat,
                        i: nat, j: nat)
    requires cfg.Valid() && SideOk(cfg, q, side, nextId) && Fifo(cfg, q, stamps, now) && i < |q| && j < |q|
    ensures Precedes(cfg, stamps, q[i], q[j]) <==> i < j
  {
    hide Rank, PriceToTick;
    assert Stamped(stamps, now, q[i].orderId) && Stamped(stamps, now, q[j].orderId);
    if i < j {
      assert Rank(cfg, q[i]) <= Rank(cfg, q[j]);
    } else if j < i {
      assert Rank(cfg, q[j]) <= Rank(cfg, q[i]);
    }
  }

  /** A sweep that trades with the `j`-th order has completely filled the `i`-th before, for every `i < j`. */
  lemma EarlierFilledFirst(cfg: Config, a: Aggressor, q: seq<Order>, qty: nat, i: nat, j: nat)
    requires cfg.Valid() && i < j < |Match(cfg, a, q, qty).events| && forall k | 0 <= k < |q| :: q[k].leavesQty > 0
    ensures i < |q| && Match(cfg, a, q, qty).events[i] == FillOf(a, q[i], q[i].leavesQty)
  {
    var k, part := SweepIsGreedy(cfg, a, q, qty);
    hide Match, FillOf;
  }

  /** The event is a fill of the resting order `id`. */
  predicate FillsOrder(event: OutputEvent, id: nat) {
    event.Fill? && event.restingOrderId == id
  }

  /** A sweep that trades with an order has completely filled every order that precedes it. */
  lemma SweepHonoursPriority(cfg: Config, s: State, a: Aggressor, qty: nat, stamps: map<nat, nat>, now: nat,
                             o: Order, p: Order, j: nat) returns (i: nat)
    requires cfg.Valid() && Inv(cfg, s) && BookFifo(cfg, s, stamps, now)
    requires Resting(s, o) && Resting(s, p) && o.side == p.side && Precedes(cfg, stamps, o, p)
    requires var events := Match(cfg, a, s.Queue(Opposite(a.side)), qty).events;
             j < |events| && FillsOrder(events[j], p.orderId)
    ensures i < j && Match(cfg, a, s.Queue(Opposite(a.side)), qty).events[i] == FillOf(a, o, o.leavesQty)
  {
    var q := s.Queue(Opposite(a.side));
    QueueOk(cfg, s, Opposite(a.side));
    PositiveLeaves(cfg, q, Opposite(a.side), s.nextId);
    FillsCross(cfg, a, q, qty, j);
    hide Match, Fifo, SideOk, Precedes, Crosses, TickOf;
    IsAt(cfg, s, Opposite(a.side), p, j);
    i :| 0 <= i < |q| && q[i] == o;
    QueueIsPriority(cfg, q, Opposite(a.side), s.nextId, stamps, now, i, j);
    EarlierFilledFirst(cfg, a, q, qty, i, j);
  }

  /** The order of an id that stands in a queue. */
  lemma IsAt(cfg: Config, s: State, side: Side, p: Order, j: nat)
    requires cfg.Valid() && Inv(cfg, s) && Resting(s, p) && j < |s.Queue(side)| && s.Queue(side)[j].orderId == p.orderId
    ensures s.Queue(side)[j] == p && p.side == side
  {
    RestingSides(cfg, s);
    assert s.Queue(side)[j] in s.Queue(side);
    LocateMember(cfg, s, p);
    LocateMember(cfg, s, s.Queue(side)[j]);
    hide Resting, State.Locate;
  }

  /** Price-time priority: after any run, when a command trades with a resting order, it has completely
      filled every order of that side that has a better tick, or the same tick and joined before. */
  lemma PriceTimePriority(cfg: Config, cmds: seq<Command>, cmd: Command, o: Order, p: Order, j: nat) returns (i: nat)
    requires cfg.Valid()
    requires var s := Run(cfg, EMPTY, cmds);
             && Resting(s, o) && Resting(s, p) && o.side == p.side
             && Precedes(cfg, RunStamps(cfg, EMPTY, cmds, map[], 0), o, p)
             && j < |Step(cfg, s, cmd).events| && FillsOrder(Step(cfg, s, cmd).events[j], p.orderId)
    ensures var events := Step(cfg, Run(cfg, EMPTY, cmds), cmd).events;
            && i < j < |events| && FillsOrder(events[i], o.orderId) && events[i].quantity == o.leavesQty
  {
    hide Run, RunStamps, Step, Inv, BookFifo, Resting, Precedes;
    EmptyInv(cfg);
    RunKeepsInv(cfg, EMPTY, cmds);
    EmptyFifo(cfg);
    RunFifo(cfg, EMPTY, cmds, map[], 0);
    i := StepHonoursPriority(cfg, Run(cfg, EMPTY, cmds), cmd, RunStamps(cfg, EMPTY, cmds, map[], 0), |cmds|, o, p, j);
  }

  lemma StepHonoursPriority(cfg: Config, s: State, cmd: Command, stamps: map<nat, nat>, now: nat,
                            o: Order, p: Order, j: nat) returns (i: nat)
    requires cfg.Valid() && Inv(cfg, s) && BookFifo(cfg, s, stamps, now)
    requires Resting(s, o) && Resting(s, p) && o.side == p.side && Precedes(cfg, stamps, o, p)
    requires j < |Step(cfg, s, cmd).events| && FillsOrder(Step(cfg, s, cmd).events[j], p.orderId)
    ensures var events := Step(cfg, s, cmd).events;
            i < j && FillsOrder(events[i], o.orderId) && events[i].quantity == o.leavesQty
  {
    hide Step, Inv, BookFifo, Resting, Match, Matches, Precedes;
    OnlyPlacesFill(cfg, s, cmd, j);
    PlaceFills(cfg, s, cmd);
    var a := AggressorOf(cmd, s.nextId);
    var fills := Match(cfg, a, s.Queue(Opposite(a.side)), cmd.quantity).events;
    assert fills[j] == Step(cfg, s, cmd).events[..|fills|][j];
    i := SweepHonoursPriority(cfg, s, a, cmd.quantity, stamps, now, o, p, j);
    assert fills[i] == Step(cfg, s, cmd).events[..|fills|][i];
  }

  lemma EmptyFifo(cfg: Config)
    requires cfg.Valid()
    ensures BookFifo(cfg, EMPTY, map[], 0)
  {
  }

  lemma OnlyPlacesFill(cfg: Config, s: State, cmd: Command, j: nat)
    requires cfg.Valid() && j < |Step(cfg, s, cmd).events| && Step(cfg, s, cmd).events[j].Fill?
    ensures cmd.Place?
  {
    hide State.Find, PlaceOrder, Removed, Rested, WithOrder, PriceToTick;
  }
}
