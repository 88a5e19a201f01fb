/**
  When the book stays uncrossed, and exactly when a command crosses it.
 */
module CrossingLaws {
  import opened Types
  import opened Arithmetic
  import opened Exchange
  import opened ExchangeInvariant
  import opened SweepLaws

  // ---------------------------------------------------------------- uncrossed books

  /** Every bid is on a lower tick than every ask. */
  ghost predicate Uncrossed(cfg: Config, s: State)
    requires cfg.Valid()
  {
    forall b, a | b in s.bids && a in s.asks :: TickOf(cfg, b) < TickOf(cfg, a)
  }

  /** An order on `tick` would not touch the other side. */
  ghost predicate ClearOf(cfg: Config, s: State, side: Side, tick: nat)
    requires cfg.Valid()
  {
    forall p | p in s.Queue(Opposite(side)) :: if side == Buy then tick < TickOf(cfg, p) else TickOf(cfg, p) < tick
  }

  lemma RemovedUncrossed(cfg: Config, s: State, o: Order)
    requires cfg.Valid() && Inv(cfg, s) && Uncrossed(cfg, s) && Resting(s, o)
    ensures Uncrossed(cfg, Removed(s, o))
  {
    hide Without, TickOf, SideOk;
    QueueRemoval(cfg, s.Queue(o.side), o.side, s.nextId, o);
  }

  lemma ReplacedUncrossed(cfg: Config, s: State, o: Order, o': Order)
    requires cfg.Valid() && Inv(cfg, s) && Uncrossed(cfg, s) && Resting(s, o)
    requires SameButQuantities(o, o') && o'.leavesQty > 0
    ensures Uncrossed(cfg, WithOrder(s, o'))
  {
    assert TickOf(cfg, o') == TickOf(cfg, o);
    hide Replaced, TickOf, SideOk;
    QueueReplacement(cfg, s.Queue(o.side), o.side, s.nextId, o, o');
  }

  /** A newcomer keeps the book uncrossed exactly when its tick is clear of the other side. */
  lemma RestedUncrossed(cfg: Config, s: State, o: Order)
    requires cfg.Valid() && Inv(cfg, s) && Uncrossed(cfg, s) && Fresh(cfg, s, o)
    ensures Uncrossed(cfg, Rested(cfg, s, o)) <==> ClearOf(cfg, s, o.side, TickOf(cfg, o))
  {
    hide Insert, TickOf, SideOk, PriceToTick;
    FreshInQueue(cfg, s, o);
    QueueInsertion(cfg, s.Queue(o.side), o.side, s.nextId, o);
    assert o in Insert(cfg, s.Queue(o.side), o);
  }

  lemma FreshInQueue(cfg: Config, s: State, o: Order)
    requires cfg.Valid() && Inv(cfg, s) && Fresh(cfg, s, o)
    ensures forall p | p in s.Queue(o.side) :: p.orderId != o.orderId
  {
    hide PriceToTick, Rank;
    assert forall p | p in s.Queue(o.side) :: Resting(s, p);
  }

  lemma {:induction false} SweptUncrossed(cfg: Config, s: State, a: Aggressor, qty: nat)
    requires cfg.Valid() && Inv(cfg, s) && Uncrossed(cfg, s)
    ensures Uncrossed(cfg, Swept(s, a, Match(cfg, a, s.Queue(Opposite(a.side)), qty)))
    decreases s.Live()
  {
    var q := s.Queue(Opposite(a.side));
    hide Inv, Match, Swept, Crosses, TickOf, Resting, Removed, WithOrder;
    if qty == 0 || q == [] || !Crosses(cfg, a, TickOf(cfg, q[0])) {
      SweepNone(cfg, s, a, qty);
    } else if qty < q[0].leavesQty {
      SweepPartial(cfg, s, a, qty);
      ReplacedUncrossed(cfg, s, q[0], q[0].Reduced(qty));
    } else {
      SweepHead(cfg, s, a, qty);
      KeptRemoved(cfg, s, q[0]);
      RemovedUncrossed(cfg, s, q[0]);
      SweptUncrossed(cfg, Removed(s, q[0]), a, qty - q[0].leavesQty);
    }
  }

  /** Where the head of a queue does not cross, nothing does. */
  lemma NoneCross(cfg: Config, a: Aggressor, q: seq<Order>, nextId: nat)
    requires cfg.Valid() && SideOk(cfg, q, Opposite(a.side), nextId)
    requires q == [] || !Crosses(cfg, a, TickOf(cfg, q[0]))
    ensures forall p | p in q :: !Crosses(cfg, a, TickOf(cfg, p))
  {
    hide SideOk, Crosses, TickOf;
    forall p | p in q
      ensures !Crosses(cfg, a, TickOf(cfg, p))
    {
      var i :| 0 <= i < |q| && q[i] == p;
      if i > 0 && Crosses(cfg, a, TickOf(cfg, p)) {
        CrossingIsPrefix(cfg, a, q, nextId, 0, i);
      }
    }
  }

  /** A tick that a limit order does not cross is on the far side of the tick of its price, or, for a sell
      between two ticks, that tick itself. */
  lemma NotCrossedIsBeyond(cfg: Config, a: Aggressor, price: u64, u: nat)
    requires cfg.Valid() && a.limit == Some(price) && PriceToTick(cfg, price).Some? && !Crosses(cfg, a, u)
    ensures var t := PriceToTick(cfg, price).value;
            if a.side == Buy then t < u else if Aligned(cfg, price) then u < t else u <= t
  {
    var t := PriceToTick(cfg, price).value;
    PriceInTick(cfg, price);
    hide PriceToTick, TickToPrice;
    if u < t { TicksAscend(cfg, u, t); }
    if t < u { TicksAscend(cfg, t, u); }
  }

  /** What a limit order could not fill is clear of the other side; a sell needs its limit on a tick. */
  lemma ResidualIsClear(cfg: Config, s: State, a: Aggressor, price: u64)
    requires cfg.Valid() && Inv(cfg, s) && a.limit == Some(price) && PriceToTick(cfg, price).Some?
    requires var q := s.Queue(Opposite(a.side)); q == [] || !Crosses(cfg, a, TickOf(cfg, q[0]))
    requires a.side == Sell ==> Aligned(cfg, price)
    ensures ClearOf(cfg, s, a.side, PriceToTick(cfg, price).value)
  {
    hide Inv, SideOk, TickOf, PriceToTick, Aligned, Crosses;
    QueueOk(cfg, s, Opposite(a.side));
    NoneCross(cfg, a, s.Queue(Opposite(a.side)), s.nextId);
    forall p | p in s.Queue(Opposite(a.side))
      ensures !Crosses(cfg, a, TickOf(cfg, p))
      ensures if a.side == Buy then PriceToTick(cfg, price).value < TickOf(cfg, p)
              else TickOf(cfg, p) < PriceToTick(cfg, price).value
    {
      NotCrossedIsBeyond(cfg, a, price, TickOf(cfg, p));
    }
  }

  lemma QueueOk(cfg: Config, s: State, side: Side)
    requires cfg.Valid() && Inv(cfg, s)
    ensures SideOk(cfg, s.Queue(side), side, s.nextId)
  {
  }

  /** Without its limit on a tick, a sell is clear of the bids exactly when none is on its own tick. */
  lemma UnsoldIsClear(cfg: Config, s: State, a: Aggressor, price: u64)
    requires cfg.Valid() && Inv(cfg, s) && a.limit == Some(price) && PriceToTick(cfg, price).Some? && a.side == Sell
    requires s.bids == [] || !Crosses(cfg, a, TickOf(cfg, s.bids[0]))
    ensures ClearOf(cfg, s, Sell, PriceToTick(cfg, price).value) <==> !BidOn(cfg, s.bids, PriceToTick(cfg, price).value)
  {
    hide Inv, SideOk, TickOf, PriceToTick, Aligned, Crosses;
    QueueOk(cfg, s, Buy);
    NoneCross(cfg, a, s.bids, s.nextId);
    forall p | p in s.bids
      ensures TickOf(cfg, p) <= PriceToTick(cfg, price).value
    {
      NotCrossedIsBeyond(cfg, a, price, TickOf(cfg, p));
    }
  }

  ghost predicate BidOn(cfg: Config, q: seq<Order>, tick: nat)
    requires cfg.Valid()
  {
    exists o :: o in q && TickOf(cfg, o) == tick
  }

  /** A sweep that leaves something over removes exactly the orders that cross, and frees a slot when
      there is one. */
  lemma SweepLeavesOver(cfg: Config, s: State, a: Aggressor, qty: nat) returns (k: nat)
    requires cfg.Valid() && Inv(cfg, s)
    requires var q := s.Queue(Opposite(a.side)); CrossingLeaves(cfg, a, q) < qty
    ensures var q := s.Queue(Opposite(a.side));
            var sweep := Match(cfg, a, q, qty);
            && k <= |q| && sweep.filled == q[..k] && sweep.rest == q[k..] && sweep.left > 0
            && (k > 0 <==> CrossingLeaves(cfg, a, q) > 0)
            && Swept(s, a, sweep).Live() == s.Live() - k
            && forall i | 0 <= i < |q| :: Crosses(cfg, a, TickOf(cfg, q[i])) <==> i < k
  {
    var q := s.Queue(Opposite(a.side));
    QueueOk(cfg, s, Opposite(a.side));
    SweepTakesAll(cfg, a, q, qty, s.nextId);
    var part: nat;
    k, part := SweepIsGreedy(cfg, a, q, qty);
    forall i | 0 <= i < k
      ensures Crosses(cfg, a, TickOf(cfg, q[i]))
    {
      FillsCross(cfg, a, q, qty, i);
    }
    SweepStops(cfg, a, q, qty);
    forall i | k <= i < |q|
      ensures !Crosses(cfg, a, TickOf(cfg, q[i]))
    {
      if k < i && Crosses(cfg, a, TickOf(cfg, q[i])) {
        CrossingIsPrefix(cfg, a, q, s.nextId, k, i);
      }
    }
    if k > 0 { LeavesCons(q, k - 1); } else { LeavesNone(); }
    hide Inv, Match, Crosses, TickOf, CrossingLeaves, Leaves, FillOf;
  }

  /** The bids or asks that a limit order crosses do not fill it, and it finds a slot for the rest: one
      that was free, or one that they leave. */
  ghost predicate Rests(cfg: Config, s: State, a: Aggressor, quantity: nat)
    requires cfg.Valid()
  {
    var crossing := CrossingLeaves(cfg, a, s.Queue(Opposite(a.side)));
    crossing < quantity && (s.Live() < cfg.capacity || crossing > 0)
  }

  /** The one way a placed order can lock the book: a sell limit between two ticks, with a bid on the
      tick below, that gets to rest. */
  ghost predicate Locks(cfg: Config, s: State, a: Aggressor, price: u64, quantity: nat)
    requires cfg.Valid()
  {
    && a.side == Sell && !Aligned(cfg, price)
    && PriceToTick(cfg, price).Some? && BidOn(cfg, s.bids, PriceToTick(cfg, price).value)
    && Rests(cfg, s, a, quantity)
  }

  /** A price between two ticks is above the price of its own tick, so a sell at it does not cross there. */
  lemma OwnTickDoesNotCross(cfg: Config, a: Aggressor, price: u64)
    requires cfg.Valid() && a.side == Sell && a.limit == Some(price)
    requires PriceToTick(cfg, price).Some? && !Aligned(cfg, price)
    ensures !Crosses(cfg, a, PriceToTick(cfg, price).value)
  {
    PriceInTick(cfg, price);
  }

  /** The bids on the tick of an unaligned sell survive its sweep. */
  lemma BidsSurvive(cfg: Config, a: Aggressor, price: u64, q: seq<Order>, k: nat)
    requires cfg.Valid() && a.side == Sell && a.limit == Some(price) && k <= |q|
    requires PriceToTick(cfg, price).Some? && !Aligned(cfg, price)
    requires forall i | 0 <= i < k :: Crosses(cfg, a, TickOf(cfg, q[i]))
    ensures BidOn(cfg, q[k..], PriceToTick(cfg, price).value) <==> BidOn(cfg, q, PriceToTick(cfg, price).value)
  {
    OwnTickDoesNotCross(cfg, a, price);
    hide Crosses, TickOf, PriceToTick, Aligned;
    var t := PriceToTick(cfg, price).value;
    if BidOn(cfg, q, t) {
      var o :| o in q && TickOf(cfg, o) == t;
      var i :| 0 <= i < |q| && q[i] == o;
      assert q[k..][i - k] == o;
    }
  }

  /** A limit order that keeps its id leaves the book uncrossed exactly when it does not lock it. */
  lemma PlaceLimitUncrossed(cfg: Config, s: State, a: Aggressor, clientOrderId: u64, price: u64, quantity: nat)
    requires cfg.Valid() && Inv(cfg, s) && Uncrossed(cfg, s) && a.limit == Some(price) && PriceToTick(cfg, price).Some?
    requires 1 <= a.orderId < s.nextId && forall p | Resting(s, p) :: p.orderId != a.orderId
    ensures Uncrossed(cfg, PlaceLimit(cfg, s, a, clientOrderId, price, quantity).state) <==>
            !Locks(cfg, s, a, price, quantity)
  {
    hide Inv, Match, Swept, Resting, PriceToTick, Rested, Fresh, Uncrossed, ClearOf, Aligned, TickOf, Crosses, BidOn,
         CrossingLeaves, SideOk, State.Live;
    SweptUncrossed(cfg, s, a, quantity);
    SweepKeepsInv(cfg, s, a, quantity);
    var q := s.Queue(Opposite(a.side));
    var sweep := Match(cfg, a, q, quantity);
    var s1 := Swept(s, a, sweep);
    var o := Residual(a, clientOrderId, price, quantity, sweep.left);
    QueueOk(cfg, s, Opposite(a.side));
    SweepTakesAll(cfg, a, q, quantity, s.nextId);
    if sweep.left > 0 {
      var k := SweepLeavesOver(cfg, s, a, quantity);
      LiveWithin(cfg, s);
      if s1.Live() < cfg.capacity {
        FreshAfterSweep(cfg, s, s1, o);
        SweepStops(cfg, a, q, quantity);
        SweptQueue(s, a, sweep);
        RestedUncrossed(cfg, s1, o);
        TickOfPrice(cfg, o);
        if a.side == Buy || Aligned(cfg, price) {
          ResidualIsClear(cfg, s1, a, price);
        } else {
          UnsoldIsClear(cfg, s1, a, price);
          BidsSurvive(cfg, a, price, q, k);
        }
      }
    }
  }

  lemma LiveWithin(cfg: Config, s: State)
    requires cfg.Valid() && Inv(cfg, s)
    ensures s.Live() <= cfg.capacity
  {
  }

  lemma SweptQueue(s: State, a: Aggressor, sweep: Sweep)
    ensures Swept(s, a, sweep).Queue(Opposite(a.side)) == sweep.rest
  {
  }

  lemma TickOfPrice(cfg: Config, o: Order)
    requires cfg.Valid() && PriceToTick(cfg, o.price).Some?
    ensures TickOf(cfg, o) == PriceToTick(cfg, o.price).value
  {
  }

  /** A place command that is let in, is a limit order on the ladder, and locks the book. */
  ghost predicate PlaceLocks(cfg: Config, s: State, cmd: Command)
    requires cfg.Valid()
  {
    && cmd.Place? && cmd.orderType == Limit && cmd.price.Some?
    && s.OpenOrders(cmd.clientId) < MAX_OPEN_ORDERS
    && Locks(cfg, s, AggressorOf(cmd, s.nextId), cmd.price.value, cmd.quantity)
  }

  /** Taking the next internal id changes nothing about crossing. */
  lemma NextIdSame(cfg: Config, s: State, a: Aggressor, price: u64, quantity: nat)
    requires cfg.Valid()
    ensures var s0 := s.(nextId := s.nextId + 1);
            && Uncrossed(cfg, s0) == Uncrossed(cfg, s)
            && Locks(cfg, s0, a, price, quantity) == Locks(cfg, s, a, price, quantity)
  {
    hide TickOf, Aligned, BidOn, CrossingLeaves;
  }

  lemma LocksNeedsTick(cfg: Config, s: State, a: Aggressor, price: u64, quantity: nat)
    requires cfg.Valid() && Locks(cfg, s, a, price, quantity)
    ensures PriceToTick(cfg, price).Some? && quantity > 0
  {
    hide PriceToTick, Aligned, BidOn, CrossingLeaves;
  }

  /** A place keeps the book uncrossed exactly when it does not lock it. */
  lemma PlaceUncrossed(cfg: Config, s: State, cmd: Command)
    requires cfg.Valid() && Inv(cfg, s) && Uncrossed(cfg, s) && cmd.Place?
    ensures Uncrossed(cfg, PlaceOrder(cfg, s, cmd).state) <==> !PlaceLocks(cfg, s, cmd)
  {
    hide Inv, Resting, State.OpenOrders, PlaceLimit, PriceToTick, Uncrossed, Locks, Swept, Match;
    var s0, a := s.(nextId := s.nextId + 1), AggressorOf(cmd, s.nextId);
    if cmd.orderType == Limit && cmd.price.Some? && Locks(cfg, s, a, cmd.price.value, cmd.quantity) {
      LocksNeedsTick(cfg, s, a, cmd.price.value, cmd.quantity);
    }
    if cmd.quantity > 0 && s.OpenOrders(cmd.clientId) < MAX_OPEN_ORDERS {
      NextIdKeepsInv(cfg, s);
      NextIdPositive(cfg, s);
      NextIdSame(cfg, s, a, if cmd.price.Some? then cmd.price.value else 0, cmd.quantity);
      if cmd.orderType == Market {
        SweptUncrossed(cfg, s0, a, cmd.quantity);
      } else if cmd.price.Some? && PriceToTick(cfg, cmd.price.value).Some? {
        PlaceLimitUncrossed(cfg, s0, a, cmd.clientOrderId, cmd.price.value, cmd.quantity);
      }
    }
  }

  /** A sell limit price that is on a tick, or that never gets to rest. */
  predicate OnTick(cfg: Config, cmd: Command)
    requires cfg.Valid()
  {
    (&& cmd.Place? && cmd.side == Sell && cmd.orderType == Limit
     && cmd.price.Some? && PriceToTick(cfg, cmd.price.value).Some?) ==>
      Aligned(cfg, cmd.price.value)
  }

  lemma NextIdPositive(cfg: Config, s: State)
    requires cfg.Valid() && Inv(cfg, s)
    ensures s.nextId >= 1
  {
  }

  /** Whether an amendment takes the order off its level and puts it on another. */
  predicate Requeues(cfg: Config, o: Order, price: u64, leaves: nat)
    requires cfg.Valid()
  {
    leaves > 0 && (price != o.price || leaves > o.leavesQty) && PriceToTick(cfg, price).Some?
  }

  lemma RequeueIsFresh(cfg: Config, s: State, o: Order, o': Order)
    requires cfg.Valid() && Inv(cfg, s) && Resting(s, o)
    requires o'.orderId == o.orderId && o'.leavesQty > 0 && PriceToTick(cfg, o'.price).Some?
    ensures Fresh(cfg, Removed(s, o), o') && Inv(cfg, Removed(s, o))
  {
    RemovedKeepsInv(cfg, s, o);
    RemovedBook(cfg, s, o);
    assert 1 <= o.orderId < s.nextId by {
      hide Rank, PriceToTick;
    }
    hide Resting, PriceToTick, Inv;
  }

  /** A modify can leave the book crossed: it keeps it uncrossed exactly when it does not re-queue, or
      re-queues to a tick clear of the other side. */
  lemma AmendUncrossed(cfg: Config, s: State, o: Order, price: u64, leaves: nat)
    requires cfg.Valid() && Inv(cfg, s) && Uncrossed(cfg, s) && Resting(s, o)
    ensures Uncrossed(cfg, Amend(cfg, s, o, price, leaves).state) <==>
            (Requeues(cfg, o, price, leaves) ==> ClearOf(cfg, s, o.side, PriceToTick(cfg, price).value))
  {
    hide Inv, Resting, Removed, Rested, WithOrder, PriceToTick, Uncrossed, ClearOf, TickOf, Fresh;
    if leaves > 0 {
      if price == o.price && leaves <= o.leavesQty {
        ReplacedUncrossed(cfg, s, o, o.Reduced(o.leavesQty - leaves));
      } else {
        RemovedUncrossed(cfg, s, o);
        if PriceToTick(cfg, price).Some? {
          var o' := Requeued(o, price, leaves);
          RequeueIsFresh(cfg, s, o, o');
          RestedUncrossed(cfg, Removed(s, o), o');
          TickOfPrice(cfg, o');
          SameOpposite(cfg, s, o, TickOf(cfg, o'));
        }
      }
    }
  }

  lemma SameOpposite(cfg: Config, s: State, o: Order, tick: nat)
    requires cfg.Valid()
    ensures ClearOf(cfg, Removed(s, o), o.side, tick) == ClearOf(cfg, s, o.side, tick)
  {
    hide TickOf, Without;
  }

  /** A command keeps an uncrossed book uncrossed: it does not lock it, and does not re-queue an order
      onto the other side's ticks. */
  ghost predicate Clean(cfg: Config, s: State, cmd: Command)
    requires cfg.Valid()
  {
    match cmd
    case Place(_, _, _, _, _, _, _, _) => !PlaceLocks(cfg, s, cmd)
    case Cancel(_, _) => true
    case Modify(clientId, clientOrderId, newPrice, newQty) =>
      match s.Find((clientId, clientOrderId))
      case None => true
      case Some(o) =>
        var price, leaves := OrElse(newPrice, o.price), OrElse(newQty, o.leavesQty);
        Requeues(cfg, o, price, leaves) ==> ClearOf(cfg, s, o.side, PriceToTick(cfg, price).value)
  }

  lemma StepUncrossed(cfg: Config, s: State, cmd: Command)
    requires cfg.Valid() && Inv(cfg, s) && Uncrossed(cfg, s)
    ensures Uncrossed(cfg, Step(cfg, s, cmd).state) <==> Clean(cfg, s, cmd)
  {
    hide Inv, Resting, State.Find, PlaceOrder, Amend, Removed, Uncrossed, Requeues, PlaceLocks, ClearOf, PriceToTick;
    match cmd
    case Place(_, _, _, _, _, _, _, _) =>
      PlaceUncrossed(cfg, s, cmd);
    case Cancel(clientId, clientOrderId) =>
      FoundIsResting(cfg, s, (clientId, clientOrderId));
      if s.Find((clientId, clientOrderId)).Some? {
        RemovedUncrossed(cfg, s, s.Find((clientId, clientOrderId)).value);
      }
    case Modify(clientId, clientOrderId, newPrice, newQty) =>
      FoundIsResting(cfg, s, (clientId, clientOrderId));
      if s.Find((clientId, clientOrderId)).Some? {
        var o := s.Find((clientId, clientOrderId)).value;
        AmendUncrossed(cfg, s, o, OrElse(newPrice, o.price), OrElse(newQty, o.leavesQty));
      }
  }

  /** Every command of the run is clean in the state that it finds. */
  ghost predicate CleanRun(cfg: Config, s: State, cmds: seq<Command>)
    requires cfg.Valid()
    decreases |cmds|
  {
    cmds == [] || (Clean(cfg, s, cmds[0]) && CleanRun(cfg, Step(cfg, s, cmds[0]).state, cmds[1..]))
  }

  /** The book is uncrossed before the run and after each of its commands. */
  ghost predicate UncrossedThroughout(cfg: Config, s: State, cmds: seq<Command>)
    requires cfg.Valid()
    decreases |cmds|
  {
    Uncrossed(cfg, s) && (cmds == [] || UncrossedThroughout(cfg, Step(cfg, s, cmds[0]).state, cmds[1..]))
  }

  /** From an uncrossed book, a run keeps it uncrossed throughout exactly when its commands are clean. */
  lemma {:induction false} RunUncrossedIff(cfg: Config, s: State, cmds: seq<Command>)
    requires cfg.Valid() && Inv(cfg, s) && Uncrossed(cfg, s)
    ensures UncrossedThroughout(cfg, s, cmds) <==> CleanRun(cfg, s, cmds)
    decreases |cmds|
  {
    hide Inv, Step, Uncrossed, Clean;
    if cmds != [] {
      StepUncrossed(cfg, s, cmds[0]);
      StepKeepsInv(cfg, s, cmds[0]);
      if Clean(cfg, s, cmds[0]) {
        RunUncrossedIff(cfg, Step(cfg, s, cmds[0]).state, cmds[1..]);
      } else {
        CrossedAtOnce(cfg, Step(cfg, s, cmds[0]).state, cmds[1..]);
      }
    }
  }

  lemma CrossedAtOnce(cfg: Config, s: State, cmds: seq<Command>)
    requires cfg.Valid() && !Uncrossed(cfg, s)
    ensures !UncrossedThroughout(cfg, s, cmds)
  {
  }

  /** Sells priced on ticks, and modifies that do not re-queue. */
  ghost predicate Gentle(cfg: Config, s: State, cmd: Command)
    requires cfg.Valid()
  {
    match cmd
    case Place(_, _, _, _, _, _, _, _) => OnTick(cfg, cmd)
    case Cancel(_, _) => true
    case Modify(clientId, clientOrderId, newPrice, newQty) =>
      match s.Find((clientId, clientOrderId))
      case None => true
      case Some(o) => !Requeues(cfg, o, OrElse(newPrice, o.price), OrElse(newQty, o.leavesQty))
  }

  ghost predicate GentleRun(cfg: Config, s: State, cmds: seq<Command>)
    requires cfg.Valid()
    decreases |cmds|
  {
    cmds == [] || (Gentle(cfg, s, cmds[0]) && GentleRun(cfg, Step(cfg, s, cmds[0]).state, cmds[1..]))
  }

  lemma GentleIsClean(cfg: Config, s: State, cmd: Command)
    requires cfg.Valid() && Gentle(cfg, s, cmd)
    ensures Clean(cfg, s, cmd)
  {
    hide PriceToTick, Requeues, ClearOf, BidOn, CrossingLeaves, State.Find, State.OpenOrders;
  }

  /** Places on ticks, cancels and in-place modifies keep the book uncrossed over every run. */
  lemma {:induction false} RunUncrossed(cfg: Config, s: State, cmds: seq<Command>)
    requires cfg.Valid() && Inv(cfg, s) && Uncrossed(cfg, s) && GentleRun(cfg, s, cmds)
    ensures Uncrossed(cfg, Run(cfg, s, cmds))
    decreases |cmds|
  {
    hide Inv, Step, Uncrossed, Gentle, Clean;
    if cmds != [] {
      GentleIsClean(cfg, s, cmds[0]);
      StepUncrossed(cfg, s, cmds[0]);
      StepKeepsInv(cfg, s, cmds[0]);
      RunUncrossed(cfg, Step(cfg, s, cmds[0]).state, cmds[1..]);
    }
  }

  // ---------------------------------------------------------------- alignment is needed

  lemma TickPriceIsAligned(cfg: Config, t: nat)
    requires cfg.Valid() && t < TICKS && TickToPrice(cfg, t) < 0x1_0000_0000_0000_0000
    ensures PriceToTick(cfg, TickToPrice(cfg, t)) == Some(t)
  {
    MultipleDivides(t, cfg.tickSize);
  }

  function LimitOrder(clientId: u64, side: Side, price: u64): Command {
    Place(clientId, clientId, [0, 0, 0, 0, 0, 0, 0, 0], side, Limit, Some(price), 1, Gtc)
  }

  /** A limit order that meets nothing rests. */
  lemma RestsUntouched(cfg: Config, s: State, cmd: Command)
    requires cfg.Valid() && cmd.Place? && cmd.orderType == Limit && cmd.price.Some? && cmd.quantity > 0
    requires PriceToTick(cfg, cmd.price.value).Some? && s.OpenOrders(cmd.clientId) < MAX_OPEN_ORDERS
    requires s.Live() < cfg.capacity
    requires var q := s.Queue(Opposite(cmd.side));
             q == [] || !Crosses(cfg, AggressorOf(cmd, s.nextId), TickOf(cfg, q[0]))
    ensures var a := AggressorOf(cmd, s.nextId);
            var o := Residual(a, cmd.clientOrderId, cmd.price.value, cmd.quantity, cmd.quantity);
            Step(cfg, s, cmd).state == Rested(cfg, s.(nextId := s.nextId + 1), o)
  {
    hide PriceToTick, TickOf, Crosses, Rested;
    var s0, a := s.(nextId := s.nextId + 1), AggressorOf(cmd, s.nextId);
    SweepNone(cfg, s0, a, cmd.quantity);
    assert Match(cfg, a, s0.Queue(Opposite(a.side)), cmd.quantity).left == cmd.quantity;
  }

  /** Rounding down does lock the book: for every sell price between two ticks, a buy at the price of
      the tick below and a sell at that price end up resting on the same tick. */
  lemma UnalignedSellLocks(cfg: Config, price: u64, below: u64)
    requires cfg.Valid() && cfg.capacity >= 2
    requires PriceToTick(cfg, price).Some? && below == TickToPrice(cfg, PriceToTick(cfg, price).value) && below != price
    ensures !Uncrossed(cfg, Run(cfg, EMPTY, [LimitOrder(1, Buy, below), LimitOrder(2, Sell, price)]))
  {
    var t := PriceToTick(cfg, price).value;
    PriceInTick(cfg, price);
    TickPriceIsAligned(cfg, t);
    var buy, sell := LimitOrder(1, Buy, below), LimitOrder(2, Sell, price);
    hide PriceToTick, TickToPrice, Step;
    RestsUntouched(cfg, EMPTY, buy);
    var s1 := Step(cfg, EMPTY, buy).state;
    assert |s1.bids| == 1 && s1.asks == [] && TickOf(cfg, s1.bids[0]) == t;
    RestsUntouched(cfg, s1, sell);
    var s2 := Step(cfg, s1, sell).state;
    assert s2.bids == s1.bids && |s2.asks| == 1 && TickOf(cfg, s2.asks[0]) == t;
    assert s2.bids[0] in s2.bids && s2.asks[0] in s2.asks;
    RunTwo(cfg, buy, sell);
  }

  lemma RunOne(cfg: Config, cmd: Command)
    requires cfg.Valid()
    ensures Run(cfg, EMPTY, [cmd]) == Step(cfg, EMPTY, cmd).state
  {
    hide Step;
    assert [cmd][1..] == [];
  }

  lemma RunTwo(cfg: Config, c1: Command, c2: Command)
    requires cfg.Valid()
    ensures Run(cfg, EMPTY, [c1, c2]) == Step(cfg, Step(cfg, EMPTY, c1).state, c2).state
  {
    hide Step;
    assert [c1, c2][1..] == [c2] && [c2][1..] == [];
    assert Run(cfg, Step(cfg, EMPTY, c1).state, [c2]) == Step(cfg, Step(cfg, EMPTY, c1).state, c2).state;
  }
}
