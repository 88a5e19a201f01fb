/**
  What an order's `filledQty` means: what it has traded, on either side of a fill, and what in-place
  modifies have taken off it, which the engine books as filled too.
 */
module FilledLaws {
  import opened Types
  import opened Exchange
  import opened ExchangeInvariant
  import opened SweepLaws
  import opened LedgerLaws
  import opened CrossingLaws
  import opened EventLaws
  import opened LimitLaws
  import opened BookLaws
  import opened OrphanLaws
  import opened PlaceLaws

  // ---------------------------------------------------------------- what the events say of one order

  /** The quantity that order `id` has traded as the incoming side of the fills. */
  function TakenBy(events: seq<OutputEvent>, id: nat): nat {
    if events == [] then 0
    else
      (if events[0].Fill? && events[0].aggressorOrderId == id then events[0].quantity else 0) + TakenBy(events[1..], id)
  }

  /** The quantity that order `id` has traded, on either side. */
  function TradedBy(events: seq<OutputEvent>, id: nat): nat {
    FilledOf(events, id) + TakenBy(events, id)
  }

  lemma {:induction false} TakenByConcat(a: seq<OutputEvent>, b: seq<OutputEvent>, id: nat)
    ensures TakenBy(a + b, id) == TakenBy(a, id) + TakenBy(b, id)
  {
    if a == [] {
      assert a + b == b;
    } else {
      assert (a + b)[1..] == a[1..] + b;
      TakenByConcat(a[1..], b, id);
    }
  }

  lemma TakenByOne(e: OutputEvent, id: nat)
    ensures TakenBy([e], id) == if e.Fill? && e.aggressorOrderId == id then e.quantity else 0
  {
  }

  /** A sweep trades for its aggressor what it fills, and for nobody else. */
  lemma {:induction false} SweepTakes(cfg: Config, a: Aggressor, q: seq<Order>, qty: nat, id: nat)
    requires cfg.Valid()
    ensures var sweep := Match(cfg, a, q, qty);
            TakenBy(sweep.events, id) == if id == a.orderId then qty - sweep.left else 0
    decreases |q|
  {
    hide Crosses, TickOf;
    if qty > 0 && q != [] && Crosses(cfg, a, TickOf(cfg, q[0])) {
      if qty < q[0].leavesQty {
        TakenByOne(FillOf(a, q[0], qty), id);
      } else {
        SweepTakes(cfg, a, q[1..], qty - q[0].leavesQty, id);
        var first := [FillOf(a, q[0], q[0].leavesQty)];
        TakenByOne(first[0], id);
        TakenByConcat(first, Match(cfg, a, q[1..], qty - q[0].leavesQty).events, id);
      }
    }
  }

  /** The quantity an in-place modify takes off order `id`. */
  function TrimmedOff(cfg: Config, s: State, cmd: Command, id: nat): nat
    requires cfg.Valid()
  {
    if !cmd.Modify? then 0
    else
      match s.Find((cmd.clientId, cmd.clientOrderId))
      case None => 0
      case Some(o) =>
        var price, leaves := OrElse(cmd.newPrice, o.price), OrElse(cmd.newQty, o.leavesQty);
        if o.orderId == id && price == o.price && 0 < leaves <= o.leavesQty then o.leavesQty - leaves else 0
  }

  // ---------------------------------------------------------------- one command

  lemma PlaceTakes(cfg: Config, s: State, cmd: Command, id: nat)
    requires cfg.Valid() && cmd.Place?
    ensures TakenBy(Step(cfg, s, cmd).events, id) ==
            if Matches(cfg, s, cmd) && id == s.nextId then cmd.quantity - PlaceSweep(cfg, s, cmd).left else 0
    ensures (forall o | o in s.Queue(Opposite(cmd.side)) :: o.orderId != id) ==>
              FilledOf(Step(cfg, s, cmd).events, id) == 0
  {
    PlaceFills(cfg, s, cmd);
    hide Step, Match, Matches;
    var events := Step(cfg, s, cmd).events;
    if Matches(cfg, s, cmd) {
      var a, q := AggressorOf(cmd, s.nextId), s.Queue(Opposite(cmd.side));
      var fills := PlaceSweep(cfg, s, cmd).events;
      var more := events[|fills|..];
      assert events == fills + more;
      NoFillNothing(more, id);
      TakenByConcat(fills, more, id);
      FilledOfConcat(fills, more, id);
      SweepTakes(cfg, a, q, cmd.quantity, id);
      if forall o | o in q :: o.orderId != id {
        GoneIsNotFilled(cfg, a, q, cmd.quantity, id);
      }
    } else {
      NoFillNothing(events, id);
    }
  }

  lemma NoFillNothing(events: seq<OutputEvent>, id: nat)
    requires |events| <= 1 && (|events| == 1 ==> !events[0].Fill?)
    ensures TakenBy(events, id) == 0 && FilledOf(events, id) == 0
  {
    if events != [] {
      assert events[1..] == [];
    }
  }

  lemma IdsBelow(cfg: Config, s: State, o: Order)
    requires cfg.Valid() && Inv(cfg, s) && Resting(s, o)
    ensures o.orderId < s.nextId
  {
    RestingLeaves(cfg, s, o);
  }

  /** An order that rests after a place and did before has been filled by what its fills say. */
  lemma PlaceOld(cfg: Config, s: State, cmd: Command, o': Order) returns (o: Order)
    requires cfg.Valid() && Inv(cfg, s) && cmd.Place? && Resting(Step(cfg, s, cmd).state, o') && o'.orderId < s.nextId
    ensures Resting(s, o) && o.orderId == o'.orderId
    ensures o'.filledQty == o.filledQty + TradedBy(Step(cfg, s, cmd).events, o'.orderId)
  {
    hide Inv, Resting, PlaceOrder, FilledOf, TakenBy, Matches;
    PlaceStep(cfg, s, cmd);
    PlaceKeeps(cfg, s, cmd, o');
    if Gone(s, o'.orderId) {
      assert false;
    }
    o :| Resting(s, o) && o.orderId == o'.orderId;
    PlaceKeeps(cfg, s, cmd, o);
    PlaceTakes(cfg, s, cmd, o.orderId);
    StepKeepsInv(cfg, s, cmd);
    var filled := FilledOf(Step(cfg, s, cmd).events, o.orderId);
    assert filled < o.leavesQty;
    SameIdSameOrder(cfg, Step(cfg, s, cmd).state, o', o.Reduced(filled));
  }

  /** An order that has come to rest by a place has traded what was not left of it. */
  lemma PlaceNew(cfg: Config, s: State, cmd: Command, o': Order)
    requires cfg.Valid() && Inv(cfg, s) && cmd.Place? && Resting(Step(cfg, s, cmd).state, o') && o'.orderId >= s.nextId
    ensures o'.orderId == s.nextId && o'.filledQty == TradedBy(Step(cfg, s, cmd).events, o'.orderId)
  {
    hide Inv, Resting, PlaceOrder, FilledOf, TakenBy, Matches, Rests, Match, Swept, Rested, Fresh;
    PlaceStep(cfg, s, cmd);
    PlaceShape(cfg, s, cmd);
    PlaceTakes(cfg, s, cmd, s.nextId);
    NothingAhead(cfg, s, Opposite(cmd.side));
    if !Matches(cfg, s, cmd) {
      SameQueuesRest(s, Step(cfg, s, cmd).state, o');
      IdsBelow(cfg, s, o');
    } else if PlaceRests(cfg, s, cmd) {
      ResidualFresh(cfg, s, cmd);
      RestedFacts(cfg, AfterSweep(cfg, s, cmd), PlaceResidual(cfg, s, cmd));
      if Resting(AfterSweep(cfg, s, cmd), o') {
        SweptIds(cfg, s, cmd, o');
      }
    } else {
      SweptIds(cfg, s, cmd, o');
    }
  }

  lemma NothingAhead(cfg: Config, s: State, side: Side)
    requires cfg.Valid() && Inv(cfg, s)
    ensures forall o | o in s.Queue(side) :: o.orderId < s.nextId
  {
    hide Rank, PriceToTick;
  }

  lemma SameQueuesRest(s: State, s': State, o: Order)
    requires s'.bids == s.bids && s'.asks == s.asks
    ensures Resting(s', o) == Resting(s, o)
  {
  }

  lemma SweptIds(cfg: Config, s: State, cmd: Command, o': Order)
    requires cfg.Valid() && Inv(cfg, s) && cmd.Place? && Resting(AfterSweep(cfg, s, cmd), o')
    ensures o'.orderId < s.nextId
  {
    hide Inv, Resting, Match, Swept, State.OpenOrders;
    var s0, a := s.(nextId := s.nextId + 1), AggressorOf(cmd, s.nextId);
    assert s0.Queue(Opposite(cmd.side)) == s.Queue(Opposite(cmd.side));
    NextIdKeepsInv(cfg, s);
    SweepKeepsInv(cfg, s0, a, cmd.quantity);
    var o :| Resting(s0, o) && o.orderId == o'.orderId;
    IdsBelow(cfg, s, o);
  }

  /** A modify of order `p`: what rests afterwards was there before, filled as much, but for what an
      in-place reduction has taken off. */
  lemma AmendOld(cfg: Config, s: State, p: Order, price: u64, leaves: nat, o': Order) returns (o: Order)
    requires cfg.Valid() && Inv(cfg, s) && Resting(s, p) && Resting(Amend(cfg, s, p, price, leaves).state, o')
    ensures Resting(s, o) && o.orderId == o'.orderId
    ensures o'.filledQty == o.filledQty +
                            if o'.orderId == p.orderId && price == p.price && 0 < leaves <= p.leavesQty
                            then p.leavesQty - leaves else 0
  {
    hide Inv, Resting, Removed, Rested, WithOrder, PriceToTick, Fresh, Gone;
    o := o';
    if leaves > 0 {
      if price == p.price && leaves <= p.leavesQty {
        ReplacedFacts(cfg, s, p, p.Reduced(p.leavesQty - leaves));
        if o' == p.Reduced(p.leavesQty - leaves) {
          o := p;
        } else if o'.orderId == p.orderId {
          SameIdSameOrder(cfg, s, o', p);
        }
      } else {
        RemovedFacts(cfg, s, p);
        if PriceToTick(cfg, price).Some? {
          var p' := Requeued(p, price, leaves);
          RequeueIsFresh(cfg, s, p, p');
          RestedFacts(cfg, Removed(s, p), p');
          if o' == p' {
            o := p;
          }
        }
      }
    }
  }

  /** A cancel or modify. */
  lemma OtherOld(cfg: Config, s: State, cmd: Command, o': Order) returns (o: Order)
    requires cfg.Valid() && Inv(cfg, s) && !cmd.Place? && Resting(Step(cfg, s, cmd).state, o')
    ensures Resting(s, o) && o.orderId == o'.orderId
    ensures o'.filledQty == o.filledQty + TrimmedOff(cfg, s, cmd, o'.orderId)
  {
    hide Inv, Resting, State.Find, Amend, Removed;
    o := o';
    match cmd
    case Cancel(clientId, clientOrderId) =>
      FoundIsResting(cfg, s, (clientId, clientOrderId));
      if s.Find((clientId, clientOrderId)).Some? {
        RemovedFacts(cfg, s, s.Find((clientId, clientOrderId)).value);
      }
    case Modify(clientId, clientOrderId, newPrice, newQty) =>
      FoundIsResting(cfg, s, (clientId, clientOrderId));
      if s.Find((clientId, clientOrderId)).Some? {
        var p := s.Find((clientId, clientOrderId)).value;
        o := AmendOld(cfg, s, p, OrElse(newPrice, p.price), OrElse(newQty, p.leavesQty), o');
      }
  }

  lemma NoFillsBut(cfg: Config, s: State, cmd: Command, id: nat)
    requires cfg.Valid() && !cmd.Place?
    ensures TradedBy(Step(cfg, s, cmd).events, id) == 0
  {
    hide State.Find, Removed, Rested, WithOrder, PriceToTick;
    var events := Step(cfg, s, cmd).events;
    assert |events| == 1 && !events[0].Fill?;
    NoFillNothing(events, id);
  }

  /** Nothing has been traded or trimmed under an id that is not given out yet. */
  lemma FutureIds(cfg: Config, s: State, cmd: Command, id: nat)
    requires cfg.Valid() && Inv(cfg, s) && id >= Step(cfg, s, cmd).state.nextId
    ensures TradedBy(Step(cfg, s, cmd).events, id) == 0 && TrimmedOff(cfg, s, cmd, id) == 0
  {
    hide Inv, Resting, PlaceOrder, FilledOf, TakenBy, State.Find, Amend, Removed;
    StepNextId(cfg, s, cmd);
    if cmd.Place? {
      NothingAhead(cfg, s, Opposite(cmd.side));
      PlaceTakes(cfg, s, cmd, id);
      MatchingTakesId(cfg, s, cmd);
    } else {
      NoFillsBut(cfg, s, cmd, id);
      if cmd.Modify? {
        FoundIsResting(cfg, s, (cmd.clientId, cmd.clientOrderId));
        if s.Find((cmd.clientId, cmd.clientOrderId)).Some? {
          IdsBelow(cfg, s, s.Find((cmd.clientId, cmd.clientOrderId)).value);
        }
      }
    }
  }

  lemma MatchingTakesId(cfg: Config, s: State, cmd: Command)
    requires cfg.Valid() && Inv(cfg, s) && cmd.Place?
    ensures Matches(cfg, s, cmd) ==> Step(cfg, s, cmd).state.nextId == s.nextId + 1
  {
    hide Inv, PlaceOrder, Match, Swept, Rested, Rests, Matches;
    PlaceStep(cfg, s, cmd);
    PlaceShape(cfg, s, cmd);
    SweptId(s.(nextId := s.nextId + 1), AggressorOf(cmd, s.nextId), PlaceSweep(cfg, s, cmd));
    if PlaceRests(cfg, s, cmd) {
      RestedId(cfg, AfterSweep(cfg, s, cmd), PlaceResidual(cfg, s, cmd));
    }
  }

  // ---------------------------------------------------------------- whole runs

  /** What order `id` has traded over a run from the empty exchange. */
  function Traded(cfg: Config, cmds: seq<Command>, id: nat): nat
    requires cfg.Valid()
    decreases |cmds|
  {
    if cmds == [] then 0
    else
      var before, last := cmds[..|cmds| - 1], cmds[|cmds| - 1];
      Traded(cfg, before, id) + TradedBy(Step(cfg, Run(cfg, EMPTY, before), last).events, id)
  }

  /** What in-place modifies have taken off it. */
  function Trimmed(cfg: Config, cmds: seq<Command>, id: nat): nat
    requires cfg.Valid()
    decreases |cmds|
  {
    if cmds == [] then 0
    else
      var before, last := cmds[..|cmds| - 1], cmds[|cmds| - 1];
      Trimmed(cfg, before, id) + TrimmedOff(cfg, Run(cfg, EMPTY, before), last, id)
  }

  lemma LastStep(cfg: Config, cmds: seq<Command>)
    requires cfg.Valid() && cmds != []
    ensures Run(cfg, EMPTY, cmds) == Step(cfg, Run(cfg, EMPTY, cmds[..|cmds| - 1]), cmds[|cmds| - 1]).state
    ensures Inv(cfg, Run(cfg, EMPTY, cmds[..|cmds| - 1]))
  {
    var before := cmds[..|cmds| - 1];
    EmptyInv(cfg);
    RunKeepsInv(cfg, EMPTY, before);
    assert cmds == before + [cmds[|cmds| - 1]];
    RunSnoc(cfg, EMPTY, before, cmds[|cmds| - 1]);
  }

  lemma {:induction false} FutureLedger(cfg: Config, cmds: seq<Command>, id: nat)
    requires cfg.Valid() && id >= Run(cfg, EMPTY, cmds).nextId
    ensures Traded(cfg, cmds, id) == 0 && Trimmed(cfg, cmds, id) == 0
    decreases |cmds|
  {
    hide Run, Step, Inv, TradedBy, TrimmedOff;
    if cmds != [] {
      var before, last := cmds[..|cmds| - 1], cmds[|cmds| - 1];
      LastStep(cfg, cmds);
      StepNextId(cfg, Run(cfg, EMPTY, before), last);
      FutureIds(cfg, Run(cfg, EMPTY, before), last, id);
      FutureLedger(cfg, before, id);
    }
  }

  /** Over every run: what a resting order shows as filled is what it has traded, on either side, and what
      in-place modifies have taken off it; so it is what it has traded exactly when there were none. */
  lemma {:induction false} FilledIsTradedAndTrimmed(cfg: Config, cmds: seq<Command>, o: Order)
    requires cfg.Valid() && Resting(Run(cfg, EMPTY, cmds), o)
    ensures o.filledQty == Traded(cfg, cmds, o.orderId) + Trimmed(cfg, cmds, o.orderId)
    ensures o.filledQty == Traded(cfg, cmds, o.orderId) <==> Trimmed(cfg, cmds, o.orderId) == 0
    decreases |cmds|
  {
    hide Step, Inv, TradedBy, TrimmedOff;
    if cmds == [] {
      assert false;
    } else {
      var before, last := cmds[..|cmds| - 1], cmds[|cmds| - 1];
      var s := Run(cfg, EMPTY, before);
      hide Run, Resting;
      LastStep(cfg, cmds);
      if !last.Place? {
        var p := OtherOld(cfg, s, last, o);
        NoFillsBut(cfg, s, last, o.orderId);
        FilledIsTradedAndTrimmed(cfg, before, p);
      } else if o.orderId < s.nextId {
        var p := PlaceOld(cfg, s, last, o);
        PlaceTrimsNothing(cfg, s, last, o.orderId);
        FilledIsTradedAndTrimmed(cfg, before, p);
      } else {
        PlaceNew(cfg, s, last, o);
        PlaceTrimsNothing(cfg, s, last, o.orderId);
        FutureLedger(cfg, before, o.orderId);
      }
    }
  }

  lemma PlaceTrimsNothing(cfg: Config, s: State, cmd: Command, id: nat)
    requires cfg.Valid() && cmd.Place?
    ensures TrimmedOff(cfg, s, cmd, id) == 0
  {
  }
}
