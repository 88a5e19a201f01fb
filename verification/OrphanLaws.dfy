/**
  What becomes of a resting order that the index does not name (`NameLaws` says how that comes about): it
  can never be cancelled or modified again; only fills change or remove it.
 */
module OrphanLaws {
  import opened Types
  import opened Exchange
  import opened ExchangeInvariant
  import opened SweepLaws
  import opened CrossingLaws
  import opened BookLaws

  /** No entry of the index names the internal id. */
  ghost predicate Nameless(s: State, id: nat) {
    forall key | key in s.index :: s.index[key] != id
  }

  /** A resting order that its own key does not name is not named at all. */
  lemma UnnamedIsNameless(cfg: Config, s: State, o: Order)
    requires cfg.Valid() && Inv(cfg, s) && Resting(s, o)
    ensures Nameless(s, o.orderId) <==> !(o.Key() in s.index && s.index[o.Key()] == o.orderId)
  {
    LocateRests(cfg, s, o);
    hide Inv, Resting, State.Locate;
    forall key | key in s.index && s.index[key] == o.orderId
      ensures key == o.Key()
    {
      FoundIsResting(cfg, s, key);
    }
  }

  lemma LocateRests(cfg: Config, s: State, o: Order)
    requires cfg.Valid() && Inv(cfg, s) && Resting(s, o)
    ensures s.Locate(o.orderId) == Some(o)
  {
    LocateMember(cfg, s, o);
  }

  // ---------------------------------------------------------------- fills of one order

  /** The quantity that the fills among the events take from the resting order `id`. */
  function FilledOf(events: seq<OutputEvent>, id: nat): nat {
    if events == [] then 0
    else
      (if events[0].Fill? && events[0].restingOrderId == id then events[0].quantity else 0) + FilledOf(events[1..], id)
  }

  lemma {:induction false} FilledOfConcat(a: seq<OutputEvent>, b: seq<OutputEvent>, id: nat)
    ensures FilledOf(a + b, id) == FilledOf(a, id) + FilledOf(b, id)
  {
    if a == [] {
      assert a + b == b;
    } else {
      assert (a + b)[1..] == a[1..] + b;
      FilledOfConcat(a[1..], b, id);
    }
  }

  lemma FilledOfOne(e: OutputEvent, id: nat)
    ensures FilledOf([e], id) == if e.Fill? && e.restingOrderId == id then e.quantity else 0
  {
  }

  ghost predicate Gone(s: State, id: nat) {
    forall p | Resting(s, p) :: p.orderId != id
  }

  /** From `s` to `s'`, exactly `filled` has been taken from order `o`, and it has left the book exactly
      if that is all of it. */
  ghost predicate Depleted(o: Order, s': State, filled: nat) {
    && filled <= o.leavesQty
    && if filled < o.leavesQty then Resting(s', o.Reduced(filled)) else Gone(s', o.orderId)
  }

  // ---------------------------------------------------------------- sweeps

  lemma {:induction false} GoneIsNotFilled(cfg: Config, a: Aggressor, q: seq<Order>, qty: nat, id: nat)
    requires cfg.Valid() && forall o | o in q :: o.orderId != id
    ensures FilledOf(Match(cfg, a, q, qty).events, id) == 0
    decreases |q|
  {
    hide Crosses, TickOf;
    if qty > 0 && q != [] && Crosses(cfg, a, TickOf(cfg, q[0])) {
      assert q[0] in q;
      if qty < q[0].leavesQty {
        FilledOfOne(FillOf(a, q[0], qty), id);
      } else {
        GoneIsNotFilled(cfg, a, q[1..], qty - q[0].leavesQty, id);
        var first := [FillOf(a, q[0], q[0].leavesQty)];
        FilledOfOne(first[0], id);
        FilledOfConcat(first, Match(cfg, a, q[1..], qty - q[0].leavesQty).events, id);
      }
    }
  }

  /** Nobody sweeps an order that is not there, and a sweep brings none back. */
  lemma SweptGone(cfg: Config, s: State, a: Aggressor, qty: nat, id: nat)
    requires cfg.Valid() && Inv(cfg, s) && Gone(s, id)
    ensures var sweep := Match(cfg, a, s.Queue(Opposite(a.side)), qty);
            FilledOf(sweep.events, id) == 0 && Gone(Swept(s, a, sweep), id)
  {
    var q := s.Queue(Opposite(a.side));
    SweepKeepsInv(cfg, s, a, qty);
    RestingSides(cfg, s);
    hide Match, Swept, Inv, Resting;
    GoneIsNotFilled(cfg, a, q, qty, id);
  }

  lemma HeadEvents(cfg: Config, a: Aggressor, q: seq<Order>, qty: nat, id: nat)
    requires cfg.Valid() && qty > 0 && q != [] && Crosses(cfg, a, TickOf(cfg, q[0]))
    ensures var fill := Min(qty, q[0].leavesQty);
            var rest := if qty < q[0].leavesQty then 0
                        else FilledOf(Match(cfg, a, q[1..], qty - q[0].leavesQty).events, id);
            FilledOf(Match(cfg, a, q, qty).events, id) == (if q[0].orderId == id then fill else 0) + rest
  {
    hide Crosses, TickOf;
    if qty < q[0].leavesQty {
      FilledOfOne(FillOf(a, q[0], qty), id);
    } else {
      var first := [FillOf(a, q[0], q[0].leavesQty)];
      FilledOfOne(first[0], id);
      FilledOfConcat(first, Match(cfg, a, q[1..], qty - q[0].leavesQty).events, id);
    }
  }

  lemma SameIdSameOrder(cfg: Config, s: State, o: Order, p: Order)
    requires cfg.Valid() && Inv(cfg, s) && Resting(s, o) && Resting(s, p) && o.orderId == p.orderId
    ensures o == p
  {
    LocateRests(cfg, s, o);
    LocateRests(cfg, s, p);
  }

  /** A sweep takes from each resting order exactly what its fills say. */
  lemma {:induction false} SweptDepletes(cfg: Config, s: State, a: Aggressor, qty: nat, o: Order)
    requires cfg.Valid() && Inv(cfg, s) && Resting(s, o) && o.leavesQty > 0
    ensures var sweep := Match(cfg, a, s.Queue(Opposite(a.side)), qty);
            Depleted(o, Swept(s, a, sweep), FilledOf(sweep.events, o.orderId))
    decreases s.Live()
  {
    var q := s.Queue(Opposite(a.side));
    hide Inv, Match, Swept, Crosses, TickOf, Resting, Removed, WithOrder, State.Live, FilledOf;
    if qty == 0 || q == [] || !Crosses(cfg, a, TickOf(cfg, q[0])) {
      SweepNone(cfg, s, a, qty);
      NoFills(cfg, a, q, qty, o.orderId);
      assert o.Reduced(0) == o;
    } else if qty < q[0].leavesQty {
      HeadEvents(cfg, a, q, qty, o.orderId);
      SweepPartial(cfg, s, a, qty);
      ReplacedFacts(cfg, s, q[0], q[0].Reduced(qty));
      if o.orderId == q[0].orderId {
        SameIdSameOrder(cfg, s, o, q[0]);
      } else {
        assert o.Reduced(0) == o;
      }
    } else {
      HeadEvents(cfg, a, q, qty, o.orderId);
      SweepHead(cfg, s, a, qty);
      KeptRemoved(cfg, s, q[0]);
      RemovedFacts(cfg, s, q[0]);
      var s1, left := Removed(s, q[0]), qty - q[0].leavesQty;
      if o.orderId == q[0].orderId {
        SameIdSameOrder(cfg, s, o, q[0]);
        RemovedGone(cfg, s, o);
        SweptGone(cfg, s1, a, left, o.orderId);
      } else {
        SweptDepletes(cfg, s1, a, left, o);
      }
    }
  }

  lemma NoFills(cfg: Config, a: Aggressor, q: seq<Order>, qty: nat, id: nat)
    requires cfg.Valid() && (qty == 0 || q == [] || !Crosses(cfg, a, TickOf(cfg, q[0])))
    ensures FilledOf(Match(cfg, a, q, qty).events, id) == 0
  {
    hide Crosses, TickOf;
  }

  lemma RemovedGone(cfg: Config, s: State, o: Order)
    requires cfg.Valid() && Inv(cfg, s) && Resting(s, o)
    ensures Gone(Removed(s, o), o.orderId)
  {
    RemovedBook(cfg, s, o);
  }

  // ---------------------------------------------------------------- a place

  lemma SweptNameless(s: State, a: Aggressor, sweep: Sweep, id: nat)
    requires Nameless(s, id)
    ensures Nameless(Swept(s, a, sweep), id)
  {
  }

  lemma RestEvents(cfg: Config, s: State, o2: Order, id: nat)
    requires cfg.Valid()
    ensures FilledOf(Rest(cfg, s, o2).events, id) == 0
  {
    hide Rested;
  }

  /** Another order coming to rest leaves this one alone. */
  lemma OtherRested(cfg: Config, s: State, p: Order, o: Order)
    requires cfg.Valid() && Inv(cfg, s) && Fresh(cfg, s, p) && p.orderId != o.orderId
    ensures Resting(s, o) ==> Resting(Rested(cfg, s, p), o)
    ensures Gone(s, o.orderId) ==> Gone(Rested(cfg, s, p), o.orderId)
    ensures Nameless(s, o.orderId) ==> Nameless(Rested(cfg, s, p), o.orderId)
  {
    RestedFacts(cfg, s, p);
    hide Inv, Resting, Rested, Fresh;
  }

  /** The second half of a placed limit order. */
  lemma RestKeeps(cfg: Config, s: State, o2: Order, o: Order, filled: nat)
    requires cfg.Valid() && Inv(cfg, s) && (o2.leavesQty > 0 ==> Fresh(cfg, s, o2)) && o2.orderId != o.orderId
    ensures Depleted(o, s, filled) ==> Depleted(o, Rest(cfg, s, o2).state, filled)
    ensures Gone(s, o.orderId) ==> Gone(Rest(cfg, s, o2).state, o.orderId)
    ensures Nameless(s, o.orderId) ==> Nameless(Rest(cfg, s, o2).state, o.orderId)
  {
    hide Inv, Resting, Gone, Nameless, Fresh, Rested;
    if o2.leavesQty > 0 {
      OtherRested(cfg, s, o2, o);
      if filled <= o.leavesQty {
        OtherRested(cfg, s, o2, o.Reduced(filled));
      }
    }
  }

  /** What a place that has its id does to a resting order, or to an id that is gone. */
  lemma AdmitKeeps(cfg: Config, s: State, a: Aggressor, cmd: Command, o: Order)
    requires cfg.Valid() && Inv(cfg, s) && cmd.Place? && a.orderId != o.orderId
    requires 1 <= a.orderId < s.nextId && forall p | Resting(s, p) :: p.orderId != a.orderId
    ensures var r := Admit(cfg, s, a, cmd);
            && (Resting(s, o) ==> Depleted(o, r.state, FilledOf(r.events, o.orderId)))
            && (Gone(s, o.orderId) ==> Gone(r.state, o.orderId) && FilledOf(r.events, o.orderId) == 0)
            && (Nameless(s, o.orderId) ==> Nameless(r.state, o.orderId))
  {
    hide Inv, Match, Swept, Resting, PriceToTick, Rested, Fresh, Depleted, Gone, Nameless, Rest;
    var sweep := Match(cfg, a, s.Queue(Opposite(a.side)), cmd.quantity);
    var s1 := Swept(s, a, sweep);
    SweepKeepsInv(cfg, s, a, cmd.quantity);
    if Nameless(s, o.orderId) { SweptNameless(s, a, sweep, o.orderId); }
    if Gone(s, o.orderId) { SweptGone(cfg, s, a, cmd.quantity, o.orderId); }
    if Resting(s, o) {
      RestingLeaves(cfg, s, o);
      SweptDepletes(cfg, s, a, cmd.quantity, o);
      NothingTaken(s, o);
    }
    if cmd.orderType == Market {
      var more := if sweep.left > 0 then [OrderCancelled(a.orderId, a.clientId, sweep.left)] else [];
      FilledOfConcat(sweep.events, more, o.orderId);
    } else if cmd.price.Some? && PriceToTick(cfg, cmd.price.value).Some? {
      var o2 := Residual(a, cmd.clientOrderId, cmd.price.value, cmd.quantity, sweep.left);
      if sweep.left > 0 { FreshAfterSweep(cfg, s, s1, o2); }
      RestKeeps(cfg, s1, o2, o, FilledOf(sweep.events, o.orderId));
      RestEvents(cfg, s1, o2, o.orderId);
      FilledOfConcat(sweep.events, Rest(cfg, s1, o2).events, o.orderId);
    }
  }

  lemma RestingLeaves(cfg: Config, s: State, o: Order)
    requires cfg.Valid() && Inv(cfg, s) && Resting(s, o)
    ensures o.leavesQty > 0 && o.orderId < s.nextId
  {
    hide Rank, PriceToTick;
  }

  lemma NothingTaken(s: State, o: Order)
    requires Resting(s, o) && o.leavesQty > 0
    ensures Depleted(o, s, 0)
  {
    assert o.Reduced(0) == o;
  }

  /** The same books and index, whatever the next id. */
  lemma NextIdKeeps(s: State, o: Order)
    ensures var s0 := s.(nextId := s.nextId + 1);
            && Gone(s0, o.orderId) == Gone(s, o.orderId) && Nameless(s0, o.orderId) == Nameless(s, o.orderId)
            && Resting(s0, o) == Resting(s, o)
  {
    assert forall p :: Resting(s.(nextId := s.nextId + 1), p) == Resting(s, p);
    hide Resting;
  }

  /** A place takes from every resting order exactly what its fills say, brings back none that is gone,
      and gives no name to an order that has none. */
  lemma PlaceKeeps(cfg: Config, s: State, cmd: Command, o: Order)
    requires cfg.Valid() && Inv(cfg, s) && cmd.Place? && o.orderId < s.nextId
    ensures var r := PlaceOrder(cfg, s, cmd);
            && (Resting(s, o) ==> Depleted(o, r.state, FilledOf(r.events, o.orderId)))
            && (Gone(s, o.orderId) ==> Gone(r.state, o.orderId) && FilledOf(r.events, o.orderId) == 0)
            && (Nameless(s, o.orderId) ==> Nameless(r.state, o.orderId))
  {
    hide Inv, Resting, State.OpenOrders, Admit, Depleted, Gone, Nameless;
    if Resting(s, o) {
      RestingLeaves(cfg, s, o);
      NothingTaken(s, o);
    }
    if cmd.quantity > 0 && s.OpenOrders(cmd.clientId) < MAX_OPEN_ORDERS {
      NextIdKeepsInv(cfg, s);
      NextIdPositive(cfg, s);
      NextIdKeeps(s, o);
      AdmitKeeps(cfg, s.(nextId := s.nextId + 1), AggressorOf(cmd, s.nextId), cmd, o);
    }
  }

  // ---------------------------------------------------------------- a cancel or modify

  /** Removing, replacing or re-queueing another order leaves this one alone. */
  lemma OtherRemoved(cfg: Config, s: State, p: Order, o: Order)
    requires cfg.Valid() && Inv(cfg, s) && Resting(s, p) && p.orderId != o.orderId
    ensures Resting(s, o) ==> Resting(Removed(s, p), o)
    ensures Gone(s, o.orderId) ==> Gone(Removed(s, p), o.orderId)
    ensures Nameless(s, o.orderId) ==> Nameless(Removed(s, p), o.orderId)
  {
    RemovedFacts(cfg, s, p);
    hide Inv, Resting, Removed;
  }

  lemma OtherReplaced(cfg: Config, s: State, p: Order, p': Order, o: Order)
    requires cfg.Valid() && Inv(cfg, s) && Resting(s, p) && SameButQuantities(p, p') && p'.leavesQty > 0
    requires p.orderId != o.orderId
    ensures Resting(s, o) ==> Resting(WithOrder(s, p'), o)
    ensures Gone(s, o.orderId) ==> Gone(WithOrder(s, p'), o.orderId)
    ensures Nameless(s, o.orderId) ==> Nameless(WithOrder(s, p'), o.orderId)
  {
    ReplacedFacts(cfg, s, p, p');
    hide Inv, Resting, WithOrder;
  }

  lemma OtherAmended(cfg: Config, s: State, p: Order, price: u64, leaves: nat, o: Order)
    requires cfg.Valid() && Inv(cfg, s) && Resting(s, p) && p.orderId != o.orderId
    ensures var r := Amend(cfg, s, p, price, leaves);
            && (Resting(s, o) ==> Resting(r.state, o))
            && (Gone(s, o.orderId) ==> Gone(r.state, o.orderId))
            && (Nameless(s, o.orderId) ==> Nameless(r.state, o.orderId))
            && FilledOf(r.events, o.orderId) == 0
  {
    hide Inv, Resting, Removed, Rested, WithOrder, PriceToTick, Fresh, Gone, Nameless;
    if leaves > 0 {
      if price == p.price && leaves <= p.leavesQty {
        OtherReplaced(cfg, s, p, p.Reduced(p.leavesQty - leaves), o);
      } else {
        OtherRemoved(cfg, s, p, o);
        if PriceToTick(cfg, price).Some? {
          var p' := Requeued(p, price, leaves);
          RequeueIsFresh(cfg, s, p, p');
          OtherRested(cfg, Removed(s, p), p', o);
        }
      }
    }
  }

  /** What a command names is never a nameless order. */
  lemma FoundIsOther(cfg: Config, s: State, key: Key, o: Order)
    requires cfg.Valid() && Inv(cfg, s) && Nameless(s, o.orderId) && s.Find(key).Some?
    ensures Resting(s, s.Find(key).value) && s.Find(key).value.orderId != o.orderId
  {
    FoundIsResting(cfg, s, key);
    hide Inv, Resting, State.Find;
  }

  /** A cancel or modify, of whatever key, leaves a nameless order exactly as it is. */
  lemma CancelOrModifyKeeps(cfg: Config, s: State, cmd: Command, o: Order)
    requires cfg.Valid() && Inv(cfg, s) && !cmd.Place? && Nameless(s, o.orderId)
    ensures var r := Step(cfg, s, cmd);
            && (Resting(s, o) ==> Resting(r.state, o))
            && (Gone(s, o.orderId) ==> Gone(r.state, o.orderId))
            && Nameless(r.state, o.orderId) && FilledOf(r.events, o.orderId) == 0
  {
    hide Inv, Resting, State.Find, Amend, Removed, Gone, Nameless;
    match cmd
    case Cancel(clientId, clientOrderId) =>
      if s.Find((clientId, clientOrderId)).Some? {
        FoundIsOther(cfg, s, (clientId, clientOrderId), o);
        OtherRemoved(cfg, s, s.Find((clientId, clientOrderId)).value, o);
      }
    case Modify(clientId, clientOrderId, newPrice, newQty) =>
      if s.Find((clientId, clientOrderId)).Some? {
        FoundIsOther(cfg, s, (clientId, clientOrderId), o);
        var p := s.Find((clientId, clientOrderId)).value;
        OtherAmended(cfg, s, p, OrElse(newPrice, p.price), OrElse(newQty, p.leavesQty), o);
      }
  }

  // ---------------------------------------------------------------- every command, every run

  lemma StepNextId(cfg: Config, s: State, cmd: Command)
    requires cfg.Valid()
    ensures s.nextId <= Step(cfg, s, cmd).state.nextId
  {
    hide Match, PriceToTick, State.Find, State.OpenOrders, Insert, Without, Replaced;
  }

  /** A nameless order keeps having no name; a cancel or modify leaves it as it is, and a place takes
      from it exactly what its fills say. */
  lemma StepOrphan(cfg: Config, s: State, cmd: Command, o: Order)
    requires cfg.Valid() && Inv(cfg, s) && Resting(s, o) && Nameless(s, o.orderId)
    ensures var r := Step(cfg, s, cmd);
            && Nameless(r.state, o.orderId) && Depleted(o, r.state, FilledOf(r.events, o.orderId))
            && (!cmd.Place? ==> Resting(r.state, o) && FilledOf(r.events, o.orderId) == 0)
  {
    hide Inv, Resting, PlaceOrder, Nameless, Depleted;
    RestingLeaves(cfg, s, o);
    if cmd.Place? {
      PlaceKeeps(cfg, s, cmd, o);
    } else {
      CancelOrModifyKeeps(cfg, s, cmd, o);
      NothingTaken(Step(cfg, s, cmd).state, o);
    }
  }

  /** The quantity that the fills of a whole run take from order `id`. */
  function RunFilledOf(cfg: Config, s: State, cmds: seq<Command>, id: nat): nat
    requires cfg.Valid()
    decreases |cmds|
  {
    if cmds == [] then 0
    else FilledOf(Step(cfg, s, cmds[0]).events, id) + RunFilledOf(cfg, Step(cfg, s, cmds[0]).state, cmds[1..], id)
  }

  /** What is gone, and has no name, stays gone: its id is never given out or named again. */
  lemma {:induction false} RunGone(cfg: Config, s: State, cmds: seq<Command>, o: Order)
    requires cfg.Valid() && Inv(cfg, s) && Gone(s, o.orderId) && Nameless(s, o.orderId) && o.orderId < s.nextId
    ensures Gone(Run(cfg, s, cmds), o.orderId) && Nameless(Run(cfg, s, cmds), o.orderId)
    ensures RunFilledOf(cfg, s, cmds, o.orderId) == 0
    decreases |cmds|
  {
    hide Inv, Step, Gone, Nameless;
    if cmds != [] {
      if cmds[0].Place? {
        PlaceStep(cfg, s, cmds[0]);
        PlaceKeeps(cfg, s, cmds[0], o);
      } else {
        CancelOrModifyKeeps(cfg, s, cmds[0], o);
      }
      StepNextId(cfg, s, cmds[0]);
      StepKeepsInv(cfg, s, cmds[0]);
      RunGone(cfg, Step(cfg, s, cmds[0]).state, cmds[1..], o);
    }
  }

  lemma PlaceStep(cfg: Config, s: State, cmd: Command)
    requires cfg.Valid() && cmd.Place?
    ensures Step(cfg, s, cmd) == PlaceOrder(cfg, s, cmd)
  {
    hide PlaceOrder;
  }

  /** Over every run, whatever is cancelled or modified: an order the index does not name is never named
      again, and all that happens to it is that fills take from it exactly what they say, until nothing
      is left. */
  lemma {:induction false} RunOrphan(cfg: Config, s: State, cmds: seq<Command>, o: Order)
    requires cfg.Valid() && Inv(cfg, s) && Resting(s, o) && Nameless(s, o.orderId)
    ensures Nameless(Run(cfg, s, cmds), o.orderId)
    ensures Depleted(o, Run(cfg, s, cmds), RunFilledOf(cfg, s, cmds, o.orderId))
    decreases |cmds|
  {
    hide Inv, Step, Gone, Nameless, Resting, FilledOf;
    RestingLeaves(cfg, s, o);
    if cmds == [] {
      NothingTaken(s, o);
    } else {
      var s1, taken := Step(cfg, s, cmds[0]).state, FilledOf(Step(cfg, s, cmds[0]).events, o.orderId);
      StepOrphan(cfg, s, cmds[0], o);
      StepKeepsInv(cfg, s, cmds[0]);
      StepNextId(cfg, s, cmds[0]);
      if taken < o.leavesQty {
        RunOrphan(cfg, s1, cmds[1..], o.Reduced(taken));
        var more := RunFilledOf(cfg, s1, cmds[1..], o.orderId);
        assert o.Reduced(taken).leavesQty == o.leavesQty - taken;
        if taken + more < o.leavesQty {
          assert o.Reduced(taken).Reduced(more) == o.Reduced(taken + more);
        }
      } else {
        RunGone(cfg, s1, cmds[1..], o);
      }
    }
  }
}
