/**
  When a resting order that the index names loses its name.  There are two ways: another order comes to
  rest under its key, or a sweep completely fills an older order of its key, which the index had already
  ceased to name, and takes the key out of the index with it.
 */
module NameLaws {
  import opened Types
  import opened Exchange
  import opened ExchangeInvariant
  import opened SweepLaws
  import opened CrossingLaws
  import opened EventLaws
  import opened BookLaws
  import opened OrphanLaws
  import opened PlaceLaws

  ghost predicate Named(s: State, o: Order) {
    o.Key() in s.index && s.index[o.Key()] == o.orderId
  }

  /** The `i`-th order of the queue is filled completely: it crosses, and the quantity is enough for all up
      to and including it. */
  ghost predicate FilledAt(cfg: Config, a: Aggressor, q: seq<Order>, qty: nat, i: nat)
    requires cfg.Valid()
  {
    i < |q| && Crosses(cfg, a, TickOf(cfg, q[i])) && Leaves(q[..i + 1]) <= qty
  }

  /** ... and it has the key of `o` but is another order. */
  ghost predicate FilledNamesake(cfg: Config, a: Aggressor, q: seq<Order>, qty: nat, o: Order, i: nat)
    requires cfg.Valid()
  {
    FilledAt(cfg, a, q, qty, i) && q[i].Key() == o.Key() && q[i].orderId != o.orderId
  }

  ghost predicate FillsNamesake(cfg: Config, a: Aggressor, q: seq<Order>, qty: nat, o: Order)
    requires cfg.Valid()
  {
    exists i: nat :: FilledNamesake(cfg, a, q, qty, o, i)
  }

  /** The command takes the name of `o` away: this can be told from the state before it. */
  ghost predicate TakesName(cfg: Config, s: State, cmd: Command, o: Order)
    requires cfg.Valid()
  {
    cmd.Place? &&
    ((PlaceRests(cfg, s, cmd) && PlaceKey(cmd) == o.Key()) ||
     (Matches(cfg, s, cmd) &&
      FillsNamesake(cfg, AggressorOf(cmd, s.nextId), s.Queue(Opposite(cmd.side)), cmd.quantity, o)))
  }

  // ---------------------------------------------------------------- sweeps

  /** Exactly the first `k` orders of the queue are filled completely. */
  ghost predicate FilledUpTo(cfg: Config, a: Aggressor, q: seq<Order>, qty: nat, k: nat)
    requires cfg.Valid()
  {
    forall i: nat :: FilledAt(cfg, a, q, qty, i) <==> i < k
  }

  /** What rests has ids from the `k`-th order on. */
  ghost predicate IdsFrom(q: seq<Order>, rest: seq<Order>, k: nat) {
    forall p | p in rest :: exists j :: k <= j < |q| && p.orderId == q[j].orderId
  }

  /** The orders filled completely are the first of the queue; what rests comes after them. */
  lemma FilledAre(cfg: Config, s: State, a: Aggressor, qty: nat) returns (k: nat)
    requires cfg.Valid() && Inv(cfg, s)
    ensures var q := s.Queue(Opposite(a.side));
            && k <= |q| && Match(cfg, a, q, qty).filled == q[..k]
            && FilledUpTo(cfg, a, q, qty, k) && IdsFrom(q, Match(cfg, a, q, qty).rest, k)
  {
    var q := s.Queue(Opposite(a.side));
    hide Inv, SideOk, Match, Crosses, TickOf, Leaves, FillOf, IdsFrom, FilledUpTo;
    QueueOk(cfg, s, Opposite(a.side));
    PositiveLeaves(cfg, q, Opposite(a.side), s.nextId);
    var part: nat;
    k, part := SweepIsGreedy(cfg, a, q, qty);
    FillsUpTo(cfg, a, q, s.nextId, qty);
    RestIds(a, q, Match(cfg, a, q, qty), k, part);
  }

  lemma FillsUpTo(cfg: Config, a: Aggressor, q: seq<Order>, nextId: nat, qty: nat)
    requires cfg.Valid() && SideOk(cfg, q, Opposite(a.side), nextId)
    ensures FilledUpTo(cfg, a, q, qty, |Match(cfg, a, q, qty).filled|)
  {
    hide SideOk, Match, Crosses, TickOf, Leaves;
    forall i: nat
      ensures FilledAt(cfg, a, q, qty, i) <==> i < |Match(cfg, a, q, qty).filled|
    {
      SweepFills(cfg, a, q, nextId, qty, i);
    }
  }

  lemma RestIds(a: Aggressor, q: seq<Order>, sweep: Sweep, k: nat, part: nat)
    requires Greedy(a, q, sweep, k, part)
    ensures IdsFrom(q, sweep.rest, k)
  {
    hide FillOf;
    forall p | p in sweep.rest
      ensures exists j :: k <= j < |q| && p.orderId == q[j].orderId
    {
      var i :| 0 <= i < |sweep.rest| && sweep.rest[i] == p;
      assert p.orderId == q[k + i].orderId;
    }
  }

  lemma DistinctIds(cfg: Config, s: State)
    requires cfg.Valid() && Inv(cfg, s)
    ensures forall side, i, j | 0 <= i < j < |s.Queue(side)| :: s.Queue(side)[i].orderId != s.Queue(side)[j].orderId
    ensures forall side, p, r | p in s.Queue(side) && r in s.Queue(Opposite(side)) :: p.orderId != r.orderId
  {
    hide Rank, PriceToTick;
  }

  /** What is filled completely is gone. */
  lemma FilledIsGone(cfg: Config, s: State, a: Aggressor, qty: nat, k: nat, i: nat)
    requires cfg.Valid() && Inv(cfg, s)
    requires var q := s.Queue(Opposite(a.side));
             i < k <= |q| && IdsFrom(q, Match(cfg, a, q, qty).rest, k)
    ensures var q := s.Queue(Opposite(a.side)); Gone(Swept(s, a, Match(cfg, a, q, qty)), q[i].orderId)
  {
    var q := s.Queue(Opposite(a.side));
    DistinctIds(cfg, s);
    hide Inv, Match;
    var s' := Swept(s, a, Match(cfg, a, q, qty));
    assert q[i] in q;
    forall p | Resting(s', p)
      ensures p.orderId != q[i].orderId
    {
      if p in Match(cfg, a, q, qty).rest {
        var j :| k <= j < |q| && p.orderId == q[j].orderId;
      }
    }
  }

  /** Of a sweep: a named order that stays keeps its name exactly when no other order of its key is
      filled completely. */
  lemma SweptNamedIff(cfg: Config, s: State, a: Aggressor, qty: nat, o: Order)
    requires cfg.Valid() && Inv(cfg, s) && Resting(s, o) && Named(s, o)
    requires !Gone(Swept(s, a, Match(cfg, a, s.Queue(Opposite(a.side)), qty)), o.orderId)
    ensures var q := s.Queue(Opposite(a.side));
            Named(Swept(s, a, Match(cfg, a, q, qty)), o) <==> !FillsNamesake(cfg, a, q, qty, o)
  {
    hide Inv, Match, Crosses, TickOf, Leaves, Gone, Resting, FillsNamesake, KeysOf, FilledUpTo, IdsFrom, Swept;
    var q := s.Queue(Opposite(a.side));
    var k := FilledAre(cfg, s, a, qty);
    SweptIndex(s, a, Match(cfg, a, q, qty));
    forall i | 0 <= i < k
      ensures q[i].orderId != o.orderId
    {
      FilledIsGone(cfg, s, a, qty, k, i);
    }
    KeyAmongFilled(cfg, a, q, qty, k, o);
  }

  lemma KeyAmongFilled(cfg: Config, a: Aggressor, q: seq<Order>, qty: nat, k: nat, o: Order)
    requires cfg.Valid() && k <= |q|
    requires FilledUpTo(cfg, a, q, qty, k)
    requires forall i | 0 <= i < k :: q[i].orderId != o.orderId
    ensures o.Key() in KeysOf(q[..k]) <==> FillsNamesake(cfg, a, q, qty, o)
  {
    hide Crosses, TickOf, Leaves;
    if i: nat :| FilledNamesake(cfg, a, q, qty, o, i) {
      assert q[..k][i] == q[i];
    }
    if p :| p in q[..k] && p.Key() == o.Key() {
      var i: nat :| i < k && q[..k][i] == p;
      assert FilledAt(cfg, a, q, qty, i);
      assert FilledNamesake(cfg, a, q, qty, o, i);
    }
  }

  lemma SweptIndex(s: State, a: Aggressor, sweep: Sweep)
    ensures Swept(s, a, sweep).index == s.index - KeysOf(sweep.filled)
  {
  }

  // ---------------------------------------------------------------- every command

  lemma NextIdSameNames(s: State, o: Order)
    ensures var s0 := s.(nextId := s.nextId + 1);
            Named(s0, o) == Named(s, o) && Resting(s0, o) == Resting(s, o)
  {
  }

  lemma PlaceTakesName(cfg: Config, s: State, cmd: Command, o: Order)
    requires cfg.Valid() && Inv(cfg, s) && cmd.Place? && Resting(s, o) && Named(s, o)
    requires !Gone(PlaceOrder(cfg, s, cmd).state, o.orderId)
    ensures Named(PlaceOrder(cfg, s, cmd).state, o) <==> !TakesName(cfg, s, cmd, o)
  {
    hide Inv, PlaceOrder, Matches, Rests, Rested, Match, Swept, Fresh, Gone, Resting, FillsNamesake;
    PlaceShape(cfg, s, cmd);
    NextIdKeepsInv(cfg, s);
    NextIdSameNames(s, o);
    var s0, a := s.(nextId := s.nextId + 1), AggressorOf(cmd, s.nextId);
    assert s0.Queue(Opposite(cmd.side)) == s.Queue(Opposite(cmd.side));
    if Matches(cfg, s, cmd) {
      if PlaceRests(cfg, s, cmd) {
        var s1, o2 := AfterSweep(cfg, s, cmd), PlaceResidual(cfg, s, cmd);
        ResidualFresh(cfg, s, cmd);
        RestingLeaves(cfg, s, o);
        RestedNames(cfg, s1, o2, o);
      }
      SweptNamedIff(cfg, s0, a, cmd.quantity, o);
    }
  }

  /** A new order takes the name of its key, and brings no order back. */
  lemma RestedNames(cfg: Config, s: State, o2: Order, o: Order)
    requires cfg.Valid() && Inv(cfg, s) && Fresh(cfg, s, o2) && o2.orderId != o.orderId
    ensures Gone(s, o.orderId) ==> Gone(Rested(cfg, s, o2), o.orderId)
    ensures Named(Rested(cfg, s, o2), o) <==> Named(s, o) && o2.Key() != o.Key()
  {
    RestedFacts(cfg, s, o2);
    hide Inv, Resting, Rested, Fresh;
  }

  /** A cancel or modify takes no name from an order that stays. */
  lemma CancelOrModifyKeepsName(cfg: Config, s: State, cmd: Command, o: Order)
    requires cfg.Valid() && Inv(cfg, s) && !cmd.Place? && Resting(s, o) && Named(s, o)
    ensures Gone(Step(cfg, s, cmd).state, o.orderId) || Named(Step(cfg, s, cmd).state, o)
  {
    hide Inv, Resting, State.Find, Amend, Removed, Gone;
    match cmd
    case Cancel(clientId, clientOrderId) =>
      if s.Find((clientId, clientOrderId)).Some? {
        FoundOrOther(cfg, s, (clientId, clientOrderId), o);
        RemovedNames(cfg, s, s.Find((clientId, clientOrderId)).value, o);
      }
    case Modify(clientId, clientOrderId, newPrice, newQty) =>
      if s.Find((clientId, clientOrderId)).Some? {
        FoundOrOther(cfg, s, (clientId, clientOrderId), o);
        var p := s.Find((clientId, clientOrderId)).value;
        AmendedNames(cfg, s, p, OrElse(newPrice, p.price), OrElse(newQty, p.leavesQty), o);
      }
  }

  /** What a key finds is the named order, or has another key. */
  lemma FoundOrOther(cfg: Config, s: State, key: Key, o: Order)
    requires cfg.Valid() && Inv(cfg, s) && Resting(s, o) && Named(s, o) && s.Find(key).Some?
    ensures var p := s.Find(key).value; Resting(s, p) && (p == o || p.Key() != o.Key())
  {
    FoundIsResting(cfg, s, key);
    if key == o.Key() {
      SameIdSameOrder(cfg, s, o, s.Find(key).value);
    }
    hide Inv, Resting, State.Find;
  }

  lemma RemovedNames(cfg: Config, s: State, p: Order, o: Order)
    requires cfg.Valid() && Inv(cfg, s) && Resting(s, p) && Named(s, o) && (p == o || p.Key() != o.Key())
    ensures if p == o then Gone(Removed(s, p), o.orderId) else Named(Removed(s, p), o)
  {
    RemovedGone(cfg, s, p);
    RemovedFacts(cfg, s, p);
    hide Inv, Resting, Removed, Gone;
  }

  lemma AmendedNames(cfg: Config, s: State, p: Order, price: u64, leaves: nat, o: Order)
    requires cfg.Valid() && Inv(cfg, s) && Resting(s, p) && Named(s, o) && (p == o || p.Key() != o.Key())
    ensures var s' := Amend(cfg, s, p, price, leaves).state; Gone(s', o.orderId) || Named(s', o)
  {
    hide Inv, Resting, Removed, Rested, WithOrder, PriceToTick, Fresh, Gone;
    if leaves > 0 {
      if price == p.price && leaves <= p.leavesQty {
        ReplacedFacts(cfg, s, p, p.Reduced(p.leavesQty - leaves));
      } else {
        RemovedNames(cfg, s, p, o);
        if PriceToTick(cfg, price).Some? {
          var p' := Requeued(p, price, leaves);
          RequeueIsFresh(cfg, s, p, p');
          RestedFacts(cfg, Removed(s, p), p');
        }
      }
    }
  }

  /** After any command, a resting order that was named is gone, or is named still exactly when the
      command did not take its name. */
  lemma StepTakesName(cfg: Config, s: State, cmd: Command, o: Order)
    requires cfg.Valid() && Inv(cfg, s) && Resting(s, o) && Named(s, o)
    ensures var s' := Step(cfg, s, cmd).state;
            Gone(s', o.orderId) || (Named(s', o) <==> !TakesName(cfg, s, cmd, o))
  {
    hide Inv, Resting, PlaceOrder, Gone, TakesName;
    if cmd.Place? {
      PlaceStep(cfg, s, cmd);
      if !Gone(PlaceOrder(cfg, s, cmd).state, o.orderId) {
        PlaceTakesName(cfg, s, cmd, o);
      }
    } else {
      CancelOrModifyKeepsName(cfg, s, cmd, o);
      OnlyPlacesTake(cfg, s, cmd, o);
    }
  }

  lemma OnlyPlacesTake(cfg: Config, s: State, cmd: Command, o: Order)
    requires cfg.Valid() && !cmd.Place?
    ensures !TakesName(cfg, s, cmd, o)
  {
  }

  /** The order whose fill takes the name was itself without one. */
  lemma NamesakeIsNameless(cfg: Config, s: State, o: Order, p: Order)
    requires cfg.Valid() && Inv(cfg, s) && Named(s, o) && Resting(s, p) && p.Key() == o.Key() && p.orderId != o.orderId
    ensures Nameless(s, p.orderId)
  {
    UnnamedIsNameless(cfg, s, p);
    hide Inv, Resting, Nameless;
  }

  /** A resting order can be cancelled exactly when it is named: its client's cancel reports it cancelled and
      removes it, and otherwise leaves it as it is. */
  lemma CancelsIffNamed(cfg: Config, s: State, o: Order)
    requires cfg.Valid() && Inv(cfg, s) && Resting(s, o)
    ensures var r := Step(cfg, s, Cancel(o.clientId, o.clientOrderId));
            if Named(s, o)
            then r.events == [OrderCancelled(o.orderId, o.clientId, o.leavesQty)] && Gone(r.state, o.orderId)
            else Resting(r.state, o)
  {
    hide Inv, Resting, State.Find, Removed, Gone;
    FoundIsResting(cfg, s, o.Key());
    if Named(s, o) {
      SameIdSameOrder(cfg, s, o, s.Find(o.Key()).value);
      RemovedGone(cfg, s, o);
    } else {
      UnnamedIsNameless(cfg, s, o);
      CancelOrModifyKeeps(cfg, s, Cancel(o.clientId, o.clientOrderId), o);
    }
  }

  // ---------------------------------------------------------------- whole runs

  /** No command of the run takes the name of `o` while it rests. */
  ghost predicate NeverTaken(cfg: Config, s: State, cmds: seq<Command>, o: Order)
    requires cfg.Valid()
    decreases |cmds|
  {
    cmds == [] ||
    var s' := Step(cfg, s, cmds[0]).state;
    (Gone(s', o.orderId) || !TakesName(cfg, s, cmds[0], o)) && NeverTaken(cfg, s', cmds[1..], o)
  }

  /** As long as it rests, `o` is named: before the run and after each of its commands. */
  ghost predicate NamedWhileResting(cfg: Config, s: State, cmds: seq<Command>, o: Order)
    requires cfg.Valid()
    decreases |cmds|
  {
    && (Gone(s, o.orderId) || Named(s, o))
    && (cmds == [] || NamedWhileResting(cfg, Step(cfg, s, cmds[0]).state, cmds[1..], o))
  }

  /** What is gone has no entry in the index. */
  lemma GoneIsNameless(cfg: Config, s: State, id: nat)
    requires cfg.Valid() && Inv(cfg, s) && Gone(s, id)
    ensures Nameless(s, id)
  {
    hide Inv, Resting, State.Find;
    forall key | key in s.index
      ensures s.index[key] != id
    {
      FoundIsResting(cfg, s, key);
    }
  }

  lemma StepKeepsGone(cfg: Config, s: State, cmd: Command, o: Order)
    requires cfg.Valid() && Inv(cfg, s) && Gone(s, o.orderId) && o.orderId < s.nextId
    ensures Gone(Step(cfg, s, cmd).state, o.orderId)
  {
    hide Inv, Resting, PlaceOrder, Gone, Nameless;
    GoneIsNameless(cfg, s, o.orderId);
    if cmd.Place? {
      PlaceStep(cfg, s, cmd);
      PlaceKeeps(cfg, s, cmd, o);
    } else {
      CancelOrModifyKeeps(cfg, s, cmd, o);
    }
  }

  /** A named order, as it rests now; fills and modifies may have changed it since. */
  lemma NamedRests(cfg: Config, s: State, o: Order) returns (p: Order)
    requires cfg.Valid() && Inv(cfg, s) && Named(s, o)
    ensures Resting(s, p) && p.orderId == o.orderId && p.Key() == o.Key()
  {
    FoundIsResting(cfg, s, o.Key());
    p := s.Find(o.Key()).value;
    hide Inv, Resting, State.Find;
  }

  lemma SameName(cfg: Config, s: State, cmd: Command, o: Order, p: Order)
    requires cfg.Valid() && p.orderId == o.orderId && p.Key() == o.Key()
    ensures Named(s, o) == Named(s, p) && TakesName(cfg, s, cmd, o) == TakesName(cfg, s, cmd, p)
  {
    hide PlaceRests, Matches, TickOf, Crosses, Leaves;
    if cmd.Place? {
      var a, q := AggressorOf(cmd, s.nextId), s.Queue(Opposite(cmd.side));
      assert forall i: nat ::
               FilledNamesake(cfg, a, q, cmd.quantity, o, i) == FilledNamesake(cfg, a, q, cmd.quantity, p, i);
    }
  }

  /** An order is named for as long as it rests exactly when no command takes its name. */
  lemma {:induction false} RunNamedWhileResting(cfg: Config, s: State, cmds: seq<Command>, o: Order)
    requires cfg.Valid() && Inv(cfg, s) && o.orderId < s.nextId && (Gone(s, o.orderId) || Named(s, o))
    ensures NamedWhileResting(cfg, s, cmds, o) <==> NeverTaken(cfg, s, cmds, o)
    decreases |cmds|
  {
    hide Inv, Step, Gone, Named, TakesName, Resting;
    if cmds != [] {
      var s' := Step(cfg, s, cmds[0]).state;
      StepKeepsInv(cfg, s, cmds[0]);
      StepNextId(cfg, s, cmds[0]);
      if Gone(s, o.orderId) {
        StepKeepsGone(cfg, s, cmds[0], o);
      } else {
        var p := NamedRests(cfg, s, o);
        SameName(cfg, s, cmds[0], o, p);
        SameName(cfg, s', cmds[0], o, p);
        StepTakesName(cfg, s, cmds[0], p);
      }
      if Gone(s', o.orderId) || Named(s', o) {
        RunNamedWhileResting(cfg, s', cmds[1..], o);
      } else {
        TakenAtOnce(cfg, s', cmds[1..], o);
      }
    }
  }

  lemma TakenAtOnce(cfg: Config, s: State, cmds: seq<Command>, o: Order)
    requires cfg.Valid() && !Gone(s, o.orderId) && !Named(s, o)
    ensures !NamedWhileResting(cfg, s, cmds, o)
  {
    hide Gone, Named;
  }
}
