/**
  Laws of the book as a whole: when the index names every order, and what a modify does to the queues.
 */
module BookLaws {
  import opened Types
  import opened Exchange
  import opened ExchangeInvariant
  import opened SweepLaws
  import opened CrossingLaws

  // ---------------------------------------------------------------- the index names every order

  /** Every resting order can be named by its key: nobody has reused a live id. */
  ghost predicate AllNamed(s: State) {
    forall o | Resting(s, o) :: o.Key() in s.index && s.index[o.Key()] == o.orderId
  }

  /** Then the index and the book are in bijection: keys find orders, and distinct orders have
      distinct keys. */
  lemma NamedBijection(cfg: Config, s: State)
    requires cfg.Valid() && Inv(cfg, s) && AllNamed(s)
    ensures forall o | Resting(s, o) :: s.Find(o.Key()) == Some(o)
    ensures forall key | key in s.index ::
              s.Find(key).Some? && Resting(s, s.Find(key).value) && s.Find(key).value.Key() == key
    ensures forall o, p | Resting(s, o) && Resting(s, p) && o.Key() == p.Key() :: o == p
  {
    hide Resting, State.Locate, BookOk, Limits;
    forall o | Resting(s, o)
      ensures s.Find(o.Key()) == Some(o)
    {
      LocateMember(cfg, s, o);
    }
    forall key | key in s.index
      ensures s.Find(key).Some? && Resting(s, s.Find(key).value) && s.Find(key).value.Key() == key
    {
      FoundIsResting(cfg, s, key);
    }
  }

  lemma RemovedFacts(cfg: Config, s: State, o: Order)
    requires cfg.Valid() && Inv(cfg, s) && Resting(s, o)
    ensures forall p :: Resting(Removed(s, o), p) <==> Resting(s, p) && p != o
    ensures Removed(s, o).index == s.index - {o.Key()}
  {
    RemovedBook(cfg, s, o);
  }

  lemma RemovedNamed(cfg: Config, s: State, o: Order)
    requires cfg.Valid() && Inv(cfg, s) && AllNamed(s) && Resting(s, o)
    ensures AllNamed(Removed(s, o))
  {
    hide Resting, Removed, State.Find, Inv;
    NamedBijection(cfg, s);
    RemovedFacts(cfg, s, o);
  }

  lemma ReplacedFacts(cfg: Config, s: State, o: Order, o': Order)
    requires cfg.Valid() && Inv(cfg, s) && Resting(s, o) && SameButQuantities(o, o') && o'.leavesQty > 0
    ensures forall p :: Resting(WithOrder(s, o'), p) <==> (Resting(s, p) && p != o) || p == o'
    ensures WithOrder(s, o').index == s.index
  {
    ReplacedBook(cfg, s, o, o');
  }

  lemma ReplacedNamed(cfg: Config, s: State, o: Order, o': Order)
    requires cfg.Valid() && Inv(cfg, s) && AllNamed(s) && Resting(s, o)
    requires SameButQuantities(o, o') && o'.leavesQty > 0
    ensures AllNamed(WithOrder(s, o'))
  {
    hide Resting, WithOrder, Inv;
    ReplacedFacts(cfg, s, o, o');
    assert o'.Key() == o.Key() && o'.orderId == o.orderId;
  }

  lemma {:induction false} SweptNamed(cfg: Config, s: State, a: Aggressor, qty: nat)
    requires cfg.Valid() && Inv(cfg, s) && AllNamed(s)
    ensures AllNamed(Swept(s, a, Match(cfg, a, s.Queue(Opposite(a.side)), qty)))
    decreases s.Live()
  {
    var q := s.Queue(Opposite(a.side));
    hide Inv, Match, Swept, Crosses, TickOf, Resting, Removed, WithOrder, AllNamed;
    if qty == 0 || q == [] || !Crosses(cfg, a, TickOf(cfg, q[0])) {
      SweepNone(cfg, s, a, qty);
    } else if qty < q[0].leavesQty {
      SweepPartial(cfg, s, a, qty);
      ReplacedNamed(cfg, s, q[0], q[0].Reduced(qty));
    } else {
      SweepHead(cfg, s, a, qty);
      KeptRemoved(cfg, s, q[0]);
      RemovedNamed(cfg, s, q[0]);
      SweptNamed(cfg, Removed(s, q[0]), a, qty - q[0].leavesQty);
    }
  }

  /** Resting a new order keeps every order named exactly when its key is not already in use. */
  lemma RestedNamed(cfg: Config, s: State, o: Order)
    requires cfg.Valid() && Inv(cfg, s) && AllNamed(s) && Fresh(cfg, s, o)
    ensures AllNamed(Rested(cfg, s, o)) <==> o.Key() !in s.index
  {
    hide Resting, Rested, State.Find, Inv, Fresh;
    NamedBijection(cfg, s);
    FreshIds(cfg, s, o);
    RestedFacts(cfg, s, o);
    if o.Key() in s.index {
      var p := s.Find(o.Key()).value;
      assert Resting(Rested(cfg, s, o), p) && p.Key() == o.Key() && p.orderId != o.orderId;
    }
  }

  lemma RestedFacts(cfg: Config, s: State, o: Order)
    requires cfg.Valid() && Inv(cfg, s) && Fresh(cfg, s, o)
    ensures forall p :: Resting(Rested(cfg, s, o), p) <==> Resting(s, p) || p == o
    ensures Rested(cfg, s, o).index == s.index[o.Key() := o.orderId]
  {
    RestedBook(cfg, s, o);
  }

  lemma FreshIds(cfg: Config, s: State, o: Order)
    requires cfg.Valid() && Fresh(cfg, s, o)
    ensures forall p | Resting(s, p) :: p.orderId != o.orderId
  {
  }

  /** A limit order would rest under a key that names an order still resting after its sweep: one that
      it does not cross, or that is on its own side. */
  ghost predicate Clashes(cfg: Config, s: State, a: Aggressor, key: Key, quantity: nat)
    requires cfg.Valid()
  {
    && Rests(cfg, s, a, quantity) && s.Find(key).Some?
    && var o := s.Find(key).value; o.side == a.side || !Crosses(cfg, a, TickOf(cfg, o))
  }

  /** Which keys a sweep takes out of the index: those of the orders that cross. */
  lemma KeyAfterSweep(cfg: Config, s: State, a: Aggressor, qty: nat, key: Key, k: nat)
    requires cfg.Valid() && Inv(cfg, s) && AllNamed(s)
    requires var q := s.Queue(Opposite(a.side));
             && k <= |q| && Match(cfg, a, q, qty).filled == q[..k]
             && forall i | 0 <= i < |q| :: Crosses(cfg, a, TickOf(cfg, q[i])) <==> i < k
    ensures key in Swept(s, a, Match(cfg, a, s.Queue(Opposite(a.side)), qty)).index <==>
            && s.Find(key).Some?
            && var o := s.Find(key).value; o.side == a.side || !Crosses(cfg, a, TickOf(cfg, o))
  {
    var q := s.Queue(Opposite(a.side));
    FoundIsResting(cfg, s, key);
    hide Match, Crosses, TickOf, Inv, State.Find, AllNamed;
    if key in s.index {
      var o := s.Find(key).value;
      KeyInQueue(cfg, s, Opposite(a.side), o, key);
      KeyAmong(cfg, a, q, o, key, k);
    }
  }

  /** The order of a key is in the queue of its side, and no other order has the key. */
  lemma KeyInQueue(cfg: Config, s: State, side: Side, o: Order, key: Key)
    requires cfg.Valid() && Inv(cfg, s) && AllNamed(s) && Resting(s, o) && o.Key() == key
    ensures o in s.Queue(side) <==> o.side == side
    ensures forall p | p in s.Queue(side) && p.Key() == key :: p == o
  {
    NamedBijection(cfg, s);
    RestingSides(cfg, s);
    hide Inv, AllNamed, State.Find, Resting;
  }

  lemma KeyAmong(cfg: Config, a: Aggressor, q: seq<Order>, o: Order, key: Key, k: nat)
    requires cfg.Valid() && k <= |q| && o.Key() == key
    requires forall i | 0 <= i < |q| :: Crosses(cfg, a, TickOf(cfg, q[i])) <==> i < k
    requires forall p | p in q && p.Key() == key :: p == o
    ensures key in KeysOf(q[..k]) <==> o in q && Crosses(cfg, a, TickOf(cfg, o))
  {
    hide Crosses, TickOf;
    if o in q {
      var i :| 0 <= i < |q| && q[i] == o;
      if i < k { assert q[..k][i] == o; }
    }
    forall p | p in q[..k]
      ensures p in q && Crosses(cfg, a, TickOf(cfg, p))
    {
      var i :| 0 <= i < k && q[..k][i] == p;
      assert q[i] == p;
    }
  }

  lemma RestingSides(cfg: Config, s: State)
    requires cfg.Valid() && Inv(cfg, s)
    ensures forall o, side | o in s.Queue(side) :: Resting(s, o) && o.side == side
    ensures forall o | Resting(s, o) :: o in s.Queue(o.side)
  {
    hide Rank, PriceToTick;
  }

  /** A placed limit order keeps every order named exactly when it does not clash with one that stays. */
  lemma PlaceLimitNamed(cfg: Config, s: State, a: Aggressor, clientOrderId: u64, price: u64, quantity: nat)
    requires cfg.Valid() && Inv(cfg, s) && AllNamed(s) && PriceToTick(cfg, price).Some?
    requires 1 <= a.orderId < s.nextId && forall p | Resting(s, p) :: p.orderId != a.orderId
    ensures AllNamed(PlaceLimit(cfg, s, a, clientOrderId, price, quantity).state) <==>
            !Clashes(cfg, s, a, (a.clientId, clientOrderId), quantity)
  {
    hide Inv, Match, Swept, Resting, PriceToTick, Rested, Fresh, AllNamed, SideOk, CrossingLeaves, State.Find,
         State.Live, Crosses, TickOf;
    SweptNamed(cfg, s, a, quantity);
    SweepKeepsInv(cfg, s, a, quantity);
    var q, key := s.Queue(Opposite(a.side)), (a.clientId, clientOrderId);
    var sweep := Match(cfg, a, q, quantity);
    var s1 := Swept(s, a, sweep);
    var o := Residual(a, clientOrderId, price, quantity, sweep.left);
    QueueOk(cfg, s, Opposite(a.side));
    SweepTakesAll(cfg, a, q, quantity, s.nextId);
    if sweep.left > 0 {
      var k := SweepLeavesOver(cfg, s, a, quantity);
      LiveWithin(cfg, s);
      KeyAfterSweep(cfg, s, a, quantity, key, k);
      FreshAfterSweep(cfg, s, s1, o);
      RestedNamed(cfg, s1, o);
    }
  }

  lemma AmendNamed(cfg: Config, s: State, o: Order, price: u64, leaves: nat)
    requires cfg.Valid() && Inv(cfg, s) && AllNamed(s) && Resting(s, o)
    ensures AllNamed(Amend(cfg, s, o, price, leaves).state)
  {
    hide Inv, Resting, Removed, Rested, WithOrder, PriceToTick, AllNamed, Fresh;
    if leaves > 0 {
      if price == o.price && leaves <= o.leavesQty {
        ReplacedNamed(cfg, s, o, o.Reduced(o.leavesQty - leaves));
      } else {
        RemovedNamed(cfg, s, o);
        if PriceToTick(cfg, price).Some? {
          var o' := Requeued(o, price, leaves);
          RequeueIsFresh(cfg, s, o, o');
          KeyGone(s, o);
          RestedNamed(cfg, Removed(s, o), o');
        }
      }
    }
  }

  lemma KeyGone(s: State, o: Order)
    ensures o.Key() !in Removed(s, o).index
  {
  }

  /** A place command that is let in, is a limit order on the ladder, and clashes. */
  ghost predicate Reuses(cfg: Config, s: State, cmd: Command)
    requires cfg.Valid()
  {
    && cmd.Place? && cmd.orderType == Limit && cmd.price.Some? && PriceToTick(cfg, cmd.price.value).Some?
    && s.OpenOrders(cmd.clientId) < MAX_OPEN_ORDERS
    && Clashes(cfg, s, AggressorOf(cmd, s.nextId), (cmd.clientId, cmd.clientOrderId), cmd.quantity)
  }

  lemma NextIdClashes(cfg: Config, s: State, a: Aggressor, key: Key, quantity: nat)
    requires cfg.Valid()
    ensures Clashes(cfg, s.(nextId := s.nextId + 1), a, key, quantity) == Clashes(cfg, s, a, key, quantity)
    ensures quantity == 0 ==> !Clashes(cfg, s, a, key, quantity)
  {
    hide TickOf, Crosses, CrossingLeaves;
  }

  /** A place keeps every order named exactly when it does not reuse the id of an order that stays. */
  lemma PlaceNamed(cfg: Config, s: State, cmd: Command)
    requires cfg.Valid() && Inv(cfg, s) && AllNamed(s) && cmd.Place?
    ensures AllNamed(PlaceOrder(cfg, s, cmd).state) <==> !Reuses(cfg, s, cmd)
  {
    hide Inv, Resting, State.OpenOrders, AllNamed, Match, Swept, PlaceLimit, PriceToTick, Clashes;
    NextIdKeepsInv(cfg, s);
    NextIdPositive(cfg, s);
    var s0, a := s.(nextId := s.nextId + 1), AggressorOf(cmd, s.nextId);
    NextIdNamed(s);
    NextIdClashes(cfg, s, a, (cmd.clientId, cmd.clientOrderId), cmd.quantity);
    if cmd.orderType == Market {
      SweptNamed(cfg, s0, a, cmd.quantity);
    } else if cmd.price.Some? && PriceToTick(cfg, cmd.price.value).Some? {
      PlaceLimitNamed(cfg, s0, a, cmd.clientOrderId, cmd.price.value, cmd.quantity);
    }
  }

  lemma NextIdNamed(s: State)
    requires AllNamed(s)
    ensures AllNamed(s.(nextId := s.nextId + 1))
  {
    var s0 := s.(nextId := s.nextId + 1);
    assert forall p :: Resting(s0, p) <==> Resting(s, p);
    hide Resting;
  }

  /** Only a place can take the name of a resting order. */
  lemma StepNamed(cfg: Config, s: State, cmd: Command)
    requires cfg.Valid() && Inv(cfg, s) && AllNamed(s)
    ensures AllNamed(Step(cfg, s, cmd).state) <==> !Reuses(cfg, s, cmd)
  {
    hide Inv, Resting, State.Find, PlaceOrder, Amend, Removed, AllNamed, Clashes;
    match cmd
    case Place(_, _, _, _, _, _, _, _) =>
      PlaceNamed(cfg, s, cmd);
    case Cancel(clientId, clientOrderId) =>
      FoundIsResting(cfg, s, (clientId, clientOrderId));
      if s.Find((clientId, clientOrderId)).Some? {
        RemovedNamed(cfg, s, s.Find((clientId, clientOrderId)).value);
      }
    case Modify(clientId, clientOrderId, newPrice, newQty) =>
      FoundIsResting(cfg, s, (clientId, clientOrderId));
      if s.Find((clientId, clientOrderId)).Some? {
        var o := s.Find((clientId, clientOrderId)).value;
        AmendNamed(cfg, s, o, OrElse(newPrice, o.price), OrElse(newQty, o.leavesQty));
      }
  }

  /** No command of the run takes the name of a resting order. */
  ghost predicate NoReuse(cfg: Config, s: State, cmds: seq<Command>)
    requires cfg.Valid()
    decreases |cmds|
  {
    cmds == [] || (!Reuses(cfg, s, cmds[0]) && NoReuse(cfg, Step(cfg, s, cmds[0]).state, cmds[1..]))
  }

  /** Every resting order is named before the run and after each of its commands. */
  ghost predicate NamedThroughout(cfg: Config, s: State, cmds: seq<Command>)
    requires cfg.Valid()
    decreases |cmds|
  {
    AllNamed(s) && (cmds == [] || NamedThroughout(cfg, Step(cfg, s, cmds[0]).state, cmds[1..]))
  }

  /** The index names every resting order throughout a run exactly when nobody reuses a live id. */
  lemma {:induction false} RunNamed(cfg: Config, s: State, cmds: seq<Command>)
    requires cfg.Valid() && Inv(cfg, s) && AllNamed(s)
    ensures NamedThroughout(cfg, s, cmds) <==> NoReuse(cfg, s, cmds)
    decreases |cmds|
  {
    hide Inv, Step, AllNamed, Reuses;
    if cmds != [] {
      StepNamed(cfg, s, cmds[0]);
      StepKeepsInv(cfg, s, cmds[0]);
      if AllNamed(Step(cfg, s, cmds[0]).state) {
        RunNamed(cfg, Step(cfg, s, cmds[0]).state, cmds[1..]);
      } else {
        UnnamedAtOnce(cfg, Step(cfg, s, cmds[0]).state, cmds[1..]);
      }
    }
  }

  lemma UnnamedAtOnce(cfg: Config, s: State, cmds: seq<Command>)
    requires cfg.Valid() && !AllNamed(s)
    ensures !NamedThroughout(cfg, s, cmds)
  {
  }

  /** The keys a run places orders under are new to the index, and all different. */
  ghost predicate NewKeys(s: State, cmds: seq<Command>) {
    && (forall i | 0 <= i < |cmds| && cmds[i].Place? :: PlaceKey(cmds[i]) !in s.index)
    && (forall i, j | 0 <= i < j < |cmds| && cmds[i].Place? && cmds[j].Place? :: PlaceKey(cmds[i]) != PlaceKey(cmds[j]))
  }

  function PlaceKey(cmd: Command): Key
    requires cmd.Place?
  {
    (cmd.clientId, cmd.clientOrderId)
  }

  /** No command brings a key into the index but a place its own. */
  lemma StepKeys(cfg: Config, s: State, cmd: Command, key: Key)
    requires cfg.Valid() && Inv(cfg, s) && key in Step(cfg, s, cmd).state.index
    ensures key in s.index || (cmd.Place? && key == PlaceKey(cmd))
  {
    hide Inv, Match, PriceToTick, State.Find, State.OpenOrders, Insert, Without, Replaced;
    match cmd
    case Modify(clientId, clientOrderId, _, _) =>
      FoundIsResting(cfg, s, (clientId, clientOrderId));
    case _ =>
  }

  /** Clients that never place two orders under one id reuse none: what they were doing before does not
      matter, nor what the orders meet. */
  lemma {:induction false} NewKeysNoReuse(cfg: Config, s: State, cmds: seq<Command>)
    requires cfg.Valid() && Inv(cfg, s) && NewKeys(s, cmds)
    ensures NoReuse(cfg, s, cmds)
    decreases |cmds|
  {
    hide Inv, Step, Reuses;
    if cmds != [] {
      NewKeyIsNoReuse(cfg, s, cmds[0]);
      StepKeepsInv(cfg, s, cmds[0]);
      var s1, rest := Step(cfg, s, cmds[0]).state, cmds[1..];
      forall i | 0 <= i < |rest| && rest[i].Place?
        ensures PlaceKey(rest[i]) !in s1.index
      {
        assert rest[i] == cmds[i + 1];
        if PlaceKey(rest[i]) in s1.index {
          StepKeys(cfg, s, cmds[0], PlaceKey(rest[i]));
        }
      }
      assert forall i | 0 <= i < |rest| :: rest[i] == cmds[i + 1];
      NewKeysNoReuse(cfg, s1, rest);
    }
  }

  lemma NewKeyIsNoReuse(cfg: Config, s: State, cmd: Command)
    requires cfg.Valid() && (cmd.Place? ==> PlaceKey(cmd) !in s.index)
    ensures !Reuses(cfg, s, cmd)
  {
    hide PriceToTick, TickOf, Crosses, CrossingLeaves, State.OpenOrders;
  }

  // ---------------------------------------------------------------- queue order

  /** Replacing an order of the queue by one of the same id changes that place alone. */
  lemma ReplacedInPlace(cfg: Config, q: seq<Order>, side: Side, nextId: nat, o: Order, o': Order)
    requires cfg.Valid() && SideOk(cfg, q, side, nextId) && o in q && o'.orderId == o.orderId
    ensures |Replaced(q, o')| == |q|
    ensures forall i | 0 <= i < |q| :: Replaced(q, o')[i] == if q[i] == o then o' else q[i]
  {
    hide Rank, PriceToTick, Position;
    var k :| 0 <= k < |q| && q[k] == o;
    PositionOf(q, k);
  }

  /** An in-place reduction moves nobody: the same ids in the same places. */
  lemma ReductionKeepsOrder(cfg: Config, s: State, o: Order, leaves: nat)
    requires cfg.Valid() && Inv(cfg, s) && Resting(s, o) && 0 < leaves <= o.leavesQty
    ensures var s' := Amend(cfg, s, o, o.price, leaves).state;
            && s'.Queue(Opposite(o.side)) == s.Queue(Opposite(o.side))
            && |s'.Queue(o.side)| == |s.Queue(o.side)|
            && forall i | 0 <= i < |s.Queue(o.side)| ::
                 s'.Queue(o.side)[i] == if s.Queue(o.side)[i] == o then o.Reduced(o.leavesQty - leaves)
                     else s.Queue(o.side)[i]
  {
    hide Inv, PriceToTick, Replaced, SideOk, Removed, Rested;
    QueueOk(cfg, s, o.side);
    ReplacedInPlace(cfg, s.Queue(o.side), o.side, s.nextId, o, o.Reduced(o.leavesQty - leaves));
  }

  lemma InsertedAt(cfg: Config, q: seq<Order>, side: Side, nextId: nat, o: Order) returns (k: nat)
    requires cfg.Valid() && SideOk(cfg, q, side, nextId)
    ensures var q' := Insert(cfg, q, o);
            && k < |q'| && q'[k] == o && q'[..k] + q'[k + 1..] == q
            && (forall i | 0 <= i < k :: Rank(cfg, q'[i]) <= Rank(cfg, o))
            && (forall i | k < i < |q'| :: Rank(cfg, o) < Rank(cfg, q'[i]))
  {
    hide Rank, InsertionPoint, PriceToTick;
    k := InsertionPoint(cfg, q, o);
    var q' := q[..k] + [o] + q[k..];
    assert q'[..k] == q[..k] && q'[k + 1..] == q[k..];
    forall i | k < i < |q'|
      ensures Rank(cfg, o) < Rank(cfg, q'[i])
    {
      assert q'[i] == q[i - 1];
      if k < i - 1 {
        assert Rank(cfg, q[k]) <= Rank(cfg, q[i - 1]);
      }
    }
  }

  /** A re-queued order goes behind every order of its new tick or better and ahead of every order of a
      worse tick, under its old internal id; all other orders keep their relative order. */
  lemma RequeueGoesToTail(cfg: Config, s: State, o: Order, price: u64, leaves: nat) returns (k: nat)
    requires cfg.Valid() && Inv(cfg, s) && Resting(s, o) && Requeues(cfg, o, price, leaves)
    ensures var r := Amend(cfg, s, o, price, leaves);
            var q, q' := s.Queue(o.side), r.state.Queue(o.side);
            && r.events == [OrderModified(o.orderId, o.clientId, price, leaves)]
            && k < |q'| && q'[k].orderId == o.orderId && q'[k].price == price && q'[k].leavesQty == leaves
            && (forall i | 0 <= i < k :: Rank(cfg, q'[i]) <= Rank(cfg, q'[k]))
            && (forall i | k < i < |q'| :: Rank(cfg, q'[k]) < Rank(cfg, q'[i]))
            && q'[..k] + q'[k + 1..] == Without(q, o.orderId)
            && r.state.Queue(Opposite(o.side)) == s.Queue(Opposite(o.side))
  {
    hide Rank, Inv, Without, Insert, PriceToTick, SideOk;
    RemovedKeepsInv(cfg, s, o);
    QueueOk(cfg, Removed(s, o), o.side);
    k := InsertedAt(cfg, Without(s.Queue(o.side), o.orderId), o.side, s.nextId, Requeued(o, price, leaves));
  }

  // ---------------------------------------------------------------- rejected modifies

  /** A modify is rejected exactly when it asks for nothing to be left or for a price off the ladder; it
      leaves the exchange as it was in the first case only, and destroys the order otherwise. */
  lemma RejectedModify(cfg: Config, s: State, o: Order, price: u64, leaves: nat)
    requires cfg.Valid() && Inv(cfg, s) && Resting(s, o)
    ensures var r := Amend(cfg, s, o, price, leaves);
            && (r.events == [ModifyRejected(o.orderId, o.clientId)] <==> leaves == 0 || PriceToTick(cfg, price).None?)
            && (r.events == [ModifyRejected(o.orderId, o.clientId)] ==>
                  && (r.state == s <==> leaves == 0)
                  && (leaves > 0 ==> r.state.Locate(o.orderId) == None && r.state.Find(o.Key()) == None))
  {
    OnLadder(cfg, s, o);
    RemovedKeepsInv(cfg, s, o);
    RemovedBook(cfg, s, o);
    KeyGone(s, o);
    hide Inv, Resting, PriceToTick, Rested, Removed, WithOrder, State.Locate;
    if Removed(s, o).Locate(o.orderId).Some? {
      LocatedRests(cfg, Removed(s, o), o.orderId);
    }
  }

  lemma OnLadder(cfg: Config, s: State, o: Order)
    requires cfg.Valid() && Inv(cfg, s) && Resting(s, o)
    ensures PriceToTick(cfg, o.price).Some?
  {
    hide Rank, PriceToTick;
  }

  lemma LocatedRests(cfg: Config, s: State, id: nat)
    requires cfg.Valid() && Inv(cfg, s) && s.Locate(id).Some?
    ensures Resting(s, s.Locate(id).value) && s.Locate(id).value.orderId == id
  {
    LocateIsMember(cfg, s, id);
  }
}
