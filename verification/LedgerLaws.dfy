/**
  Conservation of quantity.  Every unit that reaches matching is traded, rests, is cancelled, is
  dropped because the arena is full, or is amended away; a trade uses a unit of each side.
 */
module LedgerLaws {
  import opened Types
  import opened Exchange
  import opened ExchangeInvariant
  import opened CrossingLaws

  // ---------------------------------------------------------------- what the events say

  /** Total quantity of the fills. */
  function Filled(events: seq<OutputEvent>): nat {
    if events == [] then 0
    else (if events[0].Fill? then events[0].quantity else 0) + Filled(events[1..])
  }

  /** Total quantity reported cancelled: by a cancel, or as the rest of a market order. */
  function Cancelled(events: seq<OutputEvent>): nat {
    if events == [] then 0
    else (if events[0].OrderCancelled? then events[0].leavesQty else 0) + Cancelled(events[1..])
  }

  lemma {:induction false} EventsConcat(a: seq<OutputEvent>, b: seq<OutputEvent>)
    ensures Filled(a + b) == Filled(a) + Filled(b)
    ensures Cancelled(a + b) == Cancelled(a) + Cancelled(b)
  {
    if a == [] {
      assert a + b == b;
    } else {
      assert (a + b)[1..] == a[1..] + b;
      EventsConcat(a[1..], b);
    }
  }

  // ---------------------------------------------------------------- what the commands move

  /** All the open quantity in the book. */
  function Open(s: State): nat {
    Leaves(s.bids) + Leaves(s.asks)
  }

  /** The quantity a command brings to matching. */
  function Entered(cfg: Config, s: State, cmd: Command): nat
    requires cfg.Valid()
  {
    if cmd.Place? && s.OpenOrders(cmd.clientId) < MAX_OPEN_ORDERS
       && (cmd.orderType == Market || (cmd.price.Some? && PriceToTick(cfg, cmd.price.value).Some?))
    then cmd.quantity else 0
  }

  /** The residual of a limit order for which the arena has no slot. */
  function Dropped(cfg: Config, s: State, cmd: Command): nat
    requires cfg.Valid()
  {
    if cmd.Place? && cmd.orderType == Limit && Entered(cfg, s, cmd) > 0 then
      var s0, a := s.(nextId := s.nextId + 1), AggressorOf(cmd, s.nextId);
      var sweep := Match(cfg, a, s.Queue(Opposite(cmd.side)), cmd.quantity);
      if Swept(s0, a, sweep).Live() >= cfg.capacity then sweep.left else 0
    else 0
  }

  /** The quantity a modify takes out of the book; negative where it adds. */
  function Amended(cfg: Config, s: State, cmd: Command): int
    requires cfg.Valid()
  {
    if cmd.Modify? && s.Find((cmd.clientId, cmd.clientOrderId)).Some? then
      var o := s.Find((cmd.clientId, cmd.clientOrderId)).value;
      var price, leaves := OrElse(cmd.newPrice, o.price), OrElse(cmd.newQty, o.leavesQty);
      if leaves == 0 then 0
      else if (price != o.price || leaves > o.leavesQty) && PriceToTick(cfg, price).None? then o.leavesQty
      else o.leavesQty - leaves
    else 0
  }

  // ---------------------------------------------------------------- one sweep

  lemma {:induction false} SweepLedger(cfg: Config, a: Aggressor, q: seq<Order>, qty: nat)
    requires cfg.Valid()
    ensures var sweep := Match(cfg, a, q, qty);
            && Leaves(q) == Leaves(sweep.rest) + Filled(sweep.events)
            && qty == Filled(sweep.events) + sweep.left
            && Cancelled(sweep.events) == 0
    decreases |q|
  {
    hide Crosses, TickOf;
    if qty == 0 || q == [] || !Crosses(cfg, a, TickOf(cfg, q[0])) {
    } else if qty < q[0].leavesQty {
      assert ([q[0].Reduced(qty)] + q[1..])[1..] == q[1..];
      FilledOne(FillOf(a, q[0], qty), []);
    } else {
      SweepLedger(cfg, a, q[1..], qty - q[0].leavesQty);
      FilledOne(FillOf(a, q[0], q[0].leavesQty), Match(cfg, a, q[1..], qty - q[0].leavesQty).events);
    }
  }

  lemma FilledOne(e: OutputEvent, rest: seq<OutputEvent>)
    ensures Filled([e] + rest) == (if e.Fill? then e.quantity else 0) + Filled(rest)
    ensures Cancelled([e] + rest) == (if e.OrderCancelled? then e.leavesQty else 0) + Cancelled(rest)
  {
    assert ([e] + rest)[1..] == rest;
  }

  lemma EventOne(e: OutputEvent)
    ensures Filled([e]) == if e.Fill? then e.quantity else 0
    ensures Cancelled([e]) == if e.OrderCancelled? then e.leavesQty else 0
  {
  }

  lemma SweptOpen(cfg: Config, s: State, a: Aggressor, qty: nat)
    requires cfg.Valid()
    ensures var sweep := Match(cfg, a, s.Queue(Opposite(a.side)), qty);
            && Open(s) == Open(Swept(s, a, sweep)) + Filled(sweep.events)
            && qty == Filled(sweep.events) + sweep.left && Cancelled(sweep.events) == 0
  {
    hide Match, Leaves, Filled, Cancelled;
    SweepLedger(cfg, a, s.Queue(Opposite(a.side)), qty);
  }

  // ---------------------------------------------------------------- one command

  /** Open quantity afterwards, both sides of every trade, and what left the book without trading,
      equal open quantity before and what came in. */
  ghost predicate Conserves(s: State, r: Outcome, entered: nat, dropped: nat, amended: int) {
    Open(r.state) + 2 * Filled(r.events) + Cancelled(r.events) + dropped + amended == Open(s) + entered
  }

  lemma RestedOpen(cfg: Config, s: State, o: Order)
    requires cfg.Valid()
    ensures Open(Rested(cfg, s, o)) == Open(s) + o.leavesQty
  {
    hide Leaves, InsertionPoint;
    LeavesInserted(s.Queue(o.side), InsertionPoint(cfg, s.Queue(o.side), o), o);
  }

  lemma RemovedOpen(cfg: Config, s: State, o: Order)
    requires cfg.Valid() && Inv(cfg, s) && Resting(s, o)
    ensures Open(s) == Open(Removed(s, o)) + o.leavesQty
  {
    hide Leaves, Without, SideOk;
    QueueRemoval(cfg, s.Queue(o.side), o.side, s.nextId, o);
  }

  lemma ReplacedOpen(cfg: Config, s: State, o: Order, o': Order)
    requires cfg.Valid() && Inv(cfg, s) && Resting(s, o) && SameButQuantities(o, o') && o'.leavesQty > 0
    ensures Open(WithOrder(s, o')) + o.leavesQty == Open(s) + o'.leavesQty
  {
    hide Leaves, Replaced, SideOk;
    QueueReplacement(cfg, s.Queue(o.side), o.side, s.nextId, o, o');
  }

  lemma PlaceLimitLedger(cfg: Config, s: State, a: Aggressor, clientOrderId: u64, price: u64, quantity: nat)
    requires cfg.Valid()
    ensures var sweep := Match(cfg, a, s.Queue(Opposite(a.side)), quantity);
            var dropped := if Swept(s, a, sweep).Live() >= cfg.capacity then sweep.left else 0;
            Conserves(s, PlaceLimit(cfg, s, a, clientOrderId, price, quantity), quantity, dropped, 0)
  {
    hide Match, Swept, Open, Filled, Cancelled, Rested;
    var sweep := Match(cfg, a, s.Queue(Opposite(a.side)), quantity);
    var s1 := Swept(s, a, sweep);
    SweptOpen(cfg, s, a, quantity);
    var o := Residual(a, clientOrderId, price, quantity, sweep.left);
    var rest := Rest(cfg, s1, o);
    EventsConcat(sweep.events, rest.events);
    NoEvents();
    RestedOpen(cfg, s1, o);
    if rest.events != [] {
      EventOne(rest.events[0]);
    }
  }

  lemma NoEvents()
    ensures Filled([]) == 0 && Cancelled([]) == 0
  {
  }

  lemma PlaceMarketLedger(cfg: Config, s: State, a: Aggressor, quantity: nat)
    requires cfg.Valid()
    ensures Conserves(s, PlaceMarket(cfg, s, a, quantity), quantity, 0, 0)
  {
    hide Match, Swept, Open, Filled, Cancelled;
    var sweep := Match(cfg, a, s.Queue(Opposite(a.side)), quantity);
    SweptOpen(cfg, s, a, quantity);
    var tail := if sweep.left > 0 then [OrderCancelled(a.orderId, a.clientId, sweep.left)] else [];
    EventsConcat(sweep.events, tail);
    NoEvents();
    EventOne(OrderCancelled(a.orderId, a.clientId, sweep.left));
  }

  lemma AmendLedger(cfg: Config, s: State, o: Order, price: u64, leaves: nat)
    requires cfg.Valid() && Inv(cfg, s) && Resting(s, o)
    ensures var amended: int := if leaves == 0 then 0
                                else if (price != o.price || leaves > o.leavesQty) && PriceToTick(cfg, price).None?
                                then o.leavesQty else o.leavesQty - leaves;
            Conserves(s, Amend(cfg, s, o, price, leaves), 0, 0, amended)
  {
    hide Inv, Open, Filled, Cancelled, Rested, Removed, WithOrder, Resting, PriceToTick;
    EventOne(ModifyRejected(o.orderId, o.clientId));
    EventOne(OrderModified(o.orderId, o.clientId, price, leaves));
    if leaves > 0 {
      if price == o.price && leaves <= o.leavesQty {
        ReplacedOpen(cfg, s, o, o.Reduced(o.leavesQty - leaves));
      } else {
        RemovedOpen(cfg, s, o);
        RestedOpen(cfg, Removed(s, o), Requeued(o, price, leaves));
      }
    }
  }

  lemma PlaceLedger(cfg: Config, s: State, cmd: Command)
    requires cfg.Valid() && cmd.Place?
    ensures Conserves(s, PlaceOrder(cfg, s, cmd), Entered(cfg, s, cmd), Dropped(cfg, s, cmd), 0)
  {
    hide Match, Swept, Filled, Cancelled, State.OpenOrders, PriceToTick, PlaceLimit, PlaceMarket, Leaves;
    NoEvents();
    EventOne(OrderRejected(cmd.clientId, cmd.clientOrderId, InvalidQuantity));
    EventOne(OrderRejected(cmd.clientId, cmd.clientOrderId, ClientOrderLimitExceeded));
    EventOne(OrderRejected(cmd.clientId, cmd.clientOrderId, InvalidPrice));
    if cmd.quantity > 0 && s.OpenOrders(cmd.clientId) < MAX_OPEN_ORDERS {
      var s0, a := s.(nextId := s.nextId + 1), AggressorOf(cmd, s.nextId);
      if cmd.orderType == Market {
        PlaceMarketLedger(cfg, s0, a, cmd.quantity);
      } else if cmd.price.Some? && PriceToTick(cfg, cmd.price.value).Some? {
        PlaceLimitLedger(cfg, s0, a, cmd.clientOrderId, cmd.price.value, cmd.quantity);
      }
    }
  }

  /** The ledger of one command. */
  lemma StepLedger(cfg: Config, s: State, cmd: Command)
    requires cfg.Valid() && Inv(cfg, s)
    ensures Conserves(s, Step(cfg, s, cmd), Entered(cfg, s, cmd), Dropped(cfg, s, cmd), Amended(cfg, s, cmd))
  {
    hide Inv, Open, Filled, Cancelled, Removed, Resting, State.Find, Amend, PriceToTick, PlaceOrder;
    match cmd
    case Place(_, _, _, _, _, _, _, _) =>
      PlaceLedger(cfg, s, cmd);
    case Cancel(clientId, clientOrderId) =>
      EventOne(CancelRejected(clientOrderId, clientId));
      FoundIsResting(cfg, s, (clientId, clientOrderId));
      if s.Find((clientId, clientOrderId)).Some? {
        var o := s.Find((clientId, clientOrderId)).value;
        RemovedOpen(cfg, s, o);
        EventOne(OrderCancelled(o.orderId, clientId, o.leavesQty));
      }
    case Modify(clientId, clientOrderId, newPrice, newQty) =>
      EventOne(ModifyRejected(clientOrderId, clientId));
      FoundIsResting(cfg, s, (clientId, clientOrderId));
      if s.Find((clientId, clientOrderId)).Some? {
        var o := s.Find((clientId, clientOrderId)).value;
        AmendLedger(cfg, s, o, OrElse(newPrice, o.price), OrElse(newQty, o.leavesQty));
      }
  }

  // ---------------------------------------------------------------- whole runs

  datatype Totals = Totals(entered: nat, filled: nat, cancelled: nat, dropped: nat, amended: int)

  function RunTotals(cfg: Config, s: State, cmds: seq<Command>): Totals
    requires cfg.Valid()
    decreases |cmds|
  {
    if cmds == [] then Totals(0, 0, 0, 0, 0)
    else
      var r := Step(cfg, s, cmds[0]);
      var rest := RunTotals(cfg, r.state, cmds[1..]);
      Totals(Entered(cfg, s, cmds[0]) + rest.entered, Filled(r.events) + rest.filled,
             Cancelled(r.events) + rest.cancelled, Dropped(cfg, s, cmds[0]) + rest.dropped,
             Amended(cfg, s, cmds[0]) + rest.amended)
  }

  /** The ledger balances over every run of commands. */
  lemma {:induction false} RunLedger(cfg: Config, s: State, cmds: seq<Command>)
    requires cfg.Valid() && Inv(cfg, s)
    ensures var t := RunTotals(cfg, s, cmds);
            Open(Run(cfg, s, cmds)) + 2 * t.filled + t.cancelled + t.dropped + t.amended == Open(s) + t.entered
    decreases |cmds|
  {
    hide Inv, Open, Filled, Cancelled, Step, Entered, Dropped, Amended;
    if cmds != [] {
      StepLedger(cfg, s, cmds[0]);
      StepKeepsInv(cfg, s, cmds[0]);
      RunLedger(cfg, Step(cfg, s, cmds[0]).state, cmds[1..]);
    }
  }

  /** Places and cancels from an empty book: what reached matching is twice what traded, plus what
      rests, was cancelled, or was dropped. */
  lemma PlaceCancelLedger(cfg: Config, cmds: seq<Command>)
    requires cfg.Valid() && forall i | 0 <= i < |cmds| :: !cmds[i].Modify?
    ensures var t := RunTotals(cfg, EMPTY, cmds);
            t.entered == 2 * t.filled + Open(Run(cfg, EMPTY, cmds)) + t.cancelled + t.dropped
  {
    EmptyInv(cfg);
    RunLedger(cfg, EMPTY, cmds);
    NothingAmended(cfg, EMPTY, cmds);
    hide RunTotals, Run, Inv;
  }

  lemma {:induction false} NothingAmended(cfg: Config, s: State, cmds: seq<Command>)
    requires cfg.Valid() && forall i | 0 <= i < |cmds| :: !cmds[i].Modify?
    ensures RunTotals(cfg, s, cmds).amended == 0
    decreases |cmds|
  {
    hide Step, Entered, Dropped, Filled, Cancelled;
    if cmds != [] {
      NothingAmended(cfg, Step(cfg, s, cmds[0]).state, cmds[1..]);
    }
  }

  // ---------------------------------------------------------------- each order's own ledger

  ghost predicate Balanced(o: Order) {
    o.leavesQty + o.filledQty == o.quantity
  }

  ghost predicate AllBalanced(s: State) {
    forall o | Resting(s, o) :: Balanced(o)
  }

  lemma {:induction false} SweepKeepsBalanced(cfg: Config, s: State, a: Aggressor, qty: nat)
    requires cfg.Valid() && Inv(cfg, s) && AllBalanced(s)
    ensures AllBalanced(Swept(s, a, Match(cfg, a, s.Queue(Opposite(a.side)), qty)))
    decreases s.Live()
  {
    var q := s.Queue(Opposite(a.side));
    hide Inv, Match, Swept, Crosses, TickOf, Resting, Removed, WithOrder;
    if qty == 0 || q == [] || !Crosses(cfg, a, TickOf(cfg, q[0])) {
      SweepNone(cfg, s, a, qty);
    } else if qty < q[0].leavesQty {
      SweepPartial(cfg, s, a, qty);
      ReplacedKeepsBalanced(cfg, s, q[0], q[0].Reduced(qty));
    } else {
      SweepHead(cfg, s, a, qty);
      KeptRemoved(cfg, s, q[0]);
      RemovedKeepsBalanced(cfg, s, q[0]);
      SweepKeepsBalanced(cfg, Removed(s, q[0]), a, qty - q[0].leavesQty);
    }
  }

  lemma ReplacedKeepsBalanced(cfg: Config, s: State, o: Order, o': Order)
    requires cfg.Valid() && Inv(cfg, s) && AllBalanced(s) && Resting(s, o)
    requires SameButQuantities(o, o') && o'.leavesQty > 0 && Balanced(o')
    ensures AllBalanced(WithOrder(s, o'))
  {
    ReplacedBook(cfg, s, o, o');
    hide Resting, WithOrder, Inv;
  }

  lemma RemovedKeepsBalanced(cfg: Config, s: State, o: Order)
    requires cfg.Valid() && Inv(cfg, s) && AllBalanced(s) && Resting(s, o)
    ensures AllBalanced(Removed(s, o))
  {
    RemovedBook(cfg, s, o);
    hide Resting, Removed, Inv;
  }

  /** An amendment keeps every order's own ledger unless it re-queues the order with other leaves:
      then `quantity` and `filledQty` stay as they were, and the order no longer adds up. */
  lemma AmendBalance(cfg: Config, s: State, o: Order, price: u64, leaves: nat)
    requires cfg.Valid() && Inv(cfg, s) && AllBalanced(s) && Resting(s, o)
    ensures AllBalanced(Amend(cfg, s, o, price, leaves).state) <==>
            (leaves == 0 || (price == o.price && leaves <= o.leavesQty) || PriceToTick(cfg, price).None? ||
             leaves == o.leavesQty)
  {
    assert Balanced(o);
    hide Inv, Resting, Removed, Rested, WithOrder, PriceToTick;
    if leaves > 0 {
      if price == o.price && leaves <= o.leavesQty {
        ReplacedKeepsBalanced(cfg, s, o, o.Reduced(o.leavesQty - leaves));
      } else {
        RemovedKeepsBalanced(cfg, s, o);
        if PriceToTick(cfg, price).Some? {
          var o' := Requeued(o, price, leaves);
          RequeuedResting(cfg, s, o, o');
          assert Resting(Rested(cfg, Removed(s, o), o'), o');
          assert Balanced(o') <==> leaves == o.leavesQty;
        }
      }
    }
  }

  lemma RequeuedResting(cfg: Config, s: State, o: Order, o': Order)
    requires cfg.Valid() && Inv(cfg, s) && Resting(s, o)
    requires o'.orderId == o.orderId && o'.leavesQty > 0 && PriceToTick(cfg, o'.price).Some?
    ensures forall p :: Resting(Rested(cfg, Removed(s, o), o'), p) <==> Resting(Removed(s, o), p) || p == o'
  {
    RemovedBook(cfg, s, o);
    assert 1 <= o.orderId < s.nextId by {
      hide Rank, PriceToTick;
    }
    RestedBook(cfg, Removed(s, o), o');
    hide Resting, Removed, Rested, PriceToTick;
  }

  lemma AdmitKeepsBalanced(cfg: Config, s: State, a: Aggressor, cmd: Command)
    requires cfg.Valid() && Inv(cfg, s) && AllBalanced(s) && cmd.Place?
    requires 1 <= a.orderId < s.nextId && forall p | Resting(s, p) :: p.orderId != a.orderId
    ensures AllBalanced(Admit(cfg, s, a, cmd).state)
  {
    hide Inv, Match, Swept, Resting, PriceToTick, Rested, Fresh;
    SweepKeepsBalanced(cfg, s, a, cmd.quantity);
    SweepKeepsInv(cfg, s, a, cmd.quantity);
    if cmd.orderType == Limit && cmd.price.Some? && PriceToTick(cfg, cmd.price.value).Some? {
      var sweep := Match(cfg, a, s.Queue(Opposite(a.side)), cmd.quantity);
      var s1 := Swept(s, a, sweep);
      var o := Residual(a, cmd.clientOrderId, cmd.price.value, cmd.quantity, sweep.left);
      if sweep.left > 0 {
        FreshAfterSweep(cfg, s, s1, o);
        InvBook(cfg, s1);
        RestedBook(cfg, s1, o);
      }
    }
  }

  lemma InvBook(cfg: Config, s: State)
    requires cfg.Valid() && Inv(cfg, s)
    ensures BookOk(cfg, s) && s.nextId >= 1
  {
  }

  /** Places and cancels always keep every order's own ledger. */
  lemma PlaceCancelKeepBalanced(cfg: Config, s: State, cmd: Command)
    requires cfg.Valid() && Inv(cfg, s) && AllBalanced(s) && !cmd.Modify?
    ensures AllBalanced(Step(cfg, s, cmd).state)
  {
    hide Inv, Resting, State.Find, Admit, State.OpenOrders, Removed;
    if cmd.Cancel? {
      FoundIsResting(cfg, s, (cmd.clientId, cmd.clientOrderId));
      if s.Find((cmd.clientId, cmd.clientOrderId)).Some? {
        RemovedKeepsBalanced(cfg, s, s.Find((cmd.clientId, cmd.clientOrderId)).value);
      }
    } else {
      NextIdKeepsInv(cfg, s);
      InvBook(cfg, s);
      AdmitKeepsBalanced(cfg, s.(nextId := s.nextId + 1), AggressorOf(cmd, s.nextId), cmd);
    }
  }

  /** A modify that re-queues the order it names with other leaves. */
  ghost predicate Rescales(cfg: Config, s: State, cmd: Command)
    requires cfg.Valid()
  {
    && cmd.Modify? && s.Find((cmd.clientId, cmd.clientOrderId)).Some?
    && var o := s.Find((cmd.clientId, cmd.clientOrderId)).value;
       var price, leaves := OrElse(cmd.newPrice, o.price), OrElse(cmd.newQty, o.leavesQty);
       Requeues(cfg, o, price, leaves) && leaves != o.leavesQty
  }

  /** A command keeps every order's own ledger exactly when it does not rescale one. */
  lemma StepBalanced(cfg: Config, s: State, cmd: Command)
    requires cfg.Valid() && Inv(cfg, s) && AllBalanced(s)
    ensures AllBalanced(Step(cfg, s, cmd).state) <==> !Rescales(cfg, s, cmd)
  {
    hide Inv, Resting, State.Find, PriceToTick, Amend, AllBalanced;
    if !cmd.Modify? {
      PlaceCancelKeepBalanced(cfg, s, cmd);
    } else {
      FoundIsResting(cfg, s, (cmd.clientId, cmd.clientOrderId));
      if s.Find((cmd.clientId, cmd.clientOrderId)).Some? {
        var o := s.Find((cmd.clientId, cmd.clientOrderId)).value;
        AmendBalance(cfg, s, o, OrElse(cmd.newPrice, o.price), OrElse(cmd.newQty, o.leavesQty));
      }
    }
  }

  ghost predicate NeverRescales(cfg: Config, s: State, cmds: seq<Command>)
    requires cfg.Valid()
    decreases |cmds|
  {
    cmds == [] || (!Rescales(cfg, s, cmds[0]) && NeverRescales(cfg, Step(cfg, s, cmds[0]).state, cmds[1..]))
  }

  /** Every order adds up before the run and after each of its commands. */
  ghost predicate BalancedThroughout(cfg: Config, s: State, cmds: seq<Command>)
    requires cfg.Valid()
    decreases |cmds|
  {
    AllBalanced(s) && (cmds == [] || BalancedThroughout(cfg, Step(cfg, s, cmds[0]).state, cmds[1..]))
  }

  /** Every resting order adds up throughout a run exactly when no modify re-queues one with other leaves. */
  lemma {:induction false} RunBalanced(cfg: Config, s: State, cmds: seq<Command>)
    requires cfg.Valid() && Inv(cfg, s) && AllBalanced(s)
    ensures BalancedThroughout(cfg, s, cmds) <==> NeverRescales(cfg, s, cmds)
    decreases |cmds|
  {
    hide Inv, Step, AllBalanced, Rescales;
    if cmds != [] {
      StepBalanced(cfg, s, cmds[0]);
      StepKeepsInv(cfg, s, cmds[0]);
      if AllBalanced(Step(cfg, s, cmds[0]).state) {
        RunBalanced(cfg, Step(cfg, s, cmds[0]).state, cmds[1..]);
      } else {
        UnbalancedAtOnce(cfg, Step(cfg, s, cmds[0]).state, cmds[1..]);
      }
    }
  }

  lemma UnbalancedAtOnce(cfg: Config, s: State, cmds: seq<Command>)
    requires cfg.Valid() && !AllBalanced(s)
    ensures !BalancedThroughout(cfg, s, cmds)
  {
  }
}
