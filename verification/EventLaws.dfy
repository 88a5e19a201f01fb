/**
  Exactly which commands lose events to the event buffer.
 */
module EventLaws {
  import opened Types
  import opened Exchange
  import opened ExchangeInvariant
  import opened SweepLaws
  import opened CrossingLaws
  import opened EventBuffers

  /** A sweep that leaves something over trades with as many orders as cross; one that does not, with
      the fewest whose quantity is enough. */
  lemma FillCount(cfg: Config, s: State, a: Aggressor, qty: nat, n: nat)
    requires cfg.Valid() && Inv(cfg, s) && qty > 0
    ensures var q := s.Queue(Opposite(a.side));
            |Match(cfg, a, q, qty).events| <= n <==>
            if CrossingLeaves(cfg, a, q) < qty then |q| <= n || !Crosses(cfg, a, TickOf(cfg, q[n]))
            else qty <= Leaves(q[..Min(n, |q|)])
  {
    var q := s.Queue(Opposite(a.side));
    QueueOk(cfg, s, Opposite(a.side));
    SweepTakesAll(cfg, a, q, qty, s.nextId);
    var k, part := SweepIsGreedy(cfg, a, q, qty);
    hide Inv, Match, Crosses, TickOf, CrossingLeaves, Leaves, FillOf, Rank, PriceToTick;
    if CrossingLeaves(cfg, a, q) < qty {
      var j := SweepLeavesOver(cfg, s, a, qty);
    } else {
      CountEnough(q, qty, k, part, Min(n, |q|));
    }
  }

  lemma CountEnough(q: seq<Order>, qty: nat, k: nat, part: nat, n: nat)
    requires n <= |q| && k <= |q| && forall p | 0 <= p < |q| :: q[p].leavesQty > 0
    requires qty == Leaves(q[..k]) + part && qty > 0 && (part > 0 ==> k < |q| && part < q[k].leavesQty)
    ensures (if part == 0 then k else k + 1) <= n <==> qty <= Leaves(q[..n])
  {
    hide Leaves;
    LeavesNone();
    if part > 0 {
      assert q[..k + 1] == q[..k] + [q[k]];
      LeavesConcat(q[..k], [q[k]]);
      LeavesSingle(q[k]);
    }
    if k <= n { LeavesGrow(q, k, n); } else { LeavesGrow(q, n, k); }
    if k + 1 <= n { LeavesGrow(q, k + 1, n); }
  }

  /** A place that reaches matching. */
  predicate Matches(cfg: Config, s: State, cmd: Command)
    requires cfg.Valid()
  {
    && cmd.Place? && cmd.quantity > 0 && s.OpenOrders(cmd.clientId) < MAX_OPEN_ORDERS
    && (cmd.orderType == Limit ==> cmd.price.Some? && PriceToTick(cfg, cmd.price.value).Some?)
  }

  /** Every command but a place that reaches matching emits one event; such a place emits its fills,
      and one event more if it is not filled. */
  lemma EventCount(cfg: Config, s: State, cmd: Command)
    requires cfg.Valid()
    ensures var events := Step(cfg, s, cmd).events;
            if Matches(cfg, s, cmd) then
              var a := AggressorOf(cmd, s.nextId);
              var sweep := Match(cfg, a, s.Queue(Opposite(a.side)), cmd.quantity);
              |events| == |sweep.events| + if sweep.left > 0 then 1 else 0
            else |events| == 1
  {
    hide Match, Swept, State.OpenOrders, State.Find, PriceToTick, Rested, Removed, WithOrder;
    if cmd.Place? && Matches(cfg, s, cmd) {
      assert (s.(nextId := s.nextId + 1)).Queue(Opposite(cmd.side)) == s.Queue(Opposite(cmd.side));
    }
  }

  /** The buffer keeps all the events of a command exactly when the command is not a place that reaches
      matching, or it is left with something and crosses at most 15 orders, or it is filled by 16. */
  lemma NothingLost(cfg: Config, s: State, cmd: Command)
    requires cfg.Valid() && Inv(cfg, s)
    ensures var events := Step(cfg, s, cmd).events;
            var q := s.Queue(Opposite(if cmd.Place? then cmd.side else Buy));
            Kept(events) == events <==>
            (Matches(cfg, s, cmd) ==>
               var a := AggressorOf(cmd, s.nextId);
               if CrossingLeaves(cfg, a, q) < cmd.quantity then
                 |q| < BUFFERED || !Crosses(cfg, a, TickOf(cfg, q[BUFFERED - 1]))
               else cmd.quantity <= Leaves(q[..Min(BUFFERED, |q|)]))
  {
    EventCount(cfg, s, cmd);
    hide Step, Match, Crosses, TickOf, CrossingLeaves, Leaves, Inv;
    if Matches(cfg, s, cmd) {
      var a := AggressorOf(cmd, s.nextId);
      var q := s.Queue(Opposite(a.side));
      QueueOk(cfg, s, Opposite(a.side));
      SweepTakesAll(cfg, a, q, cmd.quantity, s.nextId);
      FillCount(cfg, s, a, cmd.quantity, BUFFERED - 1);
      FillCount(cfg, s, a, cmd.quantity, BUFFERED);
    }
  }
}
