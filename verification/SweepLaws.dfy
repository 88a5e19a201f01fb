/**
  What matching promises: a sweep is greedy (in queue order, every order but the last completely filled),
  it stops only when it is done or nothing crosses, and it respects the aggressor's limit.  That queue
  order is price-time priority is proved in `PriorityLaws`.
 */
module SweepLaws {
  import opened Types
  import opened Arithmetic
  import opened Exchange
  import opened ExchangeInvariant

  // ---------------------------------------------------------------- ticks and prices

  /** A price lies in the half-open interval of its tick. */
  lemma PriceInTick(cfg: Config, price: u64)
    requires cfg.Valid() && PriceToTick(cfg, price).Some?
    ensures var tick := PriceToTick(cfg, price).value;
            TickToPrice(cfg, tick) <= price < TickToPrice(cfg, tick) + cfg.tickSize
  {
    var tick := PriceToTick(cfg, price).value;
    Division(price - cfg.basePrice, cfg.tickSize);
  }

  lemma TicksAscend(cfg: Config, t: nat, u: nat)
    requires t < u
    ensures TickToPrice(cfg, t) + cfg.tickSize <= TickToPrice(cfg, u)
  {
    MultipleGap(t, u, cfg.tickSize);
  }

  /** The price of the tick of a resting order fits in 64 bits. */
  lemma OccupiedTickFits(cfg: Config, s: State, o: Order)
    requires cfg.Valid() && Inv(cfg, s) && Resting(s, o)
    ensures TickToPrice(cfg, TickOf(cfg, o)) < 0x1_0000_0000_0000_0000
  {
    hide Rank, PriceToTick;
    PriceInTick(cfg, o.price);
  }

  /** A price on a tick, not between two. */
  predicate Aligned(cfg: Config, price: u64)
    requires cfg.Valid()
  {
    PriceToTick(cfg, price).Some? && TickToPrice(cfg, PriceToTick(cfg, price).value) == price
  }

  // ---------------------------------------------------------------- crossing

  /** Once the queue stops crossing it never crosses again. */
  lemma CrossingIsPrefix(cfg: Config, a: Aggressor, q: seq<Order>, nextId: nat, i: nat, j: nat)
    requires cfg.Valid() && SideOk(cfg, q, Opposite(a.side), nextId) && i < j < |q|
    requires Crosses(cfg, a, TickOf(cfg, q[j]))
    ensures Crosses(cfg, a, TickOf(cfg, q[i]))
  {
    var t, u := TickOf(cfg, q[i]), TickOf(cfg, q[j]);
    assert Rank(cfg, q[i]) <= Rank(cfg, q[j]);
    hide PriceToTick, TickOf;
    if t != u {
      if a.side == Buy { TicksAscend(cfg, t, u); } else { TicksAscend(cfg, u, t); }
    }
  }

  /** The open quantity on the ticks that cross. */
  function CrossingLeaves(cfg: Config, a: Aggressor, q: seq<Order>): nat
    requires cfg.Valid()
    decreases |q|
  {
    if q == [] then 0
    else (if Crosses(cfg, a, TickOf(cfg, q[0])) then q[0].leavesQty else 0) + CrossingLeaves(cfg, a, q[1..])
  }

  lemma {:induction false} NothingCrosses(cfg: Config, a: Aggressor, q: seq<Order>)
    requires cfg.Valid() && forall i | 0 <= i < |q| :: !Crosses(cfg, a, TickOf(cfg, q[i]))
    ensures CrossingLeaves(cfg, a, q) == 0
    decreases |q|
  {
    if q != [] {
      NothingCrosses(cfg, a, q[1..]);
    }
  }

  lemma TailOk(cfg: Config, q: seq<Order>, side: Side, nextId: nat)
    requires cfg.Valid() && SideOk(cfg, q, side, nextId) && q != []
    ensures SideOk(cfg, q[1..], side, nextId)
  {
    hide Rank, PriceToTick;
  }

  lemma HeadDoesNotCross(cfg: Config, a: Aggressor, q: seq<Order>, nextId: nat)
    requires cfg.Valid() && SideOk(cfg, q, Opposite(a.side), nextId)
    requires q != [] && !Crosses(cfg, a, TickOf(cfg, q[0]))
    ensures CrossingLeaves(cfg, a, q) == 0
  {
    hide SideOk, Crosses, TickOf, CrossingLeaves;
    forall i | 0 <= i < |q|
      ensures !Crosses(cfg, a, TickOf(cfg, q[i]))
    {
      if 0 < i && Crosses(cfg, a, TickOf(cfg, q[i])) {
        CrossingIsPrefix(cfg, a, q, nextId, 0, i);
      }
    }
    NothingCrosses(cfg, a, q);
  }

  /** A sweep takes exactly as much as it wants or as there is on the crossing ticks. */
  lemma {:induction false} SweepTakesAll(cfg: Config, a: Aggressor, q: seq<Order>, qty: nat, nextId: nat)
    requires cfg.Valid() && SideOk(cfg, q, Opposite(a.side), nextId)
    ensures Match(cfg, a, q, qty).left == qty - Min(qty, CrossingLeaves(cfg, a, q))
    decreases |q|
  {
    if qty == 0 || q == [] {
    } else if !Crosses(cfg, a, TickOf(cfg, q[0])) {
      HeadDoesNotCross(cfg, a, q, nextId);
    } else if qty >= q[0].leavesQty {
      TailOk(cfg, q, Opposite(a.side), nextId);
      SweepTakesAll(cfg, a, q[1..], qty - q[0].leavesQty, nextId);
      hide SideOk, Crosses, TickOf;
    }
  }

  // ---------------------------------------------------------------- greed

  /** The sweep filled the first `k` orders of the queue completely, in queue order, and then took
      `part` of the next one (none if `part` is 0); everything behind is untouched. */
  ghost predicate Greedy(a: Aggressor, q: seq<Order>, sweep: Sweep, k: nat, part: nat) {
    && k <= |q| && sweep.filled == q[..k]
    && |sweep.events| == (if part == 0 then k else k + 1)
    && (forall i | 0 <= i < k :: q[i].leavesQty > 0 && sweep.events[i] == FillOf(a, q[i], q[i].leavesQty))
    && (part == 0 ==> sweep.rest == q[k..])
    && (part > 0 ==>
          && k < |q| && part < q[k].leavesQty && sweep.left == 0
          && sweep.events[k] == FillOf(a, q[k], part)
          && sweep.rest == [q[k].Reduced(part)] + q[k + 1..])
  }

  lemma {:induction false} SweepIsGreedy(cfg: Config, a: Aggressor, q: seq<Order>, qty: nat) returns (k: nat, part: nat)
    requires cfg.Valid() && forall i | 0 <= i < |q| :: q[i].leavesQty > 0
    ensures Greedy(a, q, Match(cfg, a, q, qty), k, part)
    ensures qty == Leaves(q[..k]) + part + Match(cfg, a, q, qty).left
    decreases |q|
  {
    hide Crosses, TickOf, Leaves;
    if qty == 0 || q == [] || !Crosses(cfg, a, TickOf(cfg, q[0])) {
      k, part := 0, 0;
      LeavesNone();
    } else if qty < q[0].leavesQty {
      k, part := 0, qty;
      LeavesNone();
    } else {
      var next := Match(cfg, a, q[1..], qty - q[0].leavesQty);
      k, part := SweepIsGreedy(cfg, a, q[1..], qty - q[0].leavesQty);
      GreedyCons(a, q, next, k, part);
      LeavesCons(q, k);
      k := k + 1;
    }
  }

  lemma LeavesNone()
    ensures Leaves([]) == 0
  {
  }

  lemma LeavesCons(q: seq<Order>, k: nat)
    requires k < |q|
    ensures Leaves(q[..k + 1]) == q[0].leavesQty + Leaves(q[1..][..k])
  {
    assert q[..k + 1][1..] == q[1..][..k];
  }

  lemma GreedyCons(a: Aggressor, q: seq<Order>, next: Sweep, k: nat, part: nat)
    requires q != [] && q[0].leavesQty > 0 && Greedy(a, q[1..], next, k, part)
    ensures var events := [FillOf(a, q[0], q[0].leavesQty)] + next.events;
            Greedy(a, q, Sweep(events, [q[0]] + next.filled, next.rest, next.left), k + 1, part)
  {
    hide FillOf;
    var q1, events := q[1..], [FillOf(a, q[0], q[0].leavesQty)] + next.events;
    ConsSlices(q, k);
    forall i | 0 <= i < k + 1
      ensures q[i].leavesQty > 0 && events[i] == FillOf(a, q[i], q[i].leavesQty)
    {
      if i > 0 {
        assert q[i] == q1[i - 1] && events[i] == next.events[i - 1];
      }
    }
  }

  lemma ConsSlices(q: seq<Order>, k: nat)
    requires k < |q|
    ensures [q[0]] + q[1..][..k] == q[..k + 1] && q[1..][k..] == q[k + 1..]
    ensures k + 1 < |q| ==> q[1..][k] == q[k + 1] && q[1..][k + 1..] == q[k + 2..]
  {
  }

  /** A sweep stops only when it is done, the book is empty, or the next order does not cross. */
  lemma {:induction false} SweepStops(cfg: Config, a: Aggressor, q: seq<Order>, qty: nat)
    requires cfg.Valid()
    ensures var sweep := Match(cfg, a, q, qty);
            sweep.left == 0 || sweep.rest == [] || !Crosses(cfg, a, TickOf(cfg, sweep.rest[0]))
    decreases |q|
  {
    hide Crosses, TickOf;
    if qty > 0 && q != [] && Crosses(cfg, a, TickOf(cfg, q[0])) && qty >= q[0].leavesQty {
      SweepStops(cfg, a, q[1..], qty - q[0].leavesQty);
    }
  }

  lemma {:induction false} LeavesGrow(q: seq<Order>, i: nat, j: nat)
    requires i <= j <= |q| && forall p | 0 <= p < |q| :: q[p].leavesQty > 0
    ensures Leaves(q[..i]) <= Leaves(q[..j])
    ensures i < j ==> Leaves(q[..i]) < Leaves(q[..j])
    decreases j - i
  {
    if i < j {
      LeavesGrow(q, i, j - 1);
      assert q[..j] == q[..j - 1] + [q[j - 1]];
      LeavesConcat(q[..j - 1], [q[j - 1]]);
    }
  }

  /** Which orders a sweep trades with: the `i`-th of the queue exactly when it crosses and those ahead
      of it are not enough. */
  lemma {:induction false} SweepReaches(cfg: Config, a: Aggressor, q: seq<Order>, nextId: nat, qty: nat, i: nat)
    requires cfg.Valid() && SideOk(cfg, q, Opposite(a.side), nextId)
    ensures i < |Match(cfg, a, q, qty).events| <==>
            i < |q| && Crosses(cfg, a, TickOf(cfg, q[i])) && Leaves(q[..i]) < qty
    decreases |q|
  {
    LeavesNone();
    PositiveLeaves(cfg, q, Opposite(a.side), nextId);
    hide SideOk, Crosses, TickOf, Leaves, FillOf;
    if qty == 0 || q == [] {
    } else if !Crosses(cfg, a, TickOf(cfg, q[0])) {
      if 0 < i < |q| && Crosses(cfg, a, TickOf(cfg, q[i])) {
        CrossingIsPrefix(cfg, a, q, nextId, 0, i);
      }
    } else if i == 0 {
      assert q[..0] == [];
    } else {
      if i < |q| {
        LeavesCons(q, i - 1);
      }
      if qty >= q[0].leavesQty {
        TailOk(cfg, q, Opposite(a.side), nextId);
        SweepReaches(cfg, a, q[1..], nextId, qty - q[0].leavesQty, i - 1);
      }
    }
  }

  /** Which orders a sweep fills completely: the `i`-th of the queue exactly when it crosses and the
      quantity is enough for all up to and including it. */
  lemma {:induction false} SweepFills(cfg: Config, a: Aggressor, q: seq<Order>, nextId: nat, qty: nat, i: nat)
    requires cfg.Valid() && SideOk(cfg, q, Opposite(a.side), nextId)
    ensures i < |Match(cfg, a, q, qty).filled| <==>
            i < |q| && Crosses(cfg, a, TickOf(cfg, q[i])) && Leaves(q[..i + 1]) <= qty
    decreases |q|
  {
    LeavesNone();
    PositiveLeaves(cfg, q, Opposite(a.side), nextId);
    hide SideOk, Crosses, TickOf, Leaves, FillOf;
    if i < |q| {
      LeavesCons(q, i);
      if qty == 0 {
      } else if !Crosses(cfg, a, TickOf(cfg, q[0])) {
        if i > 0 && Crosses(cfg, a, TickOf(cfg, q[i])) {
          CrossingIsPrefix(cfg, a, q, nextId, 0, i);
        }
      } else if qty >= q[0].leavesQty {
        if i == 0 {
          assert q[1..][..0] == [];
        } else {
          TailOk(cfg, q, Opposite(a.side), nextId);
          SweepFills(cfg, a, q[1..], nextId, qty - q[0].leavesQty, i - 1);
        }
      }
    } else {
      FilledAtMost(cfg, a, q, qty);
    }
  }

  lemma {:induction false} FilledAtMost(cfg: Config, a: Aggressor, q: seq<Order>, qty: nat)
    requires cfg.Valid()
    ensures |Match(cfg, a, q, qty).filled| <= |q|
    decreases |q|
  {
    hide Crosses, TickOf, FillOf;
    if qty > 0 && q != [] && Crosses(cfg, a, TickOf(cfg, q[0])) && qty >= q[0].leavesQty {
      FilledAtMost(cfg, a, q[1..], qty - q[0].leavesQty);
    }
  }

  lemma PositiveLeaves(cfg: Config, q: seq<Order>, side: Side, nextId: nat)
    requires cfg.Valid() && SideOk(cfg, q, side, nextId)
    ensures forall i | 0 <= i < |q| :: q[i].leavesQty > 0
  {
    hide Rank, PriceToTick;
  }

  // ---------------------------------------------------------------- limit protection

  /** Every order a sweep trades with crosses; fills come from the queue, in its order. */
  lemma {:induction false} FillsCross(cfg: Config, a: Aggressor, q: seq<Order>, qty: nat, i: nat)
    requires cfg.Valid() && i < |Match(cfg, a, q, qty).events|
    ensures i < |q| && Crosses(cfg, a, TickOf(cfg, q[i]))
    ensures exists fill: nat :: fill <= q[i].leavesQty && Match(cfg, a, q, qty).events[i] == FillOf(a, q[i], fill)
    decreases |q|
  {
    hide Crosses, TickOf;
    if qty < q[0].leavesQty {
      assert Match(cfg, a, q, qty).events[i] == FillOf(a, q[0], qty);
    } else if i == 0 {
      assert Match(cfg, a, q, qty).events[i] == FillOf(a, q[0], q[0].leavesQty);
    } else {
      FillsCross(cfg, a, q[1..], qty - q[0].leavesQty, i - 1);
      var next := Match(cfg, a, q[1..], qty - q[0].leavesQty);
      var fill: nat :| fill <= q[i].leavesQty && next.events[i - 1] == FillOf(a, q[i], fill);
      assert Match(cfg, a, q, qty).events[i] == FillOf(a, q[i], fill);
    }
  }

  /** A SELL limit order never trades below its limit.  A BUY limit order never trades a whole tick
      above its limit, and never above it at all when the resting price is on its tick. */
  lemma LimitProtection(cfg: Config, s: State, a: Aggressor, qty: nat, i: nat)
    requires cfg.Valid() && Inv(cfg, s) && a.limit.Some?
    requires i < |Match(cfg, a, s.Queue(Opposite(a.side)), qty).events|
    ensures var fill := Match(cfg, a, s.Queue(Opposite(a.side)), qty).events[i];
            && fill.Fill?
            && (a.side == Sell ==> fill.price >= a.limit.value)
            && (a.side == Buy ==> fill.price < a.limit.value + cfg.tickSize)
            && (a.side == Buy && Aligned(cfg, fill.price) ==> fill.price <= a.limit.value)
  {
    var q := s.Queue(Opposite(a.side));
    FillsCross(cfg, a, q, qty, i);
    hide Match, Rank, PriceToTick;
    PriceInTick(cfg, q[i].price);
  }

  /** Successive fills are on ticks ever worse for the aggressor, or the same. */
  lemma FillTicksMonotone(cfg: Config, s: State, a: Aggressor, qty: nat, i: nat, j: nat)
    requires cfg.Valid() && Inv(cfg, s)
    requires i < j < |Match(cfg, a, s.Queue(Opposite(a.side)), qty).events|
    ensures var events := Match(cfg, a, s.Queue(Opposite(a.side)), qty).events;
            && events[i].Fill? && events[j].Fill?
            && PriceToTick(cfg, events[i].price).Some? && PriceToTick(cfg, events[j].price).Some?
            && var t, u := PriceToTick(cfg, events[i].price).value, PriceToTick(cfg, events[j].price).value;
               if a.side == Buy then t <= u else u <= t
  {
    var q := s.Queue(Opposite(a.side));
    FillsCross(cfg, a, q, qty, i);
    FillsCross(cfg, a, q, qty, j);
    hide Match, PriceToTick, Crosses;
    assert Rank(cfg, q[i]) <= Rank(cfg, q[j]);
  }
}
