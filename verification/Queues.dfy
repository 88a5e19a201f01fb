/**
  The abstraction from ladders of slots to queues of orders: reading one side of the book off as a
  queue turns an append to a level into the price-time insertion of `Exchange`, an unlink into a cut,
  and an in-place reduction into an update.
 */
module Queues {
  import opened Types
  import opened Arenas
  import opened Ladders
  import opened Exchange

  /** Every slot of the ladder holds an order of this side that belongs on the slot's tick. */
  ghost predicate SideHome(cfg: Config, slots: seq<Slot>, home: map<nat, nat>, side: Side)
    requires cfg.Valid()
  {
    forall x | x in home ::
      && IsLive(slots, x) && OrderAt(slots, x).side == side
      && PriceToTick(cfg, OrderAt(slots, x).price) == Some(home[x])
  }

  ghost predicate LadderSideOk(cfg: Config, slots: seq<Slot>, lists: seq<seq<nat>>, home: map<nat, nat>, side: Side)
    requires cfg.Valid()
  {
    && |lists| == TICKS && HomeOk(lists, home) && SideHome(cfg, slots, home, side)
    && forall t | 0 <= t < TICKS :: Distinct(lists[t])
  }

  lemma FlatIsLive(cfg: Config, slots: seq<Slot>, lists: seq<seq<nat>>, home: map<nat, nat>, side: Side)
    requires cfg.Valid() && LadderSideOk(cfg, slots, lists, home, side)
    ensures AllLive(slots, Flat(side, lists))
    ensures forall x :: x in home <==> x in Flat(side, lists)
  {
    hide Flat;
    forall x
      ensures x in home <==> x in Flat(side, lists)
    {
      FlatMembers(side, lists, home, x);
    }
  }

  /** The queue of orders one side of the book stands for. */
  ghost function QueueOf(cfg: Config, slots: seq<Slot>, lists: seq<seq<nat>>, home: map<nat, nat>,
                         side: Side): seq<Order>
    requires cfg.Valid() && LadderSideOk(cfg, slots, lists, home, side)
  {
    FlatIsLive(cfg, slots, lists, home, side);
    Orders(slots, Flat(side, lists))
  }

  /** Slots of the ladder keep their orders from `slots` to `slots'`, links aside. */
  ghost predicate KeepsOrders(slots: seq<Slot>, slots': seq<Slot>, home: map<nat, nat>) {
    forall x | x in home :: IsLive(slots, x) && IsLive(slots', x) && SameOrder(slots[x], slots'[x])
  }

  lemma QueueFrame(cfg: Config, slots: seq<Slot>, slots': seq<Slot>, lists: seq<seq<nat>>, home: map<nat, nat>,
                   side: Side)
    requires cfg.Valid() && LadderSideOk(cfg, slots, lists, home, side) && KeepsOrders(slots, slots', home)
    ensures LadderSideOk(cfg, slots', lists, home, side)
    ensures QueueOf(cfg, slots', lists, home, side) == QueueOf(cfg, slots, lists, home, side)
  {
    hide PriceToTick, Flat, Orders;
    FlatIsLive(cfg, slots, lists, home, side);
    OrdersSame(slots, slots', Flat(side, lists));
  }

  // ---------------------------------------------------------------- append is insertion

  lemma InsertionPointIs(cfg: Config, q: seq<Order>, o: Order, k: nat)
    requires cfg.Valid() && k <= |q|
    requires forall i | 0 <= i < k :: Rank(cfg, q[i]) <= Rank(cfg, o)
    requires k < |q| ==> Rank(cfg, o) < Rank(cfg, q[k])
    ensures InsertionPoint(cfg, q, o) == k
  {
    var p := InsertionPoint(cfg, q, o);
  }

  lemma RankIsTick(cfg: Config, slots: seq<Slot>, home: map<nat, nat>, side: Side, x: nat)
    requires cfg.Valid() && SideHome(cfg, slots, home, side) && x in home
    ensures Rank(cfg, OrderAt(slots, x)) == if side == Sell then home[x] else TICKS - home[x]
  {
  }

  /** Orders ahead of and behind the end of a tick's list, by rank. */
  lemma RanksAround(cfg: Config, slots: seq<Slot>, lists: seq<seq<nat>>, home: map<nat, nat>, side: Side, tick: nat,
                    o: Order)
    requires cfg.Valid() && LadderSideOk(cfg, slots, lists, home, side) && tick < TICKS
    requires o.side == side && PriceToTick(cfg, o.price) == Some(tick)
    ensures forall x | x in Better(side, lists, tick) || x in lists[tick] ::
              x in home && Rank(cfg, OrderAt(slots, x)) <= Rank(cfg, o)
    ensures forall x | x in Worse(side, lists, tick) :: x in home && Rank(cfg, o) < Rank(cfg, OrderAt(slots, x))
  {
    assert Rank(cfg, o) == if side == Sell then tick else TICKS - tick;
    hide Better, Worse, PriceToTick, Rank;
    forall x | x in Better(side, lists, tick) || x in lists[tick]
      ensures x in home && Rank(cfg, OrderAt(slots, x)) <= Rank(cfg, o)
    {
      BetterMembers(side, lists, home, tick, x);
      RankIsTick(cfg, slots, home, side, x);
    }
    forall x | x in Worse(side, lists, tick)
      ensures x in home && Rank(cfg, o) < Rank(cfg, OrderAt(slots, x))
    {
      BetterMembers(side, lists, home, tick, x);
      RankIsTick(cfg, slots, home, side, x);
    }
  }

  /** Appending to the list of its tick puts an order exactly where price-time priority wants it. */
  lemma AppendIsInsert(cfg: Config, slots: seq<Slot>, slots': seq<Slot>, lists: seq<seq<nat>>, home: map<nat, nat>,
                       side: Side, tick: nat, idx: nat, o: Order)
    requires cfg.Valid() && LadderSideOk(cfg, slots, lists, home, side) && tick < TICKS && idx !in home
    requires o.side == side && PriceToTick(cfg, o.price) == Some(tick)
    requires KeepsOrders(slots, slots', home) && IsLive(slots', idx) && OrderAt(slots', idx) == o
    ensures LadderSideOk(cfg, slots', lists[tick := lists[tick] + [idx]], home[idx := tick], side)
    ensures QueueOf(cfg, slots', lists[tick := lists[tick] + [idx]], home[idx := tick], side) ==
            Insert(cfg, QueueOf(cfg, slots, lists, home, side), o)
  {
    var lists', home' := lists[tick := lists[tick] + [idx]], home[idx := tick];
    SideAfterAppend(cfg, slots, slots', lists, home, side, tick, idx, o);
    hide LadderSideOk, PriceToTick, Flat, Better, Worse, Orders, Rank, KeepsOrders;
    var front, back := Better(side, lists, tick) + lists[tick], Worse(side, lists, tick);
    FlatIsLive(cfg, slots, lists, home, side);
    FlatIsLive(cfg, slots', lists', home', side);
    FlatAppend(side, lists, tick, idx);
    FrontAndBack(cfg, slots, slots', lists, home, side, tick, o);
    FrontRanks(cfg, slots, lists, home, side, tick, o);
    SpliceOrders(slots, slots', front, idx, back);
    InsertBetween(cfg, Orders(slots', front), Orders(slots', back), o);
  }

  lemma InsertBetween(cfg: Config, front: seq<Order>, back: seq<Order>, o: Order)
    requires cfg.Valid()
    requires forall i | 0 <= i < |front| :: Rank(cfg, (front + back)[i]) <= Rank(cfg, o)
    requires 0 < |back| ==> Rank(cfg, o) < Rank(cfg, (front + back)[|front|])
    ensures Insert(cfg, front + back, o) == front + [o] + back
  {
    hide Rank, InsertionPoint;
    InsertionPointIs(cfg, front + back, o, |front|);
  }

  lemma FlatAppend(side: Side, lists: seq<seq<nat>>, t: nat, idx: nat)
    requires t < |lists| == TICKS
    ensures Flat(side, lists) == (Better(side, lists, t) + lists[t]) + Worse(side, lists, t)
    ensures Flat(side, lists[t := lists[t] + [idx]]) ==
            (Better(side, lists, t) + lists[t]) + [idx] + Worse(side, lists, t)
  {
    hide *;
    FlatSplit(side, lists, t);
    FlatUpdate(side, lists, t, lists[t] + [idx]);
  }

  lemma SideAfterAppend(cfg: Config, slots: seq<Slot>, slots': seq<Slot>, lists: seq<seq<nat>>, home: map<nat, nat>,
                        side: Side, tick: nat, idx: nat, o: Order)
    requires cfg.Valid() && LadderSideOk(cfg, slots, lists, home, side) && tick < TICKS && idx !in home
    requires o.side == side && PriceToTick(cfg, o.price) == Some(tick)
    requires KeepsOrders(slots, slots', home) && IsLive(slots', idx) && OrderAt(slots', idx) == o
    ensures LadderSideOk(cfg, slots', lists[tick := lists[tick] + [idx]], home[idx := tick], side)
    ensures |lists| == TICKS
  {
    hide PriceToTick;
    HomeAppend(lists, home, tick, idx);
    assert idx !in lists[tick];
    hide HomeOk;
  }

  lemma FrontAndBack(cfg: Config, slots: seq<Slot>, slots': seq<Slot>, lists: seq<seq<nat>>, home: map<nat, nat>,
                     side: Side, tick: nat, o: Order)
    requires cfg.Valid() && LadderSideOk(cfg, slots, lists, home, side) && tick < TICKS && |lists| == TICKS
    requires o.side == side && PriceToTick(cfg, o.price) == Some(tick)
    requires KeepsOrders(slots, slots', home)
    ensures var front, back := Better(side, lists, tick) + lists[tick], Worse(side, lists, tick);
            && AllLive(slots, front + back) && AllLive(slots', front) && AllLive(slots', back)
            && Orders(slots, front + back) == Orders(slots', front) + Orders(slots', back)
  {
    RanksAround(cfg, slots, lists, home, side, tick, o);
    hide LadderSideOk, PriceToTick, Flat, Better, Worse, Orders, Rank;
    var front, back := Better(side, lists, tick) + lists[tick], Worse(side, lists, tick);
    assert forall x | x in front :: x in home;
    OrdersSame(slots, slots', front);
    OrdersSame(slots, slots', back);
    OrdersConcat(slots, front, back);
  }

  lemma FrontRanks(cfg: Config, slots: seq<Slot>, lists: seq<seq<nat>>, home: map<nat, nat>, side: Side, tick: nat,
                   o: Order)
    requires cfg.Valid() && LadderSideOk(cfg, slots, lists, home, side) && tick < TICKS && |lists| == TICKS
    requires o.side == side && PriceToTick(cfg, o.price) == Some(tick)
    requires AllLive(slots, (Better(side, lists, tick) + lists[tick]) + Worse(side, lists, tick))
    ensures var front, back := Better(side, lists, tick) + lists[tick], Worse(side, lists, tick);
            && (forall i | 0 <= i < |front| :: Rank(cfg, Orders(slots, front + back)[i]) <= Rank(cfg, o))
            && (0 < |back| ==> Rank(cfg, o) < Rank(cfg, Orders(slots, front + back)[|front|]))
  {
    RanksAround(cfg, slots, lists, home, side, tick, o);
    hide LadderSideOk, PriceToTick, Flat, Better, Worse, Orders, Rank;
    var front, back := Better(side, lists, tick) + lists[tick], Worse(side, lists, tick);
    assert forall i | 0 <= i < |front| :: (front + back)[i] == front[i];
  }

  lemma SpliceOrders(slots: seq<Slot>, slots': seq<Slot>, front: seq<nat>, idx: nat, back: seq<nat>)
    requires AllLive(slots', front) && AllLive(slots', back) && IsLive(slots', idx)
    ensures AllLive(slots', front + [idx] + back)
    ensures Orders(slots', front + [idx] + back) ==
            Orders(slots', front) + [OrderAt(slots', idx)] + Orders(slots', back)
  {
    hide Orders;
    OrdersConcat(slots', front, [idx]);
    OrdersConcat(slots', front + [idx], back);
  }

  // ---------------------------------------------------------------- unlink is a cut

  lemma SideAfterCut(cfg: Config, slots: seq<Slot>, slots': seq<Slot>, lists: seq<seq<nat>>, home: map<nat, nat>,
                     side: Side, tick: nat, k: nat)
    requires cfg.Valid() && LadderSideOk(cfg, slots, lists, home, side) && tick < TICKS
    requires k < |lists[tick]| && KeepsOrders(slots, slots', home - {lists[tick][k]})
    ensures LadderSideOk(cfg, slots', lists[tick := Cut(lists[tick], k)], home - {lists[tick][k]}, side)
  {
    hide PriceToTick;
    HomeCut(lists, home, tick, k);
    CutAt(lists[tick], k);
    assert Distinct(lists[tick]);
    assert Distinct(Cut(lists[tick], k));
    hide HomeOk, Cut;
  }

  /** Unlinking a slot cuts its order out of the queue and moves no other. */
  lemma UnlinkIsCut(cfg: Config, slots: seq<Slot>, slots': seq<Slot>, lists: seq<seq<nat>>, home: map<nat, nat>,
                    side: Side, tick: nat, k: nat) returns (j: nat)
    requires cfg.Valid() && LadderSideOk(cfg, slots, lists, home, side) && tick < TICKS
    requires k < |lists[tick]| && KeepsOrders(slots, slots', home - {lists[tick][k]})
    ensures LadderSideOk(cfg, slots', lists[tick := Cut(lists[tick], k)], home - {lists[tick][k]}, side)
    ensures IsLive(slots, lists[tick][k])
    ensures var q := QueueOf(cfg, slots, lists, home, side);
            && j < |q| && q[j] == OrderAt(slots, lists[tick][k])
            && QueueOf(cfg, slots', lists[tick := Cut(lists[tick], k)], home - {lists[tick][k]}, side) == Cut(q, j)
  {
    SideAfterCut(cfg, slots, slots', lists, home, side, tick, k);
    var lists', home' := lists[tick := Cut(lists[tick], k)], home - {lists[tick][k]};
    hide LadderSideOk, PriceToTick, Flat, Better, Worse, Orders, KeepsOrders, IsLive, Cut, AllLive;
    FlatIsLive(cfg, slots, lists, home, side);
    FlatIsLive(cfg, slots', lists', home', side);
    j := FlatCut(side, lists, tick, k);
    CutOrders(slots, slots', Flat(side, lists), Flat(side, lists'), home', j);
  }

  lemma CutOrders(slots: seq<Slot>, slots': seq<Slot>, list: seq<nat>, list': seq<nat>, home': map<nat, nat>, j: nat)
    requires AllLive(slots, list) && AllLive(slots', list') && j < |list| && list' == Cut(list, j)
    requires KeepsOrders(slots, slots', home') && forall x | x in list' :: x in home'
    ensures Orders(slots, list)[j] == OrderAt(slots, list[j])
    ensures Orders(slots', list') == Cut(Orders(slots, list), j)
  {
    hide Orders, Cut, KeepsOrders;
    OrdersCut(slots, list, j);
    forall x | x in list'
      ensures IsLive(slots, x) && IsLive(slots', x) && OrderAt(slots', x) == OrderAt(slots, x)
    {
      KeptOne(slots, slots', home', x);
    }
    OrdersSame(slots, slots', list');
  }

  lemma KeptOne(slots: seq<Slot>, slots': seq<Slot>, home: map<nat, nat>, x: nat)
    requires KeepsOrders(slots, slots', home) && x in home
    ensures IsLive(slots, x) && IsLive(slots', x) && OrderAt(slots', x) == OrderAt(slots, x)
    ensures slots'[x].generation == slots[x].generation
  {
  }

  lemma FlatCut(side: Side, lists: seq<seq<nat>>, tick: nat, k: nat) returns (j: nat)
    requires tick < |lists| && k < |lists[tick]|
    ensures j < |Flat(side, lists)| && Flat(side, lists)[j] == lists[tick][k]
    ensures Flat(side, lists[tick := Cut(lists[tick], k)]) == Cut(Flat(side, lists), j)
  {
    FlatSplit(side, lists, tick);
    FlatUpdate(side, lists, tick, Cut(lists[tick], k));
    hide Flat, Better, Worse;
    j := |Better(side, lists, tick)| + k;
  }

  // ---------------------------------------------------------------- a reduction is an update

  lemma FlatUnique(side: Side, lists: seq<seq<nat>>, home: map<nat, nat>, tick: nat, k: nat) returns (j: nat)
    requires HomeOk(lists, home) && tick < |lists| && k < |lists[tick]| && Distinct(lists[tick])
    ensures j < |Flat(side, lists)| && Flat(side, lists)[j] == lists[tick][k]
    ensures forall p | 0 <= p < |Flat(side, lists)| && p != j :: Flat(side, lists)[p] != lists[tick][k]
  {
    var x := lists[tick][k];
    assert x in lists[tick] && home[x] == tick;
    BetterMembers(side, lists, home, tick, x);
    FlatSplit(side, lists, tick);
    hide Flat, Better, Worse, HomeOk, Distinct;
    j := |Better(side, lists, tick)| + k;
    UniqueIn(Better(side, lists, tick), lists[tick], Worse(side, lists, tick), k);
  }

  lemma UniqueIn(b: seq<nat>, l: seq<nat>, w: seq<nat>, k: nat)
    requires k < |l| && Distinct(l) && l[k] !in b && l[k] !in w
    ensures (b + l + w)[|b| + k] == l[k]
    ensures forall p | 0 <= p < |b + l + w| && p != |b| + k :: (b + l + w)[p] != l[k]
  {
  }

  /** Reducing an order in place updates it in the queue and moves nothing. */
  lemma ReduceIsUpdate(cfg: Config, slots: seq<Slot>, lists: seq<seq<nat>>, home: map<nat, nat>, side: Side,
                       tick: nat, k: nat, qty: nat) returns (j: nat)
    requires cfg.Valid() && LadderSideOk(cfg, slots, lists, home, side) && tick < TICKS && k < |lists[tick]|
    requires IsLive(slots, lists[tick][k]) && qty <= OrderAt(slots, lists[tick][k]).leavesQty
    ensures LadderSideOk(cfg, Reduced(slots, lists[tick][k], qty), lists, home, side)
    ensures var q := QueueOf(cfg, slots, lists, home, side);
            && j < |q| && q[j] == OrderAt(slots, lists[tick][k])
            && QueueOf(cfg, Reduced(slots, lists[tick][k], qty), lists, home, side) == q[j := q[j].Reduced(qty)]
  {
    ReduceSide(cfg, slots, lists, home, side, tick, k, qty);
    j := FlatUnique(side, lists, home, tick, k);
    hide LadderSideOk, Flat, Orders, AllLive;
    FlatIsLive(cfg, slots, lists, home, side);
    ReduceOrders(slots, Flat(side, lists), j, qty);
  }

  lemma ReduceOrders(slots: seq<Slot>, list: seq<nat>, j: nat, qty: nat)
    requires AllLive(slots, list) && j < |list| && qty <= OrderAt(slots, list[j]).leavesQty
    requires forall p | 0 <= p < |list| && p != j :: list[p] != list[j]
    ensures AllLive(Reduced(slots, list[j], qty), list)
    ensures Orders(Reduced(slots, list[j], qty), list) == Orders(slots, list)[j := OrderAt(slots, list[j]).Reduced(qty)]
  {
    hide Orders;
  }

  lemma ReduceSide(cfg: Config, slots: seq<Slot>, lists: seq<seq<nat>>, home: map<nat, nat>, side: Side,
                   tick: nat, k: nat, qty: nat)
    requires cfg.Valid() && LadderSideOk(cfg, slots, lists, home, side) && tick < TICKS && k < |lists[tick]|
    requires IsLive(slots, lists[tick][k]) && qty <= OrderAt(slots, lists[tick][k]).leavesQty
    ensures LadderSideOk(cfg, Reduced(slots, lists[tick][k], qty), lists, home, side)
    ensures HomeOk(lists, home) && Distinct(lists[tick])
  {
    hide HomeOk, Distinct;
  }

  // ---------------------------------------------------------------- the head of the queue

  lemma TickAtHome(cfg: Config, slots: seq<Slot>, lists: seq<seq<nat>>, home: map<nat, nat>, side: Side, t: nat, k: nat)
    requires cfg.Valid() && LadderSideOk(cfg, slots, lists, home, side) && t < TICKS && k < |lists[t]|
    ensures IsLive(slots, lists[t][k]) && OrderAt(slots, lists[t][k]).side == side
    ensures PriceToTick(cfg, OrderAt(slots, lists[t][k]).price) == Some(t)
  {
    assert lists[t][k] in lists[t];
    hide PriceToTick;
  }

  /** The best non-empty tick holds the head of the queue, first in its list. */
  lemma HeadOfBest(cfg: Config, slots: seq<Slot>, lists: seq<seq<nat>>, home: map<nat, nat>, side: Side, t: nat)
    requires cfg.Valid() && LadderSideOk(cfg, slots, lists, home, side) && t < TICKS && lists[t] != []
    requires forall u | 0 <= u < TICKS && BetterTick(side, u, t) :: lists[u] == []
    ensures IsLive(slots, lists[t][0])
    ensures var q := QueueOf(cfg, slots, lists, home, side);
            q != [] && q[0] == OrderAt(slots, lists[t][0]) && TickOf(cfg, q[0]) == t
  {
    TickAtHome(cfg, slots, lists, home, side, t, 0);
    NothingBetter(side, lists, t);
    FlatSplit(side, lists, t);
    FlatIsLive(cfg, slots, lists, home, side);
    hide Flat, Better, Worse, PriceToTick, LadderSideOk, Orders;
    assert Flat(side, lists)[0] == lists[t][0];
  }

  /** The tick of the queue's head has the head first in its list. */
  lemma HeadTick(cfg: Config, slots: seq<Slot>, lists: seq<seq<nat>>, home: map<nat, nat>, side: Side, t: nat)
    requires cfg.Valid() && LadderSideOk(cfg, slots, lists, home, side) && t < TICKS
    requires var q := QueueOf(cfg, slots, lists, home, side); q != [] && TickOf(cfg, q[0]) == t
    ensures lists[t] != [] && IsLive(slots, lists[t][0])
    ensures QueueOf(cfg, slots, lists, home, side)[0] == OrderAt(slots, lists[t][0])
  {
    FlatIsLive(cfg, slots, lists, home, side);
    var x := Flat(side, lists)[0];
    assert x in home && home[x] == t by {
      hide Flat, PriceToTick, HomeOk;
    }
    assert x in lists[t];
    BetterMembers(side, lists, home, t, x);
    FlatSplit(side, lists, t);
    hide Flat, Better, Worse, PriceToTick, SideHome, HomeOk, Orders;
    FrontIn(Better(side, lists, t), lists[t], Worse(side, lists, t));
  }

  lemma FrontIn(a: seq<nat>, b: seq<nat>, c: seq<nat>)
    ensures a != [] ==> (a + b + c)[0] in a
    ensures a == [] && b != [] ==> (a + b + c)[0] == b[0]
  {
  }

  lemma NoHead(cfg: Config, slots: seq<Slot>, lists: seq<seq<nat>>, home: map<nat, nat>, side: Side)
    requires cfg.Valid() && LadderSideOk(cfg, slots, lists, home, side)
    requires forall t | 0 <= t < TICKS :: lists[t] == []
    ensures QueueOf(cfg, slots, lists, home, side) == []
  {
    AllEmpty(lists);
    hide Up, Down, PriceToTick;
  }

  /** Every slot at home on a side has its order in that side's queue. */
  lemma HomeIsQueued(cfg: Config, slots: seq<Slot>, lists: seq<seq<nat>>, home: map<nat, nat>, side: Side, x: nat)
    requires cfg.Valid() && LadderSideOk(cfg, slots, lists, home, side) && x in home
    ensures IsLive(slots, x) && OrderAt(slots, x) in QueueOf(cfg, slots, lists, home, side)
  {
    FlatIsLive(cfg, slots, lists, home, side);
    hide Flat, PriceToTick, HomeOk;
    var p :| 0 <= p < |Flat(side, lists)| && Flat(side, lists)[p] == x;
    assert QueueOf(cfg, slots, lists, home, side)[p] == OrderAt(slots, x);
  }

  /** Reading a ladder off lists no slot twice. */
  lemma FlatDistinct(cfg: Config, slots: seq<Slot>, lists: seq<seq<nat>>, home: map<nat, nat>, side: Side)
    requires cfg.Valid() && LadderSideOk(cfg, slots, lists, home, side)
    ensures Distinct(Flat(side, lists))
  {
    hide Flat, SideHome, PriceToTick;
    var flat := Flat(side, lists);
    forall p, r | 0 <= p < r < |flat|
      ensures flat[p] != flat[r]
    {
      var x := flat[p];
      FlatMembers(side, lists, home, x);
      assert x in flat && x in home && x in lists[home[x]];
      var k :| 0 <= k < |lists[home[x]]| && lists[home[x]][k] == x;
      var j := FlatUnique(side, lists, home, home[x], k);
    }
  }
}
