/**
  One side of the book as values: a list of slots per tick, the cached levels, and the order in which
  the lists are read off as one queue.
 */
module Ladders {
  import opened Types
  import opened Arenas

  // ---------------------------------------------------------------- lists, levels and homes

  /** A tick without orders has no level; any other tick has an exact one. */
  ghost predicate TickOk(slots: seq<Slot>, list: seq<nat>, level: Option<PriceLevel>) {
    match level
    case None => list == []
    case Some(l) => list != [] && LevelOk(slots, list, l)
  }

  /** `home` maps each slot of the ladder to the one tick whose list it is in. */
  ghost predicate HomeOk(lists: seq<seq<nat>>, home: map<nat, nat>) {
    && (forall t, x | 0 <= t < |lists| && x in lists[t] :: x in home && home[x] == t)
    && (forall x | x in home :: home[x] < |lists| && x in lists[home[x]])
  }

  ghost predicate LadderOk(slots: seq<Slot>, levels: seq<Option<PriceLevel>>, lists: seq<seq<nat>>, home: map<nat,
                           nat>) {
    && |levels| == |lists| == TICKS
    && HomeOk(lists, home)
    && forall t | 0 <= t < TICKS :: TickOk(slots, lists[t], levels[t])
  }

  lemma TickFrame(slots: seq<Slot>, slots': seq<Slot>, list: seq<nat>, level: Option<PriceLevel>)
    requires TickOk(slots, list, level)
    requires forall x | x in list :: x < |slots| && x < |slots'| && slots'[x] == slots[x]
    ensures TickOk(slots', list, level)
  {
    if level.Some? {
      hide LevelOk;
      LevelFrame(slots, slots', list, level.value);
    }
  }

  lemma ListsAreLive(slots: seq<Slot>, levels: seq<Option<PriceLevel>>, lists: seq<seq<nat>>, home: map<nat, nat>,
                     t: nat)
    requires LadderOk(slots, levels, lists, home) && t < TICKS
    ensures AllLive(slots, lists[t]) && Distinct(lists[t])
  {
    assert TickOk(slots, lists[t], levels[t]);
  }

  /** What the level array holds at a tick. */
  lemma LevelAt(slots: seq<Slot>, levels: seq<Option<PriceLevel>>, lists: seq<seq<nat>>, home: map<nat, nat>, t: nat)
    requires LadderOk(slots, levels, lists, home) && t < TICKS
    ensures |levels| == |lists| == TICKS
    ensures levels[t].None? <==> lists[t] == []
    ensures levels[t].None? ==> LevelOk(slots, lists[t], EMPTY_LEVEL)
    ensures levels[t].Some? ==> LevelOk(slots, lists[t], levels[t].value) && levels[t].value.orderCount == |lists[t]|
  {
    assert TickOk(slots, lists[t], levels[t]);
  }

  lemma HomesAreLive(slots: seq<Slot>, levels: seq<Option<PriceLevel>>, lists: seq<seq<nat>>, home: map<nat, nat>)
    requires LadderOk(slots, levels, lists, home)
    ensures forall x | x in home :: IsLive(slots, x)
  {
    forall x | x in home
      ensures IsLive(slots, x)
    {
      ListsAreLive(slots, levels, lists, home, home[x]);
    }
  }

  /** A ladder none of whose slots change stays as it is. */
  lemma LadderFrame(slots: seq<Slot>, slots': seq<Slot>, levels: seq<Option<PriceLevel>>, lists: seq<seq<nat>>,
                    home: map<nat, nat>)
    requires LadderOk(slots, levels, lists, home)
    requires forall x | x in home :: x < |slots'| && x < |slots| && slots'[x] == slots[x]
    ensures LadderOk(slots', levels, lists, home)
  {
    hide TickOk;
    forall t | 0 <= t < TICKS
      ensures TickOk(slots', lists[t], levels[t])
    {
      assert forall x | x in lists[t] :: x in home;
      TickFrame(slots, slots', lists[t], levels[t]);
    }
  }

  /** One tick changes, and no slot at home on another tick does. */
  lemma LadderChange(slots: seq<Slot>, slots': seq<Slot>, levels: seq<Option<PriceLevel>>, lists: seq<seq<nat>>,
                     home: map<nat, nat>, tick: nat, level': Option<PriceLevel>, list': seq<nat>, home': map<nat, nat>)
    requires LadderOk(slots, levels, lists, home) && tick < TICKS
    requires TickOk(slots', list', level')
    requires HomeOk(lists[tick := list'], home')
    requires forall x | x in home && home[x] != tick :: x < |slots'| && x < |slots| && slots'[x] == slots[x]
    ensures LadderOk(slots', levels[tick := level'], lists[tick := list'], home')
  {
    hide TickOk;
    var lists', levels' := lists[tick := list'], levels[tick := level'];
    forall t | 0 <= t < TICKS
      ensures TickOk(slots', lists'[t], levels'[t])
    {
      if t != tick {
        TickFrame(slots, slots', lists[t], levels[t]);
      }
    }
  }

  lemma HomeAppend(lists: seq<seq<nat>>, home: map<nat, nat>, tick: nat, idx: nat)
    requires HomeOk(lists, home) && tick < |lists| && idx !in home
    ensures HomeOk(lists[tick := lists[tick] + [idx]], home[idx := tick])
  {
  }

  lemma HomeCut(lists: seq<seq<nat>>, home: map<nat, nat>, tick: nat, k: nat)
    requires HomeOk(lists, home) && tick < |lists| && k < |lists[tick]| && Distinct(lists[tick])
    ensures HomeOk(lists[tick := Cut(lists[tick], k)], home - {lists[tick][k]})
  {
    var list := lists[tick];
    assert list == list[..k] + [list[k]] + list[k + 1..];
    assert forall x :: x in Cut(list, k) <==> x in list && x != list[k];
    hide Cut;
    var lists', home' := lists[tick := Cut(list, k)], home - {list[k]};
    forall x | x in home'
      ensures home'[x] < |lists'| && x in lists'[home'[x]]
    {
      assert x in lists[home[x]];
    }
    forall t, x | 0 <= t < |lists'| && x in lists'[t]
      ensures x in home' && home'[x] == t
    {
      assert x in lists[t];
      assert list[k] in lists[tick] && home[list[k]] == tick;
      if t == tick {
        assert x in Cut(list, k) && x != list[k];
      }
    }
  }

  lemma LadderAppend(slots: seq<Slot>, slots': seq<Slot>, levels: seq<Option<PriceLevel>>, lists: seq<seq<nat>>,
                     home: map<nat, nat>, tick: nat, idx: nat, order: Order, level': PriceLevel)
    requires LadderOk(slots, levels, lists, home) && tick < TICKS && !IsLive(slots, idx)
    requires Appended(slots, slots', lists[tick], idx, order)
    requires LevelOk(slots', lists[tick] + [idx], level')
    ensures idx !in home
    ensures LadderOk(slots', levels[tick := Some(level')], lists[tick := lists[tick] + [idx]], home[idx := tick])
  {
    HomesAreLive(slots, levels, lists, home);
    hide LevelOk;
    HomeAppend(lists, home, tick, idx);
    AppendTouches(slots, slots', lists, home, tick, idx, order);
    LadderChange(slots, slots', levels, lists, home, tick, Some(level'), lists[tick] + [idx], home[idx := tick]);
  }

  lemma AppendTouches(slots: seq<Slot>, slots': seq<Slot>, lists: seq<seq<nat>>, home: map<nat, nat>, tick: nat,
                      idx: nat, order: Order)
    requires HomeOk(lists, home) && tick < |lists| && idx !in home
    requires Appended(slots, slots', lists[tick], idx, order)
    requires forall x | x in home :: IsLive(slots, x)
    ensures forall x | x in home && home[x] != tick :: x < |slots'| && slots'[x] == slots[x]
  {
    forall x | x in home && home[x] != tick
      ensures x < |slots'| && slots'[x] == slots[x]
    {
      assert x !in lists[tick];
    }
  }

  lemma UnlinkTouches(slots: seq<Slot>, slots': seq<Slot>, lists: seq<seq<nat>>, home: map<nat, nat>, tick: nat, k: nat)
    requires HomeOk(lists, home) && tick < |lists| && k < |lists[tick]|
    requires Unlinked(slots, slots', lists[tick], k)
    requires forall x | x in home :: IsLive(slots, x)
    ensures forall x | x in home && home[x] != tick :: x < |slots'| && slots'[x] == slots[x]
  {
    forall x | x in home && home[x] != tick
      ensures x < |slots'| && slots'[x] == slots[x]
    {
      assert x !in lists[tick];
    }
  }

  lemma LadderUnlink(slots: seq<Slot>, slots': seq<Slot>, levels: seq<Option<PriceLevel>>, lists: seq<seq<nat>>,
                     home: map<nat, nat>, tick: nat, k: nat, level': PriceLevel)
    requires LadderOk(slots, levels, lists, home) && tick < TICKS && k < |lists[tick]|
    requires Unlinked(slots, slots', lists[tick], k)
    requires LevelOk(slots', Cut(lists[tick], k), level')
    ensures LadderOk(slots', levels[tick := if level'.orderCount == 0 then None else Some(level')],
                     lists[tick := Cut(lists[tick], k)], home - {lists[tick][k]})
    ensures level'.orderCount == 0 <==> Cut(lists[tick], k) == []
  {
    HomesAreLive(slots, levels, lists, home);
    ListsAreLive(slots, levels, lists, home, tick);
    LevelCount(slots', Cut(lists[tick], k), level');
    hide LevelOk, Cut;
    HomeCut(lists, home, tick, k);
    UnlinkTouches(slots, slots', lists, home, tick, k);
    LadderChange(slots, slots', levels, lists, home, tick, if level'.orderCount == 0 then None else Some(level'),
                 Cut(lists[tick], k), home - {lists[tick][k]});
  }

  lemma ReduceTouches(slots: seq<Slot>, levels: seq<Option<PriceLevel>>, lists: seq<seq<nat>>, home: map<nat, nat>,
                      tick: nat, k: nat, qty: nat)
    requires LadderOk(slots, levels, lists, home) && tick < TICKS && k < |lists[tick]|
    requires IsLive(slots, lists[tick][k]) && qty <= OrderAt(slots, lists[tick][k]).leavesQty
    ensures HomeOk(lists, home)
    ensures var slots' := Reduced(slots, lists[tick][k], qty);
            forall x | x in home && home[x] != tick :: x < |slots'| && x < |slots| && slots'[x] == slots[x]
  {
    HomesAreLive(slots, levels, lists, home);
    assert lists[tick][k] in lists[tick];
    hide TickOk;
  }

  lemma LadderReduce(slots: seq<Slot>, levels: seq<Option<PriceLevel>>, lists: seq<seq<nat>>, home: map<nat, nat>,
                     tick: nat, k: nat, qty: nat)
    requires LadderOk(slots, levels, lists, home) && tick < TICKS && k < |lists[tick]|
    requires IsLive(slots, lists[tick][k]) && qty <= OrderAt(slots, lists[tick][k]).leavesQty
    ensures levels[tick].Some? && qty <= levels[tick].value.totalQty
    ensures var level := levels[tick].value;
            LadderOk(Reduced(slots, lists[tick][k], qty),
                     levels[tick := Some(level.(totalQty := level.totalQty - qty))], lists, home)
  {
    hide LadderOk, HomeOk, LevelOk, Orders, AllLive, Reduced;
    LevelAt(slots, levels, lists, home, tick);
    var list, level := lists[tick], levels[tick].value;
    ReduceLevel(slots, list, k, level, qty);
    ReduceTouches(slots, levels, lists, home, tick, k, qty);
    assert lists[tick := list] == lists;
    LadderChange(slots, Reduced(slots, list[k], qty), levels, lists, home, tick,
                 Some(level.(totalQty := level.totalQty - qty)), list, home);
  }

  lemma LevelCount(slots: seq<Slot>, list: seq<nat>, level: PriceLevel)
    requires LevelOk(slots, list, level)
    ensures level.orderCount == |list|
  {
  }

  // ---------------------------------------------------------------- reading a ladder as one queue

  /** Ticks in ascending order: the asks. */
  ghost function Up(lists: seq<seq<nat>>): seq<nat> {
    if lists == [] then [] else lists[0] + Up(lists[1..])
  }

  /** Ticks in descending order: the bids. */
  ghost function Down(lists: seq<seq<nat>>): seq<nat> {
    if lists == [] then [] else Down(lists[1..]) + lists[0]
  }

  ghost function Flat(side: Side, lists: seq<seq<nat>>): seq<nat> {
    if side == Sell then Up(lists) else Down(lists)
  }

  /** The slots on ticks better than `t`. */
  ghost function Better(side: Side, lists: seq<seq<nat>>, t: nat): seq<nat>
    requires t < |lists|
  {
    if side == Sell then Up(lists[..t]) else Down(lists[t + 1..])
  }

  /** The slots on ticks worse than `t`. */
  ghost function Worse(side: Side, lists: seq<seq<nat>>, t: nat): seq<nat>
    requires t < |lists|
  {
    if side == Sell then Up(lists[t + 1..]) else Down(lists[..t])
  }

  predicate BetterTick(side: Side, u: nat, t: nat) {
    if side == Sell then u < t else t < u
  }

  lemma {:induction false} UpConcat(a: seq<seq<nat>>, b: seq<seq<nat>>)
    ensures Up(a + b) == Up(a) + Up(b)
  {
    if a == [] {
      assert a + b == b;
    } else {
      assert (a + b)[1..] == a[1..] + b;
      UpConcat(a[1..], b);
    }
  }

  lemma {:induction false} DownConcat(a: seq<seq<nat>>, b: seq<seq<nat>>)
    ensures Down(a + b) == Down(b) + Down(a)
  {
    if a == [] {
      assert a + b == b;
    } else {
      assert (a + b)[1..] == a[1..] + b;
      DownConcat(a[1..], b);
    }
  }

  lemma FlatSplit(side: Side, lists: seq<seq<nat>>, t: nat)
    requires t < |lists|
    ensures Flat(side, lists) == Better(side, lists, t) + lists[t] + Worse(side, lists, t)
  {
    assert lists == lists[..t] + lists[t..];
    assert lists[t..][1..] == lists[t + 1..];
    UpConcat(lists[..t], lists[t..]);
    DownConcat(lists[..t], lists[t..]);
  }

  /** Changing one tick's list changes that stretch of the queue and nothing else. */
  lemma FlatUpdate(side: Side, lists: seq<seq<nat>>, t: nat, list: seq<nat>)
    requires t < |lists|
    ensures Flat(side, lists[t := list]) == Better(side, lists, t) + list + Worse(side, lists, t)
  {
    var lists' := lists[t := list];
    assert lists'[..t] == lists[..t] && lists'[t + 1..] == lists[t + 1..];
    FlatSplit(side, lists', t);
  }

  lemma {:induction false} UpMembers(lists: seq<seq<nat>>, x: nat)
    ensures x in Up(lists) <==> exists t :: 0 <= t < |lists| && x in lists[t]
  {
    if lists != [] {
      UpMembers(lists[1..], x);
      assert forall t | 0 < t < |lists| :: lists[t] == lists[1..][t - 1];
    }
  }

  lemma {:induction false} DownMembers(lists: seq<seq<nat>>, x: nat)
    ensures x in Down(lists) <==> exists t :: 0 <= t < |lists| && x in lists[t]
  {
    if lists != [] {
      DownMembers(lists[1..], x);
      assert forall t | 0 < t < |lists| :: lists[t] == lists[1..][t - 1];
    }
  }

  lemma FlatMembers(side: Side, lists: seq<seq<nat>>, home: map<nat, nat>, x: nat)
    requires HomeOk(lists, home)
    ensures x in Flat(side, lists) <==> x in home
  {
    UpMembers(lists, x);
    DownMembers(lists, x);
  }

  lemma BetterMembers(side: Side, lists: seq<seq<nat>>, home: map<nat, nat>, t: nat, x: nat)
    requires HomeOk(lists, home) && t < |lists|
    ensures x in Better(side, lists, t) ==> x in home && BetterTick(side, home[x], t)
    ensures x in Worse(side, lists, t) ==> x in home && BetterTick(side, t, home[x])
  {
    UpMembers(lists[..t], x);
    UpMembers(lists[t + 1..], x);
    DownMembers(lists[..t], x);
    DownMembers(lists[t + 1..], x);
  }

  lemma {:induction false} AllEmpty(lists: seq<seq<nat>>)
    requires forall t | 0 <= t < |lists| :: lists[t] == []
    ensures Up(lists) == [] && Down(lists) == []
  {
    if lists != [] {
      AllEmpty(lists[1..]);
    }
  }

  /** When every better tick is empty, the queue starts with the list of tick `t`. */
  lemma NothingBetter(side: Side, lists: seq<seq<nat>>, t: nat)
    requires t < |lists| && forall u | 0 <= u < |lists| && BetterTick(side, u, t) :: lists[u] == []
    ensures Better(side, lists, t) == []
  {
    if side == Sell {
      AllEmpty(lists[..t]);
    } else {
      AllEmpty(lists[t + 1..]);
    }
  }
}
