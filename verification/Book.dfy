/**
  The order book: two half-books over one arena.
 */
module Books {
  import opened Types
  import opened Handles
  import opened Arenas
  import opened Ladders
  import opened BitMaps
  import opened Exchange
  import opened Queues

  class HalfBook {
    const bitmap: BitMap
    const levels: array<Option<PriceLevel>>
    ghost var lists: seq<seq<nat>>
    ghost var home: map<nat, nat>

    /** The objects this half-book owns. */
    ghost function Repr(): set<object> {
      {this, bitmap, bitmap.l1, bitmap.l2, levels}
    }

    /** The level array and the bitmap are separate objects. */
    ghost predicate Separate() {
      {levels as object, this} !! {bitmap as object, bitmap.l1, bitmap.l2}
    }

    /** ... and both are separate from the arena. */
    ghost predicate Apart(arena: Arena) {
      Separate() && {arena as object, arena.store} !! Repr()
    }

    /** Levels, lists and bitmap agree with each other and with the arena's slots. */
    ghost predicate Ok(slots: seq<Slot>)
      reads this, bitmap, bitmap.l1, bitmap.l2, levels
    {
      && bitmap.Valid()
      && LadderOk(slots, levels[..], lists, home)
      && forall t: nat :: bitmap.Has(t) <==> t < TICKS && lists[t] != []
    }

    /** Whether `Ok` holds depends on no slot outside `home`. */
    lemma OkFrame(slots: seq<Slot>, slots': seq<Slot>)
      requires Ok(slots) && forall x | x in home :: x < |slots| && x < |slots'| && slots'[x] == slots[x]
      ensures Ok(slots')
    {
      hide LadderOk;
      LadderFrame(slots, slots', levels[..], lists, home);
    }

    constructor ()
      ensures forall slots :: Ok(slots)
      ensures fresh(bitmap) && fresh(bitmap.l1) && fresh(bitmap.l2) && fresh(levels) && Separate()
      ensures home == map[] && |lists| == TICKS && forall t | 0 <= t < TICKS :: lists[t] == []
    {
      bitmap := new BitMap();
      levels := new Option<PriceLevel>[TICKS](_ => None);
      lists := seq(TICKS, _ => []);
      home := map[];
    }

    method AddOrder(tick: nat, order: Order, arena: Arena) returns (r: Result<OrderId, Order>)
      requires Apart(arena) && arena.Valid() && Ok(arena.store[..]) && tick < TICKS
      modifies Repr(), arena, arena.store
      ensures arena.Valid() && Ok(arena.store[..])
      ensures r.Err? <==> old(arena.free) == []
      ensures r.Err? ==>
                && arena.store[..] == old(arena.store[..]) && arena.free == old(arena.free)
                && lists == old(lists) && home == old(home)
      ensures r.Ok? ==>
                var idx := r.value.index;
                && idx == old(arena.free)[0] && arena.free == old(arena.free)[1..]
                && old(arena.store[idx].state.Free?) && r.value.generation == old(arena.store[idx].generation)
                && Appended(old(arena.store[..]), arena.store[..], old(lists[tick]), idx, order)
                && lists == old(lists)[tick := old(lists[tick]) + [idx]]
                && home == old(home)[idx := tick]
    {
      hide LadderOk, LevelOk, Appended, BitMap.Valid, BitMap.Has, Arena.Valid;
      ghost var slots, levels0 := arena.store[..], levels[..];
      LevelAt(slots, levels0, lists, home, tick);
      assert levels[tick] == levels0[tick];
      if levels[tick].None? {
        levels[tick] := Some(EMPTY_LEVEL);
      }
      var level;
      r, level := arena.AllocOrder(order, levels[tick].value, lists[tick]);
      levels[tick] := Some(level);
      if r.Ok? {
        ghost var idx := r.value.index;
        LadderAppend(slots, arena.store[..], levels0, lists, home, tick, idx, order, level);
        lists := lists[tick := lists[tick] + [idx]];
        home := home[idx := tick];
        bitmap.SetBit(tick);
        assert levels[..] == levels0[tick := Some(level)];
      } else {
        if levels[tick].value.orderCount == 0 {
          levels[tick] := None;
        }
        assert levels[..] == levels0;
      }
    }

    /** Removes `lists[tick][k]`; a tick without a level, or a slot already free, is left alone. */
    method RemoveOrder(tick: nat, slotIdx: nat, arena: Arena, ghost k: nat)
      requires Apart(arena) && arena.Valid() && Ok(arena.store[..]) && tick < TICKS && slotIdx < arena.store.Length
      requires lists[tick] != [] && IsLive(arena.store[..], slotIdx) ==> k < |lists[tick]| && lists[tick][k] == slotIdx
      modifies Repr(), arena, arena.store
      ensures arena.Valid() && Ok(arena.store[..])
      ensures old(lists[tick]) == [] || !old(IsLive(arena.store[..], slotIdx)) ==>
                && arena.store[..] == old(arena.store[..]) && arena.free == old(arena.free)
                && lists == old(lists) && home == old(home)
      ensures old(lists[tick]) != [] && old(IsLive(arena.store[..], slotIdx)) ==>
                && arena.free == [slotIdx] + old(arena.free)
                && arena.store[slotIdx].generation == (old(arena.store[slotIdx].generation) + 1) % GENERATIONS
                && Unlinked(old(arena.store[..]), arena.store[..], old(lists[tick]), k)
                && lists == old(lists)[tick := Cut(old(lists[tick]), k)]
                && home == old(home) - {slotIdx}
    {
      hide LadderOk, LevelOk, Unlinked, BitMap.Valid, BitMap.Has, Arena.Valid, Cut;
      ghost var slots, levels0 := arena.store[..], levels[..];
      LevelAt(slots, levels0, lists, home, tick);
      assert levels[tick] == levels0[tick];
      if levels[tick].Some? {
        ghost var live := IsLive(slots, slotIdx);
        var level := arena.FreeOrder(slotIdx, levels[tick].value, lists[tick], k);
        levels[tick] := Some(level);
        if live {
          LadderUnlink(slots, arena.store[..], levels0, lists, home, tick, k, level);
          lists, home := lists[tick := Cut(lists[tick], k)], home - {slotIdx};
        }
        if level.orderCount == 0 {
          levels[tick] := None;
          bitmap.ClearBit(tick);
        }
        assert levels[..] == if live then levels0[tick := if level.orderCount == 0 then None else Some(level)]
                             else levels0;
      }
    }

    /** `qty` of the order in slot `lists[tick][k]` leaves the book; the order keeps its place. */
    method ReduceOrder(tick: nat, slotIdx: nat, qty: nat, arena: Arena, ghost k: nat)
      requires Apart(arena) && arena.Valid() && Ok(arena.store[..]) && tick < TICKS
      requires k < |lists[tick]| && lists[tick][k] == slotIdx
      requires IsLive(arena.store[..], slotIdx) && qty <= OrderAt(arena.store[..], slotIdx).leavesQty
      modifies levels, arena.store
      ensures arena.Valid() && Ok(arena.store[..])
      ensures arena.store[..] == Reduced(old(arena.store[..]), slotIdx, qty)
    {
      hide LadderOk, LevelOk, BitMap.Valid, BitMap.Has, FreeListed;
      ghost var slots, levels0 := arena.store[..], levels[..];
      LevelAt(slots, levels0, lists, home, tick);
      assert levels[tick] == levels0[tick];
      var order := arena.store[slotIdx].state.order;
      arena.store[slotIdx] := arena.store[slotIdx].(state := arena.store[slotIdx].state.(order :=
        order.(leavesQty := order.leavesQty - qty, filledQty := order.filledQty + qty)));
      assert arena.store[..] == Reduced(slots, slotIdx, qty);
      if levels[tick].Some? {
        levels[tick] := Some(levels[tick].value.(totalQty := SaturatingSub(levels[tick].value.totalQty, qty)));
      }
      LadderReduce(slots, levels0, lists, home, tick, k, qty);
      ReduceFree(slots, arena.free, slotIdx, qty);
      assert levels[..] == levels0[tick := levels[tick]];
    }

    method BestAsk() returns (best: Option<nat>)
      requires bitmap.Valid()
      ensures best.None? ==> forall t: nat :: !bitmap.Has(t)
      ensures best.Some? ==> bitmap.Has(best.value) && forall t: nat | bitmap.Has(t) :: best.value <= t
    {
      best := bitmap.BestAsk();
    }

    method BestBid() returns (best: Option<nat>)
      requires bitmap.Valid()
      ensures best.None? ==> forall t: nat :: !bitmap.Has(t)
      ensures best.Some? ==> bitmap.Has(best.value) && forall t: nat | bitmap.Has(t) :: t <= best.value
    {
      best := bitmap.BestBid();
    }

    function GetPriceLevel(tick: nat): Option<PriceLevel>
      requires tick < levels.Length
      reads levels
    {
      levels[tick]
    }
  }

  // ---------------------------------------------------------------- two sides over one arena

  /** Every live slot is at home on the side of its order. */
  ghost predicate Covered(slots: seq<Slot>, bidHome: map<nat, nat>, askHome: map<nat, nat>) {
    forall x: nat | IsLive(slots, x) :: x in if OrderAt(slots, x).side == Buy then bidHome else askHome
  }

  /** Everything but slot `idx` that was live keeps its order and generation. */
  ghost predicate OthersKept(slots: seq<Slot>, slots': seq<Slot>, idx: nat) {
    && |slots'| == |slots|
    && forall x: nat | IsLive(slots, x) && x != idx :: IsLive(slots', x) && SameOrder(slots[x], slots'[x])
  }

  lemma AppendedKeeps(slots: seq<Slot>, slots': seq<Slot>, list: seq<nat>, idx: nat, order: Order)
    requires Appended(slots, slots', list, idx, order) && !IsLive(slots, idx)
    ensures OthersKept(slots, slots', idx)
    ensures IsLive(slots', idx) && OrderAt(slots', idx) == order && slots'[idx].generation == slots[idx].generation
    ensures forall x: nat | x < |slots| && x != idx && x !in list :: slots'[x] == slots[x]
    ensures forall x: nat | IsLive(slots', x) :: IsLive(slots, x) || x == idx
  {
  }

  lemma UnlinkedKeeps(slots: seq<Slot>, slots': seq<Slot>, list: seq<nat>, k: nat)
    requires Unlinked(slots, slots', list, k)
    ensures OthersKept(slots, slots', list[k]) && !IsLive(slots', list[k])
    ensures forall x: nat | x < |slots| && x !in list :: slots'[x] == slots[x]
    ensures forall x: nat | IsLive(slots', x) :: IsLive(slots, x) && x != list[k]
  {
    forall x: nat | x < |slots| && x != list[k]
      ensures IsLive(slots, x) <==> IsLive(slots', x)
      ensures IsLive(slots, x) ==> SameOrder(slots[x], slots'[x])
      ensures x !in list ==> slots'[x] == slots[x]
    {
      assert Before(list, k) == Some(x) ==> x == list[k - 1];
      assert After(list, k) == Some(x) ==> x == list[k + 1];
    }
  }

  /** What a change confined to one side's list does to the two sides: nothing to the other one. */
  lemma OtherSideKept(cfg: Config, slots: seq<Slot>, slots': seq<Slot>, lists: seq<seq<nat>>, home: map<nat, nat>,
                      side: Side,
                      tick: nat, idx: nat, otherLists: seq<seq<nat>>, otherHome: map<nat, nat>)
    requires cfg.Valid() && tick < TICKS
    requires LadderSideOk(cfg, slots, lists, home, side)
    requires LadderSideOk(cfg, slots, otherLists, otherHome, Opposite(side))
    requires idx !in otherHome && |slots'| == |slots|
    requires forall x: nat | x < |slots| && x != idx && x !in lists[tick] :: slots'[x] == slots[x]
    ensures forall x | x in otherHome :: x < |slots| && x < |slots'| && slots'[x] == slots[x]
    ensures KeepsOrders(slots, slots', otherHome)
  {
    hide PriceToTick;
    assert forall x | x in lists[tick] :: x in home && OrderAt(slots, x).side == side;
    hide HomeOk;
  }

  lemma HomeKept(cfg: Config, slots: seq<Slot>, slots': seq<Slot>, lists: seq<seq<nat>>, home: map<nat, nat>,
                 side: Side, idx: nat)
    requires cfg.Valid() && LadderSideOk(cfg, slots, lists, home, side) && OthersKept(slots, slots', idx)
    ensures KeepsOrders(slots, slots', home - {idx})
    ensures !IsLive(slots, idx) ==> idx !in home && KeepsOrders(slots, slots', home)
    ensures IsLive(slots, idx) && OrderAt(slots, idx).side != side ==> idx !in home
  {
    hide PriceToTick, HomeOk;
  }

  lemma QueueSize(cfg: Config, slots: seq<Slot>, lists: seq<seq<nat>>, home: map<nat, nat>, side: Side)
    requires cfg.Valid() && LadderSideOk(cfg, slots, lists, home, side)
    ensures |QueueOf(cfg, slots, lists, home, side)| == |Flat(side, lists)|
    ensures |lists| == TICKS
  {
    hide Flat, SideHome, HomeOk;
  }

  lemma EmptySide(cfg: Config, slots: seq<Slot>, lists: seq<seq<nat>>, side: Side)
    requires cfg.Valid() && |lists| == TICKS && forall t | 0 <= t < TICKS :: lists[t] == []
    ensures LadderSideOk(cfg, slots, lists, map[], side) && Flat(side, lists) == []
    ensures QueueOf(cfg, slots, lists, map[], side) == []
  {
    AllEmpty(lists);
    hide Up, Down, PriceToTick;
  }

  lemma CoveredEmpty(slots: seq<Slot>)
    requires forall i | 0 <= i < |slots| :: slots[i].state.Free?
    ensures Covered(slots, map[], map[])
  {
  }

  lemma CoveredAppend(slots: seq<Slot>, slots': seq<Slot>, bidHome: map<nat, nat>, askHome: map<nat, nat>, idx: nat,
                      tick: nat)
    requires Covered(slots, bidHome, askHome) && OthersKept(slots, slots', idx) && IsLive(slots', idx)
    requires forall x: nat | IsLive(slots', x) :: IsLive(slots, x) || x == idx
    ensures OrderAt(slots', idx).side == Buy ==> Covered(slots', bidHome[idx := tick], askHome)
    ensures OrderAt(slots', idx).side == Sell ==> Covered(slots', bidHome, askHome[idx := tick])
  {
    forall x: nat | IsLive(slots', x) && x != idx
      ensures x in if OrderAt(slots', x).side == Buy then bidHome else askHome
    {
      assert SameOrder(slots[x], slots'[x]);
    }
  }

  lemma CoveredCut(slots: seq<Slot>, slots': seq<Slot>, bidHome: map<nat, nat>, askHome: map<nat, nat>, idx: nat)
    requires Covered(slots, bidHome, askHome) && OthersKept(slots, slots', idx) && IsLive(slots, idx)
    requires forall x: nat | IsLive(slots', x) :: IsLive(slots, x) && x != idx
    ensures OrderAt(slots, idx).side == Buy ==> Covered(slots', bidHome - {idx}, askHome)
    ensures OrderAt(slots, idx).side == Sell ==> Covered(slots', bidHome, askHome - {idx})
  {
    forall x: nat | IsLive(slots', x)
      ensures x != idx && x in if OrderAt(slots', x).side == Buy then bidHome else askHome
    {
      assert SameOrder(slots[x], slots'[x]);
    }
  }

  lemma CoveredReduced(slots: seq<Slot>, bidHome: map<nat, nat>, askHome: map<nat, nat>, idx: nat, qty: nat)
    requires Covered(slots, bidHome, askHome) && IsLive(slots, idx) && qty <= OrderAt(slots, idx).leavesQty
    ensures Covered(Reduced(slots, idx, qty), bidHome, askHome)
  {
    var slots' := Reduced(slots, idx, qty);
    forall x: nat | IsLive(slots', x)
      ensures x in if OrderAt(slots', x).side == Buy then bidHome else askHome
    {
      assert IsLive(slots, x) && OrderAt(slots', x).side == OrderAt(slots, x).side;
    }
  }

  lemma ReducedOther(cfg: Config, slots: seq<Slot>, lists: seq<seq<nat>>, home: map<nat, nat>, side: Side, idx: nat,
                     qty: nat)
    requires cfg.Valid() && LadderSideOk(cfg, slots, lists, home, side)
    requires IsLive(slots, idx) && qty <= OrderAt(slots, idx).leavesQty && OrderAt(slots, idx).side != side
    ensures var slots' := Reduced(slots, idx, qty);
            && (forall x | x in home :: x < |slots| && x < |slots'| && slots'[x] == slots[x])
            && KeepsOrders(slots, slots', home)
  {
    hide PriceToTick, HomeOk;
  }

  lemma CutSize<T>(s: seq<T>, k: nat)
    requires k < |s|
    ensures |Cut(s, k)| == |s| - 1
  {
  }

  lemma LevelHead(slots: seq<Slot>, list: seq<nat>, level: PriceLevel)
    requires LevelOk(slots, list, level) && list != []
    ensures level.head == Some(list[0])
  {
  }

  /** Slot `x` holds an order of this side that is priced on this tick. */
  predicate BelongsAt(cfg: Config, slots: seq<Slot>, x: nat, side: Side, tick: nat)
    requires cfg.Valid()
  {
    IsLive(slots, x) && OrderAt(slots, x).side == side && PriceToTick(cfg, OrderAt(slots, x).price) == Some(tick)
  }

  class OrderBook {
    const bids: HalfBook
    const asks: HalfBook
    const arena: Arena
    const cfg: Config

    function Half(side: Side): HalfBook {
      if side == Buy then bids else asks
    }

    /** All the objects of the book. */
    ghost const repr: set<object>

    ghost predicate Apart() {
      repr == bids.Repr() + asks.Repr() + {arena, arena.store} &&
      bids.Apart(arena) && asks.Apart(arena) && bids.Repr() !! asks.Repr()
    }

    ghost predicate SideValid(side: Side)
      requires cfg.Valid() && Apart()
      reads repr
    {
      && Half(side).Ok(arena.store[..])
      && LadderSideOk(cfg, arena.store[..], Half(side).lists, Half(side).home, side)
    }

    ghost predicate Valid()
      reads repr
    {
      && cfg.Valid() && arena.store.Length == cfg.capacity && Apart()
      && arena.Valid() && SideValid(Buy) && SideValid(Sell)
      && Covered(arena.store[..], bids.home, asks.home)
      && arena.orderCount == |Flat(Buy, bids.lists)| + |Flat(Sell, asks.lists)|
    }

    /** The resting orders of a side in price-time order. */
    ghost function Queue(side: Side): seq<Order>
      requires Valid()
      reads repr
    {
      QueueOf(cfg, arena.store[..], Half(side).lists, Half(side).home, side)
    }

    ghost function Slots(): seq<Slot>
      reads arena.store
    {
      arena.store[..]
    }

    constructor (basePrice: u64, tickSize: u64, capacity: nat)
      requires 1 <= tickSize && 1 <= capacity <= GENERATIONS
      ensures Valid() && fresh(repr) && cfg == Config(basePrice, tickSize, capacity) && cfg.Valid()
      ensures Queue(Buy) == [] && Queue(Sell) == []
    {
      hide LadderSideOk, Flat, HalfBook.Ok, QueueOf, PriceToTick, Arena.Valid, Covered;
      var b := new HalfBook();
      var a := new HalfBook();
      var slots := new Arena(capacity);
      bids, asks, arena := b, a, slots;
      cfg := Config(basePrice, tickSize, capacity);
      repr := b.Repr() + a.Repr() + {slots, slots.store};
      new;
      CoveredEmpty(arena.store[..]);
      EmptySide(cfg, arena.store[..], bids.lists, Buy);
      EmptySide(cfg, arena.store[..], asks.lists, Sell);
    }

    // -------------------------------------------------------------- what validity says

    /** A slot is free, or it is in the list of exactly one side and tick: those of its order. */
    lemma SlotPartition(x: nat)
      requires Valid() && x < cfg.capacity
      ensures IsLive(Slots(), x) <==> x !in arena.free
      ensures IsLive(Slots(), x) ==>
                var o := OrderAt(Slots(), x);
                && PriceToTick(cfg, o.price).Some? && |Half(o.side).lists| == TICKS
                && x in Half(o.side).lists[PriceToTick(cfg, o.price).value]
      ensures forall side, t | 0 <= t < |Half(side).lists| && x in Half(side).lists[t] ::
                BelongsAt(cfg, Slots(), x, side, t)
    {
      LiveIsListed(x);
      forall side, t | 0 <= t < |Half(side).lists| && x in Half(side).lists[t]
        ensures BelongsAt(cfg, Slots(), x, side, t)
      {
        ListedBelongs(x, side, t);
      }
    }

    lemma LiveIsListed(x: nat)
      requires Valid() && x < cfg.capacity
      ensures IsLive(Slots(), x) <==> x !in arena.free
      ensures IsLive(Slots(), x) ==>
                var o := OrderAt(Slots(), x);
                && PriceToTick(cfg, o.price).Some? && |Half(o.side).lists| == TICKS
                && x in Half(o.side).lists[PriceToTick(cfg, o.price).value]
    {
      hide HalfBook.Ok, PriceToTick, Flat;
      PoolInUse(Slots(), arena.free, x);
      hide Arena.Valid, FreeListed;
      if IsLive(Slots(), x) {
        assert x in Half(OrderAt(Slots(), x).side).home;
      }
    }

    lemma ListedBelongs(x: nat, side: Side, t: nat)
      requires Valid() && t < |Half(side).lists| && x in Half(side).lists[t]
      ensures BelongsAt(cfg, Slots(), x, side, t)
    {
      hide HalfBook.Ok, PriceToTick, Flat, Arena.Valid, Covered;
      assert SideValid(side);
      var k :| 0 <= k < |Half(side).lists[t]| && Half(side).lists[t][k] == x;
      TickAtHome(cfg, Slots(), Half(side).lists, Half(side).home, side, t, k);
    }

    /** Every tick's level, bitmap bit and links are exact: a level is there when the bit is set and the
        list is not empty; then head, tail, count and total are those of the list, whose slots are
        linked both ways in list order. */
    lemma LevelExact(side: Side, t: nat)
      requires Valid() && t < TICKS
      ensures |Half(side).lists| == TICKS == Half(side).levels.Length && Half(side).bitmap.l2.Length == 4096
      ensures var list, level := Half(side).lists[t], Half(side).levels[t];
              && (Half(side).bitmap.Has(t) <==> level.Some?) && (level.Some? <==> list != [])
              && Linked(Slots(), list)
              && (level.Some? ==>
                    && level.value.head == Some(list[0]) && level.value.tail == Some(list[|list| - 1])
                    && level.value.orderCount == |list| && level.value.totalQty == Leaves(Orders(Slots(), list)))
    {
      assert SideValid(side);
      hide LadderSideOk, Flat, Arena.Valid, Covered;
      LevelAt(Slots(), Half(side).levels[..], Half(side).lists, Half(side).home, t);
      assert Half(side).levels[..][t] == Half(side).levels[t];
    }

    /** Live slots and free slots make up the arena, and the queues hold the live ones. */
    lemma Occupancy()
      requires Valid()
      ensures arena.orderCount == |Queue(Buy)| + |Queue(Sell)|
      ensures arena.orderCount + |arena.free| == cfg.capacity
    {
      hide LadderSideOk, Flat, HalfBook.Ok, QueueOf, Covered;
      QueueSize(cfg, Slots(), bids.lists, bids.home, Buy);
      QueueSize(cfg, Slots(), asks.lists, asks.home, Sell);
      arena.Counts();
    }

    /** A side's queue holds the orders of exactly the live slots of that side, each once. */
    lemma QueueIsLiveSlots(side: Side)
      requires Valid()
      ensures var list := Flat(side, Half(side).lists);
              && Distinct(list) && AllLive(Slots(), list) && Queue(side) == Orders(Slots(), list)
              && forall x: nat :: x in list <==> IsLive(Slots(), x) && OrderAt(Slots(), x).side == side
    {
      assert SideValid(side);
      hide HalfBook.Ok, Flat, PriceToTick, Arena.Valid, HomeOk;
      FlatDistinct(cfg, Slots(), Half(side).lists, Half(side).home, side);
      FlatIsLive(cfg, Slots(), Half(side).lists, Half(side).home, side);
    }

    method AddOrder(side: Side, tick: nat, order: Order) returns (r: Result<OrderId, Order>)
      requires Valid() && order.side == side && PriceToTick(cfg, order.price) == Some(tick)
      modifies repr
      ensures Valid()
      ensures r.Err? <==> old(|Queue(Buy)| + |Queue(Sell)|) == cfg.capacity
      ensures r.Err? ==> Slots() == old(Slots()) && Queue(Buy) == old(Queue(Buy)) && Queue(Sell) == old(Queue(Sell))
      ensures r.Ok? ==>
                var idx := r.value.index;
                && !IsLive(old(Slots()), idx) && OthersKept(old(Slots()), Slots(), idx)
                && IsLive(Slots(), idx) && OrderAt(Slots(), idx) == order
                && Slots()[idx].generation == r.value.generation
                && Queue(side) == Insert(cfg, old(Queue(side)), order)
                && Queue(Opposite(side)) == old(Queue(Opposite(side)))
    {
      hide LadderSideOk, Flat, HalfBook.Ok, QueueOf, PriceToTick, Arena.Valid, Appended, OthersKept, Insert,
           KeepsOrders, Covered;
      var half := Half(side);
      ghost var other := Half(Opposite(side));
      ghost var slots, lists, home := Slots(), half.lists, half.home;
      QueueSize(cfg, slots, lists, home, side);
      QueueSize(cfg, slots, other.lists, other.home, Opposite(side));
      arena.Counts();
      r := half.AddOrder(tick, order, arena);
      arena.Counts();
      if r.Ok? {
        ghost var idx := r.value.index;
        AppendedKeeps(slots, Slots(), lists[tick], idx, order);
        HomeKept(cfg, slots, Slots(), lists, home, side, idx);
        HomeKept(cfg, slots, Slots(), other.lists, other.home, Opposite(side), idx);
        AppendIsInsert(cfg, slots, Slots(), lists, home, side, tick, idx, order);
        OtherSideKept(cfg, slots, Slots(), lists, home, side, tick, idx, other.lists, other.home);
        other.OkFrame(slots, Slots());
        QueueFrame(cfg, slots, Slots(), other.lists, other.home, Opposite(side));
        QueueSize(cfg, Slots(), half.lists, half.home, side);
        CoveredAppend(slots, Slots(), old(bids.home), old(asks.home), idx, tick);
      }
    }

    /** Takes the order in `slotIdx` off the book; `j` is its place in the queue. */
    method RemoveOrder(side: Side, tick: nat, slotIdx: nat) returns (ghost j: nat)
      requires Valid() && IsLive(Slots(), slotIdx) && OrderAt(Slots(), slotIdx).side == side
      requires PriceToTick(cfg, OrderAt(Slots(), slotIdx).price) == Some(tick)
      modifies repr
      ensures Valid()
      ensures j < |old(Queue(side))| && old(Queue(side))[j] == OrderAt(old(Slots()), slotIdx)
      ensures Queue(side) == Cut(old(Queue(side)), j)
      ensures Queue(Opposite(side)) == old(Queue(Opposite(side)))
      ensures OthersKept(old(Slots()), Slots(), slotIdx)
    {
      hide LadderSideOk, Flat, HalfBook.Ok, QueueOf, PriceToTick, Arena.Valid, Unlinked, OthersKept, KeepsOrders,
           Covered, Cut;
      var half := Half(side);
      ghost var other := Half(Opposite(side));
      ghost var slots, lists, home := Slots(), half.lists, half.home;
      QueueSize(cfg, slots, lists, home, side);
      QueueSize(cfg, slots, other.lists, other.home, Opposite(side));
      ghost var k := Find(side, tick, slotIdx);
      arena.Counts();
      half.RemoveOrder(tick, slotIdx, arena, k);
      arena.Counts();
      UnlinkedKeeps(slots, Slots(), lists[tick], k);
      HomeKept(cfg, slots, Slots(), lists, home, side, slotIdx);
      HomeKept(cfg, slots, Slots(), other.lists, other.home, Opposite(side), slotIdx);
      j := UnlinkIsCut(cfg, slots, Slots(), lists, home, side, tick, k);
      OtherSideKept(cfg, slots, Slots(), lists, home, side, tick, slotIdx, other.lists, other.home);
      other.OkFrame(slots, Slots());
      QueueFrame(cfg, slots, Slots(), other.lists, other.home, Opposite(side));
      CutSize(QueueOf(cfg, slots, lists, home, side), j);
      QueueSize(cfg, Slots(), half.lists, half.home, side);
      CoveredCut(slots, Slots(), old(bids.home), old(asks.home), slotIdx);
    }

    /** Every live slot's order is in the queue of its side. */
    lemma LiveIsQueued(slotIdx: nat)
      requires Valid() && IsLive(Slots(), slotIdx)
      ensures OrderAt(Slots(), slotIdx) in Queue(OrderAt(Slots(), slotIdx).side)
    {
      hide HalfBook.Ok, PriceToTick, Arena.Valid, LadderSideOk, QueueOf;
      var side := OrderAt(Slots(), slotIdx).side;
      assert slotIdx in Half(side).home;
      HomeIsQueued(cfg, Slots(), Half(side).lists, Half(side).home, side, slotIdx);
    }

    /** Where a live slot is in the list of its tick. */
    lemma Find(side: Side, tick: nat, slotIdx: nat) returns (k: nat)
      requires Valid() && IsLive(Slots(), slotIdx) && OrderAt(Slots(), slotIdx).side == side
      requires PriceToTick(cfg, OrderAt(Slots(), slotIdx).price) == Some(tick)
      ensures tick < TICKS == |Half(side).lists|
      ensures k < |Half(side).lists[tick]| && Half(side).lists[tick][k] == slotIdx
      ensures slotIdx in Half(side).home
    {
      hide HalfBook.Ok, PriceToTick, Arena.Valid, Flat;
      assert slotIdx in Half(side).home && Half(side).home[slotIdx] == tick;
      k :| 0 <= k < |Half(side).lists[tick]| && Half(side).lists[tick][k] == slotIdx;
    }

    /** `qty` of the order in `slotIdx` goes; the order keeps its place `j`. */
    method ReduceOrder(side: Side, tick: nat, slotIdx: nat, qty: nat) returns (ghost j: nat)
      requires Valid() && IsLive(Slots(), slotIdx) && OrderAt(Slots(), slotIdx).side == side
      requires PriceToTick(cfg, OrderAt(Slots(), slotIdx).price) == Some(tick)
      requires qty <= OrderAt(Slots(), slotIdx).leavesQty
      modifies repr
      ensures Valid()
      ensures j < |old(Queue(side))| && old(Queue(side))[j] == OrderAt(old(Slots()), slotIdx)
      ensures Queue(side) == old(Queue(side))[j := OrderAt(old(Slots()), slotIdx).Reduced(qty)]
      ensures Queue(Opposite(side)) == old(Queue(Opposite(side)))
      ensures Slots() == Reduced(old(Slots()), slotIdx, qty)
    {
      hide LadderSideOk, Flat, HalfBook.Ok, QueueOf, PriceToTick, Arena.Valid, KeepsOrders, Covered;
      var half := Half(side);
      ghost var other := Half(Opposite(side));
      ghost var slots := Slots();
      ghost var k := Find(side, tick, slotIdx);
      arena.Counts();
      half.ReduceOrder(tick, slotIdx, qty, arena, k);
      arena.Counts();
      j := ReduceIsUpdate(cfg, slots, half.lists, half.home, side, tick, k, qty);
      ReducedOther(cfg, slots, other.lists, other.home, Opposite(side), slotIdx, qty);
      other.OkFrame(slots, Slots());
      QueueFrame(cfg, slots, Slots(), other.lists, other.home, Opposite(side));
      CoveredReduced(slots, bids.home, asks.home, slotIdx, qty);
    }

    /** The best tick of a side: its bitmap's minimum for the asks, maximum for the bids. */
    method BestTick(side: Side) returns (best: Option<nat>)
      requires Valid()
      ensures best.None? <==> Queue(side) == []
      ensures best.Some? ==> best.value == TickOf(cfg, Queue(side)[0]) < TICKS
    {
      hide LadderSideOk, QueueOf, PriceToTick, Arena.Valid, Covered, LadderOk, TickOf, BitMap.Has, Summaries;
      if side == Sell {
        best := asks.BestAsk();
      } else {
        best := bids.BestBid();
      }
      ghost var half := Half(side);
      QueueSize(cfg, Slots(), half.lists, half.home, side);
      if best.Some? {
        assert half.bitmap.Has(best.value);
        forall u | 0 <= u < TICKS && BetterTick(side, u, best.value)
          ensures half.lists[u] == []
        {
          assert !half.bitmap.Has(u);
        }
        HeadOfBest(cfg, Slots(), half.lists, half.home, side, best.value);
      } else {
        forall u | 0 <= u < TICKS
          ensures half.lists[u] == []
        {
          assert !half.bitmap.Has(u);
        }
        NoHead(cfg, Slots(), half.lists, half.home, side);
      }
    }

    /** The slot at the head of a tick's list; on the best tick it holds the head of the queue. */
    method HeadSlot(side: Side, tick: nat) returns (idx: Option<nat>)
      requires Valid() && tick < TICKS
      ensures Queue(side) != [] && TickOf(cfg, Queue(side)[0]) == tick ==>
                && idx.Some? && IsLive(Slots(), idx.value)
                && OrderAt(Slots(), idx.value) == Queue(side)[0] && Queue(side)[0].side == side
                && PriceToTick(cfg, Queue(side)[0].price) == Some(tick)
    {
      hide QueueOf, PriceToTick, Arena.Valid, Covered, LadderOk, LadderSideOk, TickOf, BitMap.Has, BitMap.Valid,
           LevelOk;
      ghost var half := Half(side);
      QueueSize(cfg, Slots(), half.lists, half.home, side);
      LevelAt(Slots(), half.levels[..], half.lists, half.home, tick);
      var level := Half(side).GetPriceLevel(tick);
      idx := if level.Some? then level.value.head else None;
      if Queue(side) != [] && TickOf(cfg, Queue(side)[0]) == tick {
        HeadTick(cfg, Slots(), half.lists, half.home, side, tick);
        TickAtHome(cfg, Slots(), half.lists, half.home, side, tick, 0);
        LevelHead(Slots(), half.lists[tick], level.value);
      }
    }
  }
}
