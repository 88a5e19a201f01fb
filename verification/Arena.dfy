/**
  The generational arena: one fixed vector of slots that holds the free list and, for every price
  level of both sides, one doubly linked list of resting orders.
 */
module Arenas {
  import opened Types
  import opened Handles

  // ---------------------------------------------------------------- slots

  datatype SlotState =
    | Occupied(order: Order, prev: Option<nat>, next: Option<nat>)
    | Free(nextFree: Option<nat>)

  datatype Slot = Slot(generation: nat, state: SlotState)

  datatype PriceLevel = PriceLevel(head: Option<nat>, tail: Option<nat>, orderCount: nat, totalQty: nat)

  const EMPTY_LEVEL: PriceLevel := PriceLevel(None, None, 0, 0)

  predicate IsLive(slots: seq<Slot>, i: nat) {
    i < |slots| && slots[i].state.Occupied?
  }

  function OrderAt(slots: seq<Slot>, i: nat): Order
    requires IsLive(slots, i)
  {
    slots[i].state.order
  }

  // ---------------------------------------------------------------- lists of slots

  ghost predicate AllLive(slots: seq<Slot>, list: seq<nat>) {
    forall p | 0 <= p < |list| :: IsLive(slots, list[p])
  }

  ghost predicate Distinct(list: seq<nat>) {
    forall p, r | 0 <= p < r < |list| :: list[p] != list[r]
  }

  /** The orders a list of slots holds, in list order. */
  ghost function Orders(slots: seq<Slot>, list: seq<nat>): (r: seq<Order>)
    requires AllLive(slots, list)
    ensures |r| == |list|
    ensures forall p | 0 <= p < |list| :: r[p] == OrderAt(slots, list[p])
  {
    if list == [] then [] else [OrderAt(slots, list[0])] + Orders(slots, list[1..])
  }

  function First(list: seq<nat>): Option<nat> {
    if list == [] then None else Some(list[0])
  }

  function Last(list: seq<nat>): Option<nat> {
    if list == [] then None else Some(list[|list| - 1])
  }

  function Before(list: seq<nat>, p: nat): Option<nat>
    requires p < |list|
  {
    if p == 0 then None else Some(list[p - 1])
  }

  function After(list: seq<nat>, p: nat): Option<nat>
    requires p < |list|
  {
    if p + 1 == |list| then None else Some(list[p + 1])
  }

  ghost predicate LinkedAt(slots: seq<Slot>, list: seq<nat>, p: nat)
    requires p < |list| && IsLive(slots, list[p])
  {
    slots[list[p]].state.prev == Before(list, p) && slots[list[p]].state.next == After(list, p)
  }

  /** The slots of `list` are linked both ways, in list order. */
  ghost predicate Linked(slots: seq<Slot>, list: seq<nat>) {
    AllLive(slots, list) && Distinct(list) && forall p | 0 <= p < |list| :: LinkedAt(slots, list, p)
  }

  /** The level's cached head, tail, count and total are those of `list`. */
  ghost predicate Summarizes(slots: seq<Slot>, list: seq<nat>, level: PriceLevel)
    requires AllLive(slots, list)
  {
    && level.head == First(list) && level.tail == Last(list)
    && level.orderCount == |list| && level.totalQty == Leaves(Orders(slots, list))
  }

  ghost predicate LevelOk(slots: seq<Slot>, list: seq<nat>, level: PriceLevel) {
    Linked(slots, list) && Summarizes(slots, list, level)
  }

  ghost predicate FreeAt(slots: seq<Slot>, free: seq<nat>, p: nat)
    requires p < |free| && free[p] < |slots|
  {
    slots[free[p]].state == Free(After(free, p))
  }

  /** `free` lists exactly the free slots, linked in order; generations are u32. */
  ghost predicate FreeListed(slots: seq<Slot>, free: seq<nat>) {
    && Distinct(free)
    && (forall p | 0 <= p < |free| :: free[p] < |slots|)
    && (forall p | 0 <= p < |free| :: FreeAt(slots, free, p))
    && (forall i | 0 <= i < |slots| :: slots[i].state.Free? ==> i in free)
    && (forall i | 0 <= i < |slots| :: slots[i].generation < GENERATIONS)
  }

  /** Two slots hold the same order under the same generation; their links may differ. */
  predicate SameOrder(s: Slot, s': Slot) {
    && s.state.Occupied? && s'.state.Occupied?
    && s.generation == s'.generation && s.state.order == s'.state.order
  }

  // ---------------------------------------------------------------- lemmas about lists

  lemma OrdersConcat(slots: seq<Slot>, a: seq<nat>, b: seq<nat>)
    requires AllLive(slots, a) && AllLive(slots, b)
    ensures AllLive(slots, a + b)
    ensures Orders(slots, a + b) == Orders(slots, a) + Orders(slots, b)
  {
  }

  lemma OrdersSame(slots: seq<Slot>, slots': seq<Slot>, list: seq<nat>)
    requires AllLive(slots, list)
    requires forall p | 0 <= p < |list| ::
               IsLive(slots', list[p]) && OrderAt(slots', list[p]) == OrderAt(slots, list[p])
    ensures AllLive(slots', list)
    ensures Orders(slots', list) == Orders(slots, list)
  {
  }

  /** A list none of whose slots change stays as it is. */
  lemma LevelFrame(slots: seq<Slot>, slots': seq<Slot>, list: seq<nat>, level: PriceLevel)
    requires LevelOk(slots, list, level)
    requires forall p | 0 <= p < |list| :: list[p] < |slots'| && slots'[list[p]] == slots[list[p]]
    ensures LevelOk(slots', list, level)
    ensures Orders(slots', list) == Orders(slots, list)
  {
    OrdersSame(slots, slots', list);
    assert forall p | 0 <= p < |list| :: LinkedAt(slots, list, p) ==> LinkedAt(slots', list, p);
  }

  // ---------------------------------------------------------------- appending at the tail

  /** The slots after an append: only the new slot and the old tail's `next` change. */
  ghost predicate Appended(slots: seq<Slot>, slots': seq<Slot>, list: seq<nat>, idx: nat, order: Order) {
    && |slots'| == |slots| && idx < |slots| && AllLive(slots, list)
    && slots'[idx] == Slot(slots[idx].generation, Occupied(order, Last(list), None))
    && (forall i | 0 <= i < |slots| && i != idx ::
          slots'[i] == if Last(list) == Some(i) && slots[i].state.Occupied?
                       then slots[i].(state := slots[i].state.(next := Some(idx)))
                       else slots[i])
  }

  lemma AppendLinked(slots: seq<Slot>, slots': seq<Slot>, list: seq<nat>, idx: nat, order: Order)
    requires Linked(slots, list) && idx !in list && Appended(slots, slots', list, idx, order)
    ensures Linked(slots', list + [idx])
  {
    var list' := list + [idx];
    forall p | 0 <= p < |list'|
      ensures IsLive(slots', list'[p])
      ensures LinkedAt(slots', list', p)
    {
      if p < |list| {
        assert list'[p] == list[p] && LinkedAt(slots, list, p);
      }
    }
  }

  lemma AppendOrders(slots: seq<Slot>, slots': seq<Slot>, list: seq<nat>, idx: nat, order: Order)
    requires AllLive(slots, list) && idx !in list && Appended(slots, slots', list, idx, order)
    ensures AllLive(slots', list + [idx])
    ensures Orders(slots', list + [idx]) == Orders(slots, list) + [order]
    ensures Leaves(Orders(slots', list + [idx])) == Leaves(Orders(slots, list)) + order.leavesQty
  {
    hide Orders, Leaves;
    assert Orders(slots', list + [idx]) == Orders(slots, list) + [order] by {
      var list' := list + [idx];
      assert forall p | 0 <= p < |list'| :: list'[p] == if p < |list| then list[p] else idx;
    }
    LeavesConcat(Orders(slots, list), [order]);
    LeavesSingle(order);
  }

  lemma AppendLevel(slots: seq<Slot>, slots': seq<Slot>, list: seq<nat>, idx: nat, order: Order,
                    level: PriceLevel, level': PriceLevel)
    requires LevelOk(slots, list, level) && idx !in list && Appended(slots, slots', list, idx, order)
    requires level' == PriceLevel(if list == [] then Some(idx) else level.head, Some(idx),
                                  level.orderCount + 1, level.totalQty + order.leavesQty)
    ensures LevelOk(slots', list + [idx], level')
  {
    AppendLinked(slots, slots', list, idx, order);
    AppendOrders(slots, slots', list, idx, order);
    hide Linked, Appended, Orders, Leaves;
  }

  // ---------------------------------------------------------------- unlinking

  ghost function Cut<T>(s: seq<T>, k: nat): seq<T>
    requires k < |s|
  {
    s[..k] + s[k + 1..]
  }

  /** The slots after `list[k]` is unlinked: its neighbours' links pass over it. */
  ghost predicate Unlinked(slots: seq<Slot>, slots': seq<Slot>, list: seq<nat>, k: nat) {
    && |slots'| == |slots| && k < |list| && AllLive(slots, list)
    && slots'[list[k]].state.Free?
    && (forall i | 0 <= i < |slots| && i != list[k] ::
          slots'[i] == if Before(list, k) == Some(i) && slots[i].state.Occupied?
                       then slots[i].(state := slots[i].state.(next := After(list, k)))
                       else if After(list, k) == Some(i) && slots[i].state.Occupied?
                       then slots[i].(state := slots[i].state.(prev := Before(list, k)))
                       else slots[i])
  }

  lemma CutAt(list: seq<nat>, k: nat)
    requires k < |list|
    ensures |Cut(list, k)| == |list| - 1
    ensures forall p | 0 <= p < |list| - 1 :: Cut(list, k)[p] == if p < k then list[p] else list[p + 1]
  {
  }

  lemma UnlinkAt(slots: seq<Slot>, slots': seq<Slot>, list: seq<nat>, k: nat, p: nat)
    requires Linked(slots, list) && k < |list| && Unlinked(slots, slots', list, k) && p < |list| - 1
    ensures |Cut(list, k)| == |list| - 1
    ensures IsLive(slots', Cut(list, k)[p])
    ensures LinkedAt(slots', Cut(list, k), p)
  {
    CutAt(list, k);
    var i := if p < k then p else p + 1;
    assert Cut(list, k)[p] == list[i] && list[i] != list[k];
    assert LinkedAt(slots, list, i);
    hide Cut;
  }

  lemma UnlinkLinked(slots: seq<Slot>, slots': seq<Slot>, list: seq<nat>, k: nat)
    requires Linked(slots, list) && k < |list| && Unlinked(slots, slots', list, k)
    ensures Linked(slots', Cut(list, k))
  {
    CutAt(list, k);
    var list' := Cut(list, k);
    assert Distinct(list') by {
      hide Cut, Unlinked;
    }
    hide *;
    forall p | 0 <= p < |list'|
      ensures IsLive(slots', list'[p])
      ensures LinkedAt(slots', list', p)
    {
      UnlinkAt(slots, slots', list, k, p);
    }
    LinkedIntro(slots', list');
  }

  lemma LinkedIntro(slots: seq<Slot>, list: seq<nat>)
    requires Distinct(list)
    requires forall p | 0 <= p < |list| :: IsLive(slots, list[p])
    requires forall p | 0 <= p < |list| :: LinkedAt(slots, list, p)
    ensures Linked(slots, list)
  {
  }

  lemma OrdersCut(slots: seq<Slot>, list: seq<nat>, k: nat)
    requires AllLive(slots, list) && k < |list|
    ensures AllLive(slots, Cut(list, k))
    ensures Orders(slots, Cut(list, k)) == Cut(Orders(slots, list), k)
  {
    hide Orders;
    var q := Orders(slots, list);
    OrdersConcat(slots, list[..k], list[k + 1..]);
    assert Orders(slots, list[..k]) == q[..k];
    assert Orders(slots, list[k + 1..]) == q[k + 1..];
  }

  lemma UnlinkKeepsOrder(slots: seq<Slot>, slots': seq<Slot>, list: seq<nat>, k: nat, p: nat)
    requires Linked(slots, list) && k < |list| && Unlinked(slots, slots', list, k) && p < |list| - 1
    ensures |Cut(list, k)| == |list| - 1 && IsLive(slots, Cut(list, k)[p])
    ensures IsLive(slots', Cut(list, k)[p]) && OrderAt(slots', Cut(list, k)[p]) == OrderAt(slots, Cut(list, k)[p])
  {
    CutAt(list, k);
    assert Cut(list, k)[p] == list[if p < k then p else p + 1] != list[k];
  }

  lemma UnlinkOrders(slots: seq<Slot>, slots': seq<Slot>, list: seq<nat>, k: nat)
    requires Linked(slots, list) && k < |list| && Unlinked(slots, slots', list, k)
    ensures AllLive(slots, list)
    ensures AllLive(slots', Cut(list, k))
    ensures Orders(slots', Cut(list, k)) == Cut(Orders(slots, list), k)
  {
    hide Unlinked, Orders, Cut, LinkedAt, IsLive, OrderAt;
    OrdersCut(slots, list, k);
    CutAt(list, k);
    forall p | 0 <= p < |list| - 1
      ensures IsLive(slots, Cut(list, k)[p]) && IsLive(slots', Cut(list, k)[p])
      ensures OrderAt(slots', Cut(list, k)[p]) == OrderAt(slots, Cut(list, k)[p])
    {
      UnlinkKeepsOrder(slots, slots', list, k, p);
    }
    OrdersSame(slots, slots', Cut(list, k));
  }

  /** Unlinking keeps the level exact, and its total was at least what is taken off it. */
  lemma UnlinkLevel(slots: seq<Slot>, slots': seq<Slot>, list: seq<nat>, k: nat, level: PriceLevel, level': PriceLevel)
    requires LevelOk(slots, list, level) && k < |list| && Unlinked(slots, slots', list, k)
    requires OrderAt(slots, list[k]).leavesQty <= level.totalQty ==>
               level' == PriceLevel(if k == 0 then After(list, k) else level.head,
                                    if k + 1 == |list| then Before(list, k) else level.tail,
                                    level.orderCount - 1,
                                    level.totalQty - OrderAt(slots, list[k]).leavesQty)
    ensures OrderAt(slots, list[k]).leavesQty <= level.totalQty
    ensures LevelOk(slots', Cut(list, k), level')
  {
    hide Unlinked, Orders, Leaves, Linked, AllLive, Cut, First, Last, Before, After;
    UnlinkOrders(slots, slots', list, k);
    UnlinkLinked(slots, slots', list, k);
    LeavesCut(Orders(slots, list), k);
    UnlinkEnds(list, k);
  }

  lemma LeavesCut(q: seq<Order>, k: nat)
    requires k < |q|
    ensures Leaves(Cut(q, k)) == Leaves(q) - q[k].leavesQty
  {
    hide Leaves;
    LeavesAround(q, k);
  }

  lemma UnlinkEnds(list: seq<nat>, k: nat)
    requires k < |list|
    ensures |Cut(list, k)| == |list| - 1
    ensures First(Cut(list, k)) == if k == 0 then After(list, k) else First(list)
    ensures Last(Cut(list, k)) == if k + 1 == |list| then Before(list, k) else Last(list)
  {
  }

  function SetNext(slots: seq<Slot>, i: Option<nat>, link: Option<nat>): seq<Slot> {
    if i.Some? && IsLive(slots, i.value)
    then slots[i.value := slots[i.value].(state := slots[i.value].state.(next := link))]
    else slots
  }

  function SetPrev(slots: seq<Slot>, i: Option<nat>, link: Option<nat>): seq<Slot> {
    if i.Some? && IsLive(slots, i.value)
    then slots[i.value := slots[i.value].(state := slots[i.value].state.(prev := link))]
    else slots
  }

  /** The write sequence of an unlink has the effect `Unlinked` describes. */
  lemma UnlinkByLinks(slots: seq<Slot>, list: seq<nat>, k: nat, freed: Slot)
    requires Linked(slots, list) && k < |list| && freed.state.Free?
    ensures IsLive(slots, list[k])
    ensures var state := slots[list[k]].state;
            var slots' := SetPrev(SetNext(slots, state.prev, state.next), state.next, state.prev);
            && |slots'| == |slots| && slots'[list[k]].state.Occupied?
            && slots'[list[k]].generation == slots[list[k]].generation
            && Unlinked(slots, slots'[list[k] := freed], list, k)
  {
    assert LinkedAt(slots, list, k);
  }

  /** The write sequence of an append has the effect `Appended` describes. */
  lemma AppendByLinks(slots: seq<Slot>, list: seq<nat>, idx: nat, order: Order)
    requires Linked(slots, list) && idx < |slots| && slots[idx].state.Free?
    ensures idx !in list && (list != [] ==> list[|list| - 1] < |slots|)
    ensures var slot := Slot(slots[idx].generation, Occupied(order, Last(list), None));
            var slots' := SetNext(slots[idx := slot], Last(list), Some(idx));
            |slots'| == |slots| && Appended(slots, slots', list, idx, order)
  {
    assert list != [] ==> IsLive(slots, list[|list| - 1]);
  }

  lemma AppendFree(slots: seq<Slot>, slots': seq<Slot>, list: seq<nat>, free: seq<nat>, order: Order)
    requires FreeListed(slots, free) && free != [] && AllLive(slots, list)
    requires Appended(slots, slots', list, free[0], order)
    ensures FreeListed(slots', free[1..])
  {
    assert FreeAt(slots, free, 0);
    hide FreeListed;
    PopFree(slots, slots', free);
  }

  lemma FreeHead(slots: seq<Slot>, free: seq<nat>)
    requires FreeListed(slots, free) && free != []
    ensures free[0] < |slots| && slots[free[0]].state == Free(First(free[1..]))
  {
    assert FreeAt(slots, free, 0);
  }

  lemma UnlinkFree(slots: seq<Slot>, slots': seq<Slot>, list: seq<nat>, k: nat, free: seq<nat>)
    requires FreeListed(slots, free) && Unlinked(slots, slots', list, k)
    requires slots'[list[k]] == Slot((slots[list[k]].generation + 1) % GENERATIONS, Free(First(free)))
    ensures FreeListed(slots', [list[k]] + free)
  {
    hide FreeListed, First, Before, After;
    PushFree(slots, slots', free, list[k]);
  }

  // ---------------------------------------------------------------- a quantity changes in place

  /** The slots after `qty` of the order in slot `i` has left the book. */
  function Reduced(slots: seq<Slot>, i: nat, qty: nat): seq<Slot>
    requires IsLive(slots, i) && qty <= OrderAt(slots, i).leavesQty
  {
    slots[i := slots[i].(state := slots[i].state.(order := OrderAt(slots, i).Reduced(qty)))]
  }

  lemma ReduceLevel(slots: seq<Slot>, list: seq<nat>, k: nat, level: PriceLevel, qty: nat)
    requires LevelOk(slots, list, level) && k < |list|
    requires IsLive(slots, list[k]) && qty <= OrderAt(slots, list[k]).leavesQty
    ensures qty <= level.totalQty
    ensures LevelOk(Reduced(slots, list[k], qty), list, level.(totalQty := level.totalQty - qty))
    ensures AllLive(slots, list)
    ensures Orders(Reduced(slots, list[k], qty), list) == Orders(slots, list)[k := OrderAt(slots, list[k]).Reduced(qty)]
  {
    hide Orders, Leaves;
    var slots', q := Reduced(slots, list[k], qty), Orders(slots, list);
    var o := q[k].Reduced(qty);
    assert forall p | 0 <= p < |list| :: LinkedAt(slots, list, p) ==> LinkedAt(slots', list, p);
    assert Orders(slots', list) == q[k := o];
    LeavesAround(q, k);
    LeavesUpdate(q, k, o);
  }

  lemma ReduceFree(slots: seq<Slot>, free: seq<nat>, i: nat, qty: nat)
    requires FreeListed(slots, free) && IsLive(slots, i) && qty <= OrderAt(slots, i).leavesQty
    ensures FreeListed(Reduced(slots, i, qty), free)
  {
    var slots' := Reduced(slots, i, qty);
    forall p | 0 <= p < |free|
      ensures FreeAt(slots', free, p)
    {
      assert FreeAt(slots, free, p);
    }
  }

  lemma LevelEnds(slots: seq<Slot>, list: seq<nat>, level: PriceLevel)
    requires LevelOk(slots, list, level)
    ensures level.head == First(list) && level.tail == Last(list) && Linked(slots, list) && AllLive(slots, list)
  {
  }

  /** What a level knows about its `k`-th order. */
  lemma LevelBounds(slots: seq<Slot>, list: seq<nat>, k: nat, level: PriceLevel)
    requires LevelOk(slots, list, level) && k < |list|
    ensures IsLive(slots, list[k])
    ensures slots[list[k]].state.prev == Before(list, k) && slots[list[k]].state.next == After(list, k)
    ensures Before(list, k).Some? ==> Before(list, k).value < |slots|
    ensures After(list, k).Some? ==> After(list, k).value < |slots|
    ensures level.head == Some(list[k]) <==> k == 0
    ensures level.tail == Some(list[k]) <==> k + 1 == |list|
    ensures level.orderCount >= 1 && level.totalQty >= OrderAt(slots, list[k]).leavesQty
  {
    assert LinkedAt(slots, list, k);
    hide Orders, Leaves;
    LeavesAround(Orders(slots, list), k);
  }

  // ---------------------------------------------------------------- the free list

  /** The head of the free list becomes a live slot; no other slot changes freeness. */
  lemma PopFree(slots: seq<Slot>, slots': seq<Slot>, free: seq<nat>)
    requires FreeListed(slots, free) && free != [] && |slots'| == |slots|
    requires slots'[free[0]].state.Occupied?
    requires forall i | 0 <= i < |slots| && i != free[0] ::
               if slots[i].state.Free? then slots'[i] == slots[i] else slots'[i].state.Occupied?
    requires forall i | 0 <= i < |slots| :: slots'[i].generation == slots[i].generation
    ensures FreeListed(slots', free[1..])
  {
    var free' := free[1..];
    forall p | 0 <= p < |free'|
      ensures free'[p] < |slots'| && FreeAt(slots', free', p)
    {
      assert FreeAt(slots, free, p + 1);
    }
  }

  /** A live slot goes to the head of the free list; no other slot changes freeness. */
  lemma PushFree(slots: seq<Slot>, slots': seq<Slot>, free: seq<nat>, idx: nat)
    requires FreeListed(slots, free) && IsLive(slots, idx) && |slots'| == |slots|
    requires slots'[idx].state == Free(First(free)) && slots'[idx].generation < GENERATIONS
    requires forall i | 0 <= i < |slots| && i != idx ::
               if slots[i].state.Free? then slots'[i] == slots[i] else slots'[i].state.Occupied?
    requires forall i | 0 <= i < |slots| && i != idx :: slots'[i].generation == slots[i].generation
    ensures FreeListed(slots', [idx] + free)
  {
    var free' := [idx] + free;
    forall p | 0 <= p < |free'|
      ensures free'[p] < |slots'| && FreeAt(slots', free', p) && (p > 0 ==> free'[p] != idx)
    {
      if p > 0 {
        assert FreeAt(slots, free, p - 1);
        assert free'[p] == free[p - 1] && After(free', p) == After(free, p - 1);
      }
    }
    assert Distinct(free') by {
      assert forall p | 0 < p < |free'| :: free'[p] == free[p - 1];
    }
    assert forall i | 0 <= i < |slots| && slots'[i].state.Free? :: i == free'[0] || i in free;
    assert forall i | i in free :: i in free';
  }

  lemma {:induction false} DistinctFits(list: seq<nat>, s: set<nat>)
    requires Distinct(list) && forall p | 0 <= p < |list| :: list[p] in s
    ensures |list| <= |s|
  {
    if list != [] {
      DistinctFits(list[1..], s - {list[0]});
    }
  }

  ghost function Upto(n: nat): (s: set<nat>)
    ensures |s| == n && forall i: nat :: i in s <==> i < n
  {
    if n == 0 then {} else Upto(n - 1) + {n - 1}
  }

  /** Where a slot is live, the free list is not the whole arena. */
  lemma LiveMeansNotAllFree(slots: seq<Slot>, free: seq<nat>, idx: nat)
    requires FreeListed(slots, free) && IsLive(slots, idx)
    ensures |free| < |slots|
  {
    var all := Upto(|slots|);
    forall p | 0 <= p < |free|
      ensures free[p] in all - {idx}
    {
      assert FreeAt(slots, free, p);
    }
    DistinctFits(free, all - {idx});
  }

  // ---------------------------------------------------------------- the arena as a pool

  ghost function Generations(slots: seq<Slot>): (r: seq<nat>)
    ensures |r| == |slots| && forall i | 0 <= i < |slots| :: r[i] == slots[i].generation
  {
    if slots == [] then [] else [slots[0].generation] + Generations(slots[1..])
  }

  lemma PoolInUse(slots: seq<Slot>, free: seq<nat>, i: nat)
    requires FreeListed(slots, free)
    ensures InUse(Pool(Generations(slots), free), i) <==> IsLive(slots, i)
  {
    hide Generations;
    if i in free {
      var p :| 0 <= p < |free| && free[p] == i;
      assert FreeAt(slots, free, p);
    }
  }

  lemma NothingFree(slots: seq<Slot>)
    ensures Apply(Pool(Generations(slots), []), AllocSlot) == Pool(Generations(slots), [])
  {
  }

  lemma FreeOfFree(slots: seq<Slot>, free: seq<nat>, i: nat)
    requires FreeListed(slots, free) && i < |slots|
    ensures slots[i].state.Free? ==>
              Apply(Pool(Generations(slots), free), FreeSlot(i)) == Pool(Generations(slots), free)
  {
    PoolInUse(slots, free, i);
  }

  lemma AppendPool(slots: seq<Slot>, slots': seq<Slot>, list: seq<nat>, free: seq<nat>, order: Order)
    requires free != [] && Appended(slots, slots', list, free[0], order)
    ensures Pool(Generations(slots'), free[1..]) == Apply(Pool(Generations(slots), free), AllocSlot)
  {
    hide Generations;
    assert forall i | 0 <= i < |slots| :: slots'[i].generation == slots[i].generation;
    assert Generations(slots') == Generations(slots);
  }

  lemma UnlinkPool(slots: seq<Slot>, slots': seq<Slot>, list: seq<nat>, k: nat, free: seq<nat>)
    requires FreeListed(slots, free) && Unlinked(slots, slots', list, k)
    requires slots'[list[k]].generation == (slots[list[k]].generation + 1) % GENERATIONS
    ensures Pool(Generations(slots'), [list[k]] + free) == Apply(Pool(Generations(slots), free), FreeSlot(list[k]))
  {
    hide Generations, FreeListed, Before, After;
    PoolInUse(slots, free, list[k]);
    assert IsLive(slots, list[k]);
    assert Generations(slots') == Generations(slots)[list[k] := (slots[list[k]].generation + 1) % GENERATIONS];
  }

  // ---------------------------------------------------------------- the arena

  class Arena {
    const store: array<Slot>
    var freeHead: Option<nat>
    var orderCount: nat
    ghost var free: seq<nat>

    ghost predicate Valid()
      reads this, store
    {
      && FreeListed(store[..], free) && freeHead == First(free)
      && orderCount + |free| == store.Length <= GENERATIONS
    }

    /** The arena as its handles see it. */
    ghost function View(): Pool
      reads this, store
    {
      Pool(Generations(store[..]), free)
    }

    /** Validation is resolution in the pool, of which the invariant is part. */
    lemma ValidateResolves(id: OrderId)
      requires Valid()
      ensures PoolOk(View()) && Validate(id) == Resolve(View(), id)
    {
      hide Generations;
      PoolInUse(store[..], free, id.index);
    }

    lemma Counts()
      requires Valid()
      ensures orderCount + |free| == store.Length
    {
    }

    constructor (capacity: nat)
      requires 1 <= capacity <= GENERATIONS
      ensures Valid() && fresh(store) && store.Length == capacity
      ensures orderCount == 0 && |free| == capacity && forall i | 0 <= i < capacity :: store[i].state.Free?
    {
      var vec := new Slot[capacity](_ => Slot(0, Free(None)));
      ghost var list := [];
      for i := 0 to capacity - 1
        invariant |list| == i
        invariant forall p | 0 <= p < i :: list[p] == p && vec[p] == Slot(0, Free(Some(p + 1)))
        invariant forall p | i <= p < capacity :: vec[p] == Slot(0, Free(None))
      {
        vec[i] := Slot(0, Free(Some(i + 1)));
        list := list + [i];
      }
      list := list + [capacity - 1];
      store := vec;
      freeHead := Some(0);
      orderCount := 0;
      free := list;
      new;
      assert forall p | 0 <= p < capacity :: list[p] == p;
      assert forall i | 0 <= i < capacity :: i == list[i];
      assert forall p | 0 <= p < capacity :: FreeAt(store[..], free, p);
    }

    /** The slot a handle names, if the handle is current and the slot is in use. */
    function Validate(id: OrderId): Option<nat>
      reads this, store
    {
      if id.index >= store.Length then None
      else if store[id.index].generation != id.generation then None
      else if store[id.index].state.Occupied? then Some(id.index) else None
    }

    /** The `next` link of a slot in use is redirected. */
    method RelinkNext(i: Option<nat>, link: Option<nat>)
      requires i.Some? ==> i.value < store.Length
      modifies store
      ensures store[..] == SetNext(old(store[..]), i, link)
    {
      if i.Some? && store[i.value].state.Occupied? {
        store[i.value] := store[i.value].(state := store[i.value].state.(next := link));
      }
    }

    /** The `prev` link of a slot in use is redirected. */
    method RelinkPrev(i: Option<nat>, link: Option<nat>)
      requires i.Some? ==> i.value < store.Length
      modifies store
      ensures store[..] == SetPrev(old(store[..]), i, link)
    {
      if i.Some? && store[i.value].state.Occupied? {
        store[i.value] := store[i.value].(state := store[i.value].state.(prev := link));
      }
    }

    method AllocOrder(order: Order, level: PriceLevel, ghost list: seq<nat>)
      returns (r: Result<OrderId, Order>, level': PriceLevel)
      requires Valid() && LevelOk(store[..], list, level)
      modifies this, store
      ensures Valid()
      ensures r.Err? <==> old(free) == []
      ensures r.Err? ==> store[..] == old(store[..]) && free == old(free) && level' == level
      ensures View() == Apply(old(View()), AllocSlot)
      ensures r.Ok? ==>
                var idx := r.value.index;
                && idx == old(free)[0] && free == old(free)[1..] && old(store[idx].state.Free?)
                && r.value.generation == old(store[idx].generation)
                && Appended(old(store[..]), store[..], list, idx, order)
                && LevelOk(store[..], list + [idx], level')
    {
      hide Linked, AllLive, Orders, Leaves, Appended, FreeListed, Generations, Apply, LevelOk;
      ghost var slots, free0 := store[..], free;
      match freeHead {
        case None =>
          r, level' := Err(order), level;
          NothingFree(slots);
        case Some(idx) =>
          FreeHead(slots, free);
          LevelEnds(slots, list, level);
          AppendByLinks(slots, list, idx, order);
          var nextFree := match store[idx].state
            case Free(nextFree) => nextFree
            case Occupied(_, _, _) => None;
          var generation := store[idx].generation;
          store[idx] := Slot(generation, Occupied(order, level.tail, None));
          level' := level;
          RelinkNext(level.tail, Some(idx));
          if level'.head.None? {
            level' := level'.(head := Some(idx));
          }
          level' := level'.(totalQty := level'.totalQty + order.leavesQty, tail := Some(idx),
                            orderCount := level'.orderCount + 1);
          freeHead := nextFree;
          orderCount := orderCount + 1;
          free := free[1..];
          AppendFree(slots, store[..], list, free0, order);
          AppendLevel(slots, store[..], list, idx, order, level, level');
          AppendPool(slots, store[..], list, free0, order);
          r := Ok(OrderId(idx, generation));
      }
    }

    method FreeOrder(idx: nat, level: PriceLevel, ghost list: seq<nat>, ghost k: nat) returns (level': PriceLevel)
      requires Valid() && LevelOk(store[..], list, level)
      requires idx < store.Length && (store[idx].state.Occupied? ==> k < |list| && list[k] == idx)
      modifies this, store
      ensures Valid()
      ensures View() == Apply(old(View()), FreeSlot(idx))
      ensures old(store[idx].state.Free?) ==> store[..] == old(store[..]) && free == old(free) && level' == level
      ensures old(store[idx].state.Occupied?) ==>
                && free == [idx] + old(free)
                && store[idx].generation == (old(store[idx].generation) + 1) % GENERATIONS
                && Unlinked(old(store[..]), store[..], list, k)
                && LevelOk(store[..], Cut(list, k), level')
    {
      hide Linked, AllLive, Orders, Leaves, Unlinked, FreeListed, Before, After, Cut, Generations, Apply,
           InUse, LevelOk, Last, SetNext, SetPrev;
      ghost var slots := store[..];
      level' := level;
      FreeOfFree(slots, free, idx);
      if store[idx].state.Free? {
        return;
      }
      var order, prev, next := store[idx].state.order, store[idx].state.prev, store[idx].state.next;
      var freed := Slot((store[idx].generation + 1) % GENERATIONS, Free(freeHead));
      LevelBounds(slots, list, k, level);
      LevelEnds(slots, list, level);
      UnlinkByLinks(slots, list, k, freed);
      LiveMeansNotAllFree(slots, free, idx);
      level' := level'.(totalQty := SaturatingSub(level'.totalQty, order.leavesQty));
      RelinkNext(prev, next);
      RelinkPrev(next, prev);
      if level'.head == Some(idx) {
        level' := level'.(head := next);
      }
      if level'.tail == Some(idx) {
        level' := level'.(tail := prev);
      }
      level' := level'.(orderCount := level'.orderCount - 1);
      store[idx] := Slot((store[idx].generation + 1) % GENERATIONS, Free(freeHead));
      freeHead := Some(idx);
      orderCount := orderCount - 1;
      ghost var free0 := free;
      free := [idx] + free;
      UnlinkFree(slots, store[..], list, k, free0);
      UnlinkLevel(slots, store[..], list, k, level, level');
      UnlinkPool(slots, store[..], list, k, free0);
    }
  }
}
