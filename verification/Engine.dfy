/**
  The matching engine: the handlers of the three commands over the order book, the index of client
  order ids and the per-client counters.  Each handler is proved to do to the abstract state, and to
  emit, exactly what `Exchange` says.
 */
module Engines {
  import opened Types
  import opened Handles
  import opened Arenas
  import opened Ladders
  import opened Books
  import opened Exchange
  import opened ExchangeInvariant
  import opened EventBuffers

  /** Where the order of a client order id rests. */
  datatype OrderLocator = OrderLocator(oid: OrderId, tick: nat, side: Side, internalId: nat)

  // ---------------------------------------------------------------- the index

  function Ids(index: map<Key, OrderLocator>): map<Key, nat> {
    map key | key in index :: index[key].internalId
  }

  /** The locator names a live slot, under its current generation, that holds the order of this key. */
  ghost predicate LocatorOk(cfg: Config, slots: seq<Slot>, key: Key, loc: OrderLocator)
    requires cfg.Valid()
  {
    && IsLive(slots, loc.oid.index) && slots[loc.oid.index].generation == loc.oid.generation
    && var o := OrderAt(slots, loc.oid.index);
       && o.Key() == key && o.side == loc.side && o.orderId == loc.internalId
       && PriceToTick(cfg, o.price) == Some(loc.tick)
  }

  ghost predicate LocatorsOk(cfg: Config, slots: seq<Slot>, index: map<Key, OrderLocator>)
    requires cfg.Valid()
  {
    forall key | key in index :: LocatorOk(cfg, slots, key, index[key])
  }

  lemma IdsWithout(index: map<Key, OrderLocator>, key: Key)
    ensures Ids(index - {key}) == Ids(index) - {key}
  {
  }

  lemma IdsWith(index: map<Key, OrderLocator>, key: Key, loc: OrderLocator)
    ensures Ids(index[key := loc]) == Ids(index)[key := loc.internalId]
  {
  }

  /** When the order of slot `idx` goes and its key leaves the index, the other locators stay good. */
  lemma LocatorsAfterRemoval(cfg: Config, slots: seq<Slot>, slots': seq<Slot>, index: map<Key, OrderLocator>, idx: nat)
    requires cfg.Valid() && LocatorsOk(cfg, slots, index)
    requires IsLive(slots, idx) && OthersKept(slots, slots', idx)
    ensures LocatorsOk(cfg, slots', index - {OrderAt(slots, idx).Key()})
  {
    hide PriceToTick;
  }

  /** When a free slot takes a new order, the locators that are not overwritten stay good. */
  lemma LocatorsAfterAddition(cfg: Config, slots: seq<Slot>, slots': seq<Slot>, index: map<Key, OrderLocator>,
                              key: Key, loc: OrderLocator)
    requires cfg.Valid() && LocatorsOk(cfg, slots, index)
    requires !IsLive(slots, loc.oid.index) && OthersKept(slots, slots', loc.oid.index)
    requires LocatorOk(cfg, slots', key, loc)
    ensures LocatorsOk(cfg, slots', index[key := loc])
  {
    hide PriceToTick;
  }

  lemma LocatorsAfterReduction(cfg: Config, slots: seq<Slot>, index: map<Key, OrderLocator>, idx: nat, qty: nat)
    requires cfg.Valid() && LocatorsOk(cfg, slots, index)
    requires IsLive(slots, idx) && qty <= OrderAt(slots, idx).leavesQty
    ensures LocatorsOk(cfg, Reduced(slots, idx, qty), index)
  {
    hide PriceToTick;
    forall key | key in index
      ensures LocatorOk(cfg, Reduced(slots, idx, qty), key, index[key])
    {
      assert LocatorOk(cfg, slots, key, index[key]);
    }
  }

  // ---------------------------------------------------------------- the accounts

  /** A client without an account has no open orders. */
  function Balance(clients: map<u64, nat>, client: u64): nat {
    if client in clients then clients[client] else 0
  }

  /** Every client's counter is the number of orders it has resting. */
  ghost predicate AccountsOk(clients: map<u64, nat>, s: State) {
    forall c: u64 :: Balance(clients, c) == s.OpenOrders(c)
  }

  /** The client, if it has an account, has one open order less, and never fewer than none. */
  function Closed(clients: map<u64, nat>, client: u64): map<u64, nat> {
    if client in clients then clients[client := SaturatingSub(clients[client], 1)] else clients
  }

  /** The client has an account: the one it had, or a new one without open orders. */
  function Opened(clients: map<u64, nat>, client: u64): map<u64, nat> {
    if client in clients then clients else clients[client := 0]
  }

  lemma AccountsAfterRemoval(cfg: Config, clients: map<u64, nat>, s: State, o: Order)
    requires cfg.Valid() && Inv(cfg, s) && AccountsOk(clients, s) && Resting(s, o)
    ensures AccountsOk(Closed(clients, o.clientId), Removed(s, o))
    ensures o.clientId in clients && clients[o.clientId] > 0
  {
    RemovedBook(cfg, s, o);
    hide State.OpenOrders, Inv, Resting, Removed;
    assert s.OpenOrders(o.clientId) > 0;
    forall c: u64
      ensures Balance(Closed(clients, o.clientId), c) == Removed(s, o).OpenOrders(c)
    {
      assert Balance(clients, c) == s.OpenOrders(c);
    }
  }

  lemma AccountsAfterRest(cfg: Config, clients: map<u64, nat>, s: State, o: Order)
    requires cfg.Valid() && Inv(cfg, s) && AccountsOk(clients, s) && Fresh(cfg, s, o)
    ensures AccountsOk(Opened(clients, o.clientId)[o.clientId := Balance(clients, o.clientId) + 1], Rested(cfg, s, o))
  {
    RestedBook(cfg, s, o);
    hide State.OpenOrders, Inv, Resting, Rested, Fresh;
    forall c: u64
      ensures Balance(Opened(clients, o.clientId)[o.clientId := Balance(clients, o.clientId) + 1], c) ==
              Rested(cfg, s, o).OpenOrders(c)
    {
      assert Balance(clients, c) == s.OpenOrders(c);
    }
  }

  lemma AccountsAfterReduction(cfg: Config, clients: map<u64, nat>, s: State, o: Order, o': Order)
    requires cfg.Valid() && Inv(cfg, s) && AccountsOk(clients, s) && Resting(s, o)
    requires SameButQuantities(o, o') && o'.leavesQty > 0
    ensures AccountsOk(clients, WithOrder(s, o'))
  {
    ReplacedBook(cfg, s, o, o');
    hide State.OpenOrders, Inv, Resting, WithOrder;
    forall c: u64
      ensures Balance(clients, c) == WithOrder(s, o').OpenOrders(c)
    {
      assert Balance(clients, c) == s.OpenOrders(c);
    }
  }

  lemma AccountsAfterOpening(clients: map<u64, nat>, s: State, client: u64)
    requires AccountsOk(clients, s)
    ensures AccountsOk(Opened(clients, client), s)
    ensures Balance(clients, client) == Opened(clients, client)[client] == s.OpenOrders(client)
  {
    hide State.OpenOrders;
    assert Balance(clients, client) == s.OpenOrders(client);
    forall c: u64
      ensures Balance(Opened(clients, client), c) == s.OpenOrders(c)
    {
      assert Balance(clients, c) == s.OpenOrders(c);
    }
  }

  /** Taking an order off and putting it back changes no counter, and there is room for it. */
  lemma RequeueFresh(cfg: Config, clients: map<u64, nat>, s: State, o: Order, o': Order)
    requires cfg.Valid() && Inv(cfg, s) && AccountsOk(clients, s) && Resting(s, o)
    requires o'.orderId == o.orderId && o'.clientId == o.clientId && o'.leavesQty > 0
    requires PriceToTick(cfg, o'.price).Some?
    ensures var s1 := Removed(s, o);
            && |s1.bids| + |s1.asks| < cfg.capacity
            && Inv(cfg, Rested(cfg, s1, o')) && AccountsOk(clients, Rested(cfg, s1, o'))
  {
    var s1 := Removed(s, o);
    RequeueKeepsInv(cfg, s, o, o');
    IdInRange(cfg, s, o);
    RemovedBook(cfg, s, o);
    assert Fresh(cfg, s1, o');
    RestedBook(cfg, s1, o');
    hide State.OpenOrders, Inv, Resting, Rested, Removed, PriceToTick;
    forall c: u64
      ensures Balance(clients, c) == Rested(cfg, s1, o').OpenOrders(c)
    {
      assert Balance(clients, c) == s.OpenOrders(c);
    }
  }

  lemma IdInRange(cfg: Config, s: State, o: Order)
    requires cfg.Valid() && Inv(cfg, s) && Resting(s, o)
    ensures 1 <= o.orderId < s.nextId == Removed(s, o).nextId
  {
    hide Rank, PriceToTick;
  }

  lemma AccountsSame(clients: map<u64, nat>, s: State, s': State)
    requires AccountsOk(clients, s) && s'.bids == s.bids && s'.asks == s.asks
    ensures AccountsOk(clients, s')
  {
    forall c: u64
      ensures Balance(clients, c) == s'.OpenOrders(c)
    {
      assert Balance(clients, c) == s.OpenOrders(c);
    }
  }

  // ---------------------------------------------------------------- queue changes, named by order id

  lemma CutIsWithout(cfg: Config, q: seq<Order>, side: Side, nextId: nat, j: nat)
    requires cfg.Valid() && SideOk(cfg, q, side, nextId) && j < |q|
    ensures Cut(q, j) == Without(q, q[j].orderId) && q[j] in q && q[j].side == side
  {
    PositionOf(q, j);
  }

  lemma UpdateIsReplaced(cfg: Config, q: seq<Order>, side: Side, nextId: nat, j: nat, o': Order)
    requires cfg.Valid() && SideOk(cfg, q, side, nextId) && j < |q| && o'.orderId == q[j].orderId
    ensures q[j := o'] == Replaced(q, o') && q[j] in q && q[j].side == side
  {
    PositionOf(q, j);
  }

  lemma HeadIsResting(cfg: Config, s: State, side: Side)
    requires cfg.Valid() && Inv(cfg, s) && s.Queue(side) != []
    ensures Resting(s, s.Queue(side)[0]) && s.Queue(side)[0].side == side && s.Queue(side)[0].leavesQty > 0
  {
    hide Rank, PriceToTick;
    assert s.Queue(side)[0] in s.Queue(side);
  }

  lemma FreshHasLeaves(cfg: Config, s: State, o: Order)
    requires cfg.Valid() && Fresh(cfg, s, o)
    ensures o.leavesQty > 0
  {
  }

  lemma LiveBounded(cfg: Config, s: State)
    requires cfg.Valid() && Inv(cfg, s)
    ensures |s.bids| + |s.asks| == s.Live() <= cfg.capacity
  {
  }

  // ---------------------------------------------------------------- one turn of the sweep

  /** The state after the aggressor has met the head of the queue. */
  function AfterHead(s: State, a: Aggressor, qty: nat): State
    requires s.Queue(Opposite(a.side)) != []
  {
    var o := s.Queue(Opposite(a.side))[0];
    if qty < o.leavesQty then WithOrder(s, o.Reduced(qty)) else Removed(s, o)
  }

  /** Where the aggressor is done, or nothing crosses, a sweep does nothing. */
  lemma NoTurn(cfg: Config, s: State, a: Aggressor, qty: nat)
    requires cfg.Valid()
    requires var q := s.Queue(Opposite(a.side)); qty == 0 || q == [] || !Crosses(cfg, a, TickOf(cfg, q[0]))
    ensures var q := s.Queue(Opposite(a.side));
            Match(cfg, a, q, qty) == Sweep([], [], q, qty) && Swept(s, a, Match(cfg, a, q, qty)) == s
  {
    SweepNone(cfg, s, a, qty);
    hide Crosses, TickOf, Swept;
  }

  lemma MatchPartial(cfg: Config, a: Aggressor, q: seq<Order>, qty: nat)
    requires cfg.Valid() && q != [] && 0 < qty < q[0].leavesQty && Crosses(cfg, a, TickOf(cfg, q[0]))
    ensures Match(cfg, a, q, qty).events == [FillOf(a, q[0], qty)] && Match(cfg, a, q, qty).left == 0
  {
    hide Crosses, TickOf;
  }

  /** A sweep is its first fill followed by a sweep of what is left. */
  lemma OneTurn(cfg: Config, s: State, a: Aggressor, qty: nat)
    requires cfg.Valid() && Inv(cfg, s) && qty > 0
    requires var q := s.Queue(Opposite(a.side)); q != [] && Crosses(cfg, a, TickOf(cfg, q[0]))
    ensures var o := s.Queue(Opposite(a.side))[0];
            var s', fill := AfterHead(s, a, qty), Min(qty, o.leavesQty);
            var sweep, rest := Match(cfg, a, s.Queue(Opposite(a.side)), qty),
                               Match(cfg, a, s'.Queue(Opposite(a.side)), qty - fill);
            && sweep.events == [FillOf(a, o, fill)] + rest.events && sweep.left == rest.left
            && Swept(s, a, sweep) == Swept(s', a, rest)
            && s'.Live() <= s.Live() && (qty < o.leavesQty || s'.Live() < s.Live()) && fill > 0
  {
    var q := s.Queue(Opposite(a.side));
    hide Inv, Crosses, TickOf, Swept, Resting, Removed, Match, WithOrder;
    HeadIsResting(cfg, s, Opposite(a.side));
    if qty < q[0].leavesQty {
      MatchPartial(cfg, a, q, qty);
      NoTurn(cfg, AfterHead(s, a, qty), a, 0);
      SweepPartial(cfg, s, a, qty);
      KeptReplaced(cfg, s, q[0], q[0].Reduced(qty));
    } else {
      SweepHead(cfg, s, a, qty);
      MatchHead(cfg, a, q, qty);
      KeptRemoved(cfg, s, q[0]);
    }
  }

  lemma EmptyEngine(cfg: Config, slots: seq<Slot>)
    requires cfg.Valid()
    ensures Inv(cfg, EMPTY) && LocatorsOk(cfg, slots, map[]) && AccountsOk(map[], EMPTY)
  {
    EmptyInv(cfg);
  }

  // ---------------------------------------------------------------- the engine

  class Engine {
    const book: OrderBook
    var clients: map<u64, nat>
    var orderIndex: map<Key, OrderLocator>
    var nextOrderId: nat

    ghost function Repr(): set<object> {
      {this} + book.repr
    }

    /** The exchange this engine stands for. */
    ghost function Abs(): State
      requires book.Valid()
      reads this, book.repr
    {
      State(book.Queue(Buy), book.Queue(Sell), Ids(orderIndex), nextOrderId)
    }

    /** The invariant, the client counters aside. */
    ghost predicate Core()
      reads this, book.repr
    {
      && this !in book.repr && book.Valid()
      && Inv(book.cfg, Abs()) && LocatorsOk(book.cfg, book.Slots(), orderIndex)
    }

    ghost predicate Valid()
      reads this, book.repr
    {
      Core() && AccountsOk(clients, Abs())
    }

    constructor (basePrice: u64, tickSize: u64, capacity: nat)
      requires 1 <= tickSize && 1 <= capacity <= GENERATIONS
      ensures Valid() && fresh(Repr()) && book.cfg == Config(basePrice, tickSize, capacity)
      ensures Abs() == EMPTY
    {
      hide OrderBook.Valid, OrderBook.Queue, Inv, LocatorsOk, AccountsOk;
      book := new OrderBook(basePrice, tickSize, capacity);
      clients, orderIndex, nextOrderId := map[], map[], 1;
      new;
      EmptyEngine(book.cfg, book.Slots());
      assert Ids(orderIndex) == map[];
    }

    lemma InvParts()
      requires Core()
      ensures book.cfg.Valid() && nextOrderId >= 1
      ensures var s := Abs();
              && SideOk(book.cfg, s.bids, Buy, s.nextId) && SideOk(book.cfg, s.asks, Sell, s.nextId)
              && s.Queue(Buy) == book.Queue(Buy) && s.Queue(Sell) == book.Queue(Sell)
              && s.index == Ids(orderIndex) && s.nextId == nextOrderId
    {
    }

    /** Every client's counter is exact and within the limit; no account means no resting orders. */
    lemma CountersExact(client: u64)
      requires Valid()
      ensures Balance(clients, client) == Owned(book.Queue(Buy), client) + Owned(book.Queue(Sell), client)
      ensures Balance(clients, client) <= MAX_OPEN_ORDERS
    {
      hide OrderBook.Valid, OrderBook.Queue, LocatorsOk, BookOk, IndexOk;
      assert Balance(clients, client) == Abs().OpenOrders(client);
    }

    /** The order in `slotIdx` leaves the book and its key leaves the index. */
    method Withdraw(side: Side, tick: nat, slotIdx: nat, key: Key)
      requires Core() && IsLive(book.Slots(), slotIdx)
      requires var o := OrderAt(book.Slots(), slotIdx);
               o.side == side && PriceToTick(book.cfg, o.price) == Some(tick) && o.Key() == key
      modifies Repr()
      ensures Core() && clients == old(clients)
      ensures Resting(old(Abs()), OrderAt(old(book.Slots()), slotIdx))
      ensures Abs() == Removed(old(Abs()), OrderAt(old(book.Slots()), slotIdx))
    {
      hide SideOk, Inv, OrderBook.Valid, OrderBook.Queue, PriceToTick, LocatorsOk, OthersKept, Without, Cut, Ids;
      ghost var s, slots, index := Abs(), book.Slots(), orderIndex;
      InvParts();
      ghost var j := book.RemoveOrder(side, tick, slotIdx);
      orderIndex := orderIndex - {key};
      ghost var o := OrderAt(slots, slotIdx);
      CutIsWithout(book.cfg, s.Queue(side), side, s.nextId, j);
      IdsWithout(index, key);
      assert Abs() == Removed(s, o);
      RemovedKeepsInv(book.cfg, s, o);
      LocatorsAfterRemoval(book.cfg, slots, book.Slots(), index, slotIdx);
    }

    /** `qty` of the order in `slotIdx` goes; the order keeps its place. */
    method Reduce(side: Side, tick: nat, slotIdx: nat, qty: nat)
      requires Valid() && IsLive(book.Slots(), slotIdx)
      requires var o := OrderAt(book.Slots(), slotIdx);
               o.side == side && PriceToTick(book.cfg, o.price) == Some(tick) && qty < o.leavesQty
      modifies Repr()
      ensures Valid()
      ensures Resting(old(Abs()), OrderAt(old(book.Slots()), slotIdx))
      ensures Abs() == WithOrder(old(Abs()), OrderAt(old(book.Slots()), slotIdx).Reduced(qty))
    {
      hide SideOk, Inv, OrderBook.Valid, OrderBook.Queue, PriceToTick, LocatorsOk, Replaced, Ids, AccountsOk;
      ghost var s, slots, index := Abs(), book.Slots(), orderIndex;
      InvParts();
      ghost var j := book.ReduceOrder(side, tick, slotIdx, qty);
      ghost var o := OrderAt(slots, slotIdx);
      UpdateIsReplaced(book.cfg, s.Queue(side), side, s.nextId, j, o.Reduced(qty));
      assert Abs() == WithOrder(s, o.Reduced(qty));
      ReplacedKeepsInv(book.cfg, s, o, o.Reduced(qty));
      AccountsAfterReduction(book.cfg, clients, s, o, o.Reduced(qty));
      LocatorsAfterReduction(book.cfg, slots, index, slotIdx, qty);
    }

    // -------------------------------------------------------------- matching

    ghost predicate Apart(out: EventBuffer) {
      out.Repr() !! Repr()
    }

    /** One fill against the order at the head of the other side. */
    method Trade(a: Aggressor, tick: nat, slotIdx: nat, quantity: nat, out: EventBuffer) returns (leaves: nat)
      requires Valid() && out.Valid() && Apart(out) && quantity > 0
      requires var q := Abs().Queue(Opposite(a.side));
               && q != [] && IsLive(book.Slots(), slotIdx) && OrderAt(book.Slots(), slotIdx) == q[0]
               && PriceToTick(book.cfg, q[0].price) == Some(tick)
      modifies Repr(), out.Repr()
      ensures Valid() && out.Valid()
      ensures var s, o := old(Abs()), old(Abs()).Queue(Opposite(a.side))[0];
              var fill := Min(quantity, o.leavesQty);
              && leaves == quantity - fill && Resting(s, o)
              && out.emitted == old(out.emitted) + [FillOf(a, o, fill)]
              && Abs() == if quantity < o.leavesQty then WithOrder(s, o.Reduced(quantity)) else Removed(s, o)
    {
      hide SideOk, Inv, OrderBook.Valid, OrderBook.Queue, PriceToTick, LocatorsOk, Replaced, Ids, AccountsOk, Without,
           EventBuffer.Valid;
      InvParts();
      HeadIsResting(book.cfg, Abs(), Opposite(a.side));
      ghost var s := Abs();
      var resting := book.arena.store[slotIdx].state.order;
      var fill := Min(quantity, resting.leavesQty);
      out.Emit(Fill(a.orderId, resting.orderId, a.clientId, resting.clientId, a.symbol, resting.price, fill, a.side));
      leaves := quantity - fill;
      if fill == resting.leavesQty {
        Withdraw(Opposite(a.side), tick, slotIdx, (resting.clientId, resting.clientOrderId));
        clients := Closed(clients, resting.clientId);
        AccountsAfterRemoval(book.cfg, old(clients), s, resting);
      } else {
        Reduce(Opposite(a.side), tick, slotIdx, fill);
      }
    }

    /** The head of the other side, if there is one and it crosses: its tick and its slot. */
    method CrossingHead(a: Aggressor) returns (head: Option<(nat, nat)>)
      requires Valid()
      ensures var q := Abs().Queue(Opposite(a.side));
              && (head.None? ==> q == [] || !Crosses(book.cfg, a, TickOf(book.cfg, q[0])))
              && (head.Some? ==>
                    && q != [] && Crosses(book.cfg, a, TickOf(book.cfg, q[0]))
                    && IsLive(book.Slots(), head.value.1) && OrderAt(book.Slots(), head.value.1) == q[0]
                    && PriceToTick(book.cfg, q[0].price) == Some(head.value.0))
    {
      hide SideOk, Inv, OrderBook.Valid, OrderBook.Queue, PriceToTick, LocatorsOk, Ids, AccountsOk, TickOf;
      InvParts();
      var bestTick := book.BestTick(Opposite(a.side));
      if bestTick.None? {
        return None;
      }
      var tick := bestTick.value;
      if a.limit.Some? {
        var bestPrice := TickToPrice(book.cfg, tick);
        var crosses := if a.side == Buy then a.limit.value >= bestPrice else a.limit.value <= bestPrice;
        if !crosses {
          return None;
        }
      }
      var slotIdx := book.HeadSlot(Opposite(a.side), tick);
      return if slotIdx.Some? then Some((tick, slotIdx.value)) else None;
    }

    method MatchAggressor(a: Aggressor, quantity: nat, out: EventBuffer) returns (leaves: nat)
      requires Valid() && out.Valid() && Apart(out)
      modifies Repr(), out.Repr()
      ensures Valid() && out.Valid()
      ensures var sweep := Match(book.cfg, a, old(Abs()).Queue(Opposite(a.side)), quantity);
              && leaves == sweep.left
              && Abs() == Swept(old(Abs()), a, sweep)
              && out.emitted == old(out.emitted) + sweep.events
    {
      hide SideOk, Inv, OrderBook.Valid, OrderBook.Queue, PriceToTick, LocatorsOk, Ids, AccountsOk, Swept, WithOrder,
           Removed, EventBuffer.Valid, Resting, TickOf, Match, Crosses, FillOf, State.Live;
      InvParts();
      leaves := quantity;
      ghost var s := Abs();
      ghost var all := Match(book.cfg, a, s.Queue(Opposite(a.side)), quantity);
      ghost var rest := all;
      while true
        invariant Valid() && out.Valid() && s == Abs()
        invariant rest == Match(book.cfg, a, s.Queue(Opposite(a.side)), leaves)
        invariant all.left == rest.left && old(out.emitted) + all.events == out.emitted + rest.events
        invariant Swept(old(Abs()), a, all) == Swept(s, a, rest)
        decreases s.Live(), leaves
      {
        if leaves == 0 {
          break;
        }
        var head := CrossingHead(a);
        if head.None? {
          break;
        }
        OneTurn(book.cfg, s, a, leaves);
        leaves := Trade(a, head.value.0, head.value.1, leaves, out);
        s := Abs();
        rest := Match(book.cfg, a, s.Queue(Opposite(a.side)), leaves);
      }
      NoTurn(book.cfg, s, a, leaves);
    }

    // -------------------------------------------------------------- place

    /** What is left of a limit order rests, if the arena has a slot. */
    method RestResidual(o: Order, tick: nat, out: EventBuffer)
      requires Valid() && out.Valid() && Apart(out)
      requires Fresh(book.cfg, Abs(), o) && PriceToTick(book.cfg, o.price) == Some(tick)
      requires Abs().OpenOrders(o.clientId) < MAX_OPEN_ORDERS
      modifies Repr(), out.Repr()
      ensures Valid() && out.Valid()
      ensures var r := Rest(book.cfg, old(Abs()), o);
              Abs() == r.state && out.emitted == old(out.emitted) + r.events
    {
      hide SideOk, OrderBook.Valid, OrderBook.Queue, PriceToTick, LocatorsOk, Ids, AccountsOk, EventBuffer.Valid,
           Insert, State.OpenOrders, OthersKept, BookOk, IndexOk;
      InvParts();
      FreshHasLeaves(book.cfg, Abs(), o);
      hide Fresh;
      ghost var s, slots, index := Abs(), book.Slots(), orderIndex;
      LiveBounded(book.cfg, s);
      hide Inv;
      var r := book.AddOrder(o.side, tick, o);
      if r.Ok? {
        clients := Opened(clients, o.clientId);
        clients := clients[o.clientId := clients[o.clientId] + 1];
        var key, loc := (o.clientId, o.clientOrderId), OrderLocator(r.value, tick, o.side, o.orderId);
        orderIndex := orderIndex[key := loc];
        IdsWith(index, key, loc);
        assert Abs() == Rested(book.cfg, s, o);
        RestedKeepsInv(book.cfg, s, o);
        AccountsAfterRest(book.cfg, old(clients), s, o);
        AccountsAfterOpening(old(clients), s, o.clientId);
        LocatorsAfterAddition(book.cfg, slots, book.Slots(), index, key, loc);
        out.Emit(OrderAccepted(o.orderId, o.clientId, o.clientOrderId, o.symbol, o.side, o.price, o.leavesQty));
      } else {
        assert Abs() == s;
        out.Emit(OrderRejected(o.clientId, o.clientOrderId, ArenaFull));
      }
    }

    /** A limit order that has its internal id sweeps, and what is left of it rests. */
    method PlaceLimitOrder(a: Aggressor, clientOrderId: u64, price: u64, tick: nat, quantity: nat, out: EventBuffer)
      requires Valid() && out.Valid() && Apart(out)
      requires a.limit == Some(price) && PriceToTick(book.cfg, price) == Some(tick)
      requires 1 <= a.orderId < nextOrderId && Abs().OpenOrders(a.clientId) < MAX_OPEN_ORDERS
      requires forall p | Resting(Abs(), p) :: p.orderId != a.orderId
      modifies Repr(), out.Repr()
      ensures Valid() && out.Valid()
      ensures var r := PlaceLimit(book.cfg, old(Abs()), a, clientOrderId, price, quantity);
              Abs() == r.state && out.emitted == old(out.emitted) + r.events
    {
      hide SideOk, OrderBook.Valid, OrderBook.Queue, PriceToTick, LocatorsOk, Ids, AccountsOk, EventBuffer.Valid,
           State.OpenOrders, Inv, Resting, Match, Swept, Fresh, Rested;
      InvParts();
      ghost var s := Abs();
      SweepKeepsInv(book.cfg, s, a, quantity);
      var leaves := MatchAggressor(a, quantity, out);
      if leaves > 0 {
        var o := Order(a.orderId, a.clientId, clientOrderId, a.symbol, a.side, Limit, Gtc, price, quantity, leaves,
                       quantity - leaves);
        FreshAfterSweep(book.cfg, s, Abs(), o);
        assert Abs().OpenOrders(a.clientId) <= s.OpenOrders(a.clientId);
        RestResidual(o, tick, out);
      }
    }

    method ProcessPlace(cmd: Command, out: EventBuffer)
      requires Valid() && out.Valid() && Apart(out) && cmd.Place?
      modifies Repr(), out.Repr()
      ensures Valid() && out.Valid()
      ensures var r := PlaceOrder(book.cfg, old(Abs()), cmd);
              Abs() == r.state && out.emitted == old(out.emitted) + r.events
    {
      hide SideOk, OrderBook.Valid, OrderBook.Queue, PriceToTick, LocatorsOk, Ids, AccountsOk, EventBuffer.Valid,
           State.OpenOrders, Inv, Resting, Match, Swept, PlaceLimit;
      InvParts();
      ghost var s := Abs();
      if cmd.quantity == 0 {
        out.Emit(OrderRejected(cmd.clientId, cmd.clientOrderId, InvalidQuantity));
        return;
      }
      AccountsAfterOpening(clients, s, cmd.clientId);
      clients := Opened(clients, cmd.clientId);
      if clients[cmd.clientId] >= MAX_OPEN_ORDERS {
        assert Abs() == s;
        out.Emit(OrderRejected(cmd.clientId, cmd.clientOrderId, ClientOrderLimitExceeded));
        return;
      }
      var orderId := nextOrderId;
      nextOrderId := nextOrderId + 1;
      assert Abs() == s.(nextId := s.nextId + 1);
      NextIdKeepsInv(book.cfg, s);
      AccountsSame(clients, s, Abs());
      assert Abs().OpenOrders(cmd.clientId) < MAX_OPEN_ORDERS;
      if cmd.orderType == Market {
        var leaves := MatchAggressor(Aggressor(orderId, cmd.clientId, cmd.symbol, cmd.side, None), cmd.quantity, out);
        if leaves > 0 {
          out.Emit(OrderCancelled(orderId, cmd.clientId, leaves));
        }
      } else {
        var tick := if cmd.price.Some? then PriceToTick(book.cfg, cmd.price.value) else None;
        if tick.None? {
          out.Emit(OrderRejected(cmd.clientId, cmd.clientOrderId, InvalidPrice));
        } else {
          PlaceLimitOrder(Aggressor(orderId, cmd.clientId, cmd.symbol, cmd.side, cmd.price), cmd.clientOrderId,
                          cmd.price.value, tick.value, cmd.quantity, out);
        }
      }
    }

    // -------------------------------------------------------------- cancel

    /** The index is never stale: its locator validates, to a slot that holds the order `Find` finds. */
    lemma Located(key: Key)
      requires Core()
      ensures key !in orderIndex ==> Abs().Find(key) == None
      ensures key in orderIndex ==>
                var loc := orderIndex[key];
                && book.arena.Validate(loc.oid) == Some(loc.oid.index) && IsLive(book.Slots(), loc.oid.index)
                && var o := OrderAt(book.Slots(), loc.oid.index);
                   && o.Key() == key && o.side == loc.side && o.orderId == loc.internalId
                   && PriceToTick(book.cfg, o.price) == Some(loc.tick)
                   && Abs().Find(key) == Some(o) && Resting(Abs(), o) && o.leavesQty > 0
    {
      hide SideOk, OrderBook.Valid, OrderBook.Queue, PriceToTick, State.Locate;
      InvParts();
      FoundIsResting(book.cfg, Abs(), key);
      if key in orderIndex {
        var loc := orderIndex[key];
        assert LocatorOk(book.cfg, book.Slots(), key, loc);
        book.LiveIsQueued(loc.oid.index);
        LocateMember(book.cfg, Abs(), OrderAt(book.Slots(), loc.oid.index));
      }
    }

    method ProcessCancel(clientId: u64, clientOrderId: u64, out: EventBuffer)
      requires Valid() && out.Valid() && Apart(out)
      modifies Repr(), out.Repr()
      ensures Valid() && out.Valid()
      ensures var r := CancelOrder(old(Abs()), clientId, clientOrderId);
              Abs() == r.state && out.emitted == old(out.emitted) + r.events
    {
      hide SideOk, Inv, OrderBook.Valid, OrderBook.Queue, PriceToTick, LocatorsOk, Ids, AccountsOk, EventBuffer.Valid,
           Resting, Removed, State.Find;
      var key := (clientId, clientOrderId);
      InvParts();
      Located(key);
      if key !in orderIndex {
        out.Emit(CancelRejected(clientOrderId, clientId));
        return;
      }
      var locator := orderIndex[key];
      var slot := book.arena.Validate(locator.oid);
      if slot.None? {
        assert false;
      }
      var slotIdx := slot.value;
      var order := book.arena.store[slotIdx].state.order;
      if order.clientId != clientId {
        assert false;
      }
      ghost var s := Abs();
      Withdraw(locator.side, locator.tick, slotIdx, key);
      AccountsAfterRemoval(book.cfg, clients, s, order);
      clients := Closed(clients, clientId);
      out.Emit(OrderCancelled(locator.internalId, clientId, order.leavesQty));
    }

    // -------------------------------------------------------------- modify

    method ProcessModify(clientId: u64, clientOrderId: u64, newPrice: Option<u64>, newQty: Option<u64>,
                         out: EventBuffer)
      requires Valid() && out.Valid() && Apart(out)
      modifies Repr(), out.Repr()
      ensures Valid() && out.Valid()
      ensures var r := ModifyOrder(book.cfg, old(Abs()), clientId, clientOrderId, newPrice, newQty);
              Abs() == r.state && out.emitted == old(out.emitted) + r.events
    {
      hide SideOk, Inv, OrderBook.Valid, OrderBook.Queue, PriceToTick, LocatorsOk, Ids, AccountsOk, EventBuffer.Valid,
           Resting, Removed, WithOrder, Rested, State.Find;
      var key := (clientId, clientOrderId);
      InvParts();
      Located(key);
      if key !in orderIndex {
        out.Emit(ModifyRejected(clientOrderId, clientId));
        return;
      }
      var locator := orderIndex[key];
      var slot := book.arena.Validate(locator.oid);
      if slot.None? {
        assert false;
      }
      var slotIdx := slot.value;
      var order := book.arena.store[slotIdx].state.order;
      if order.clientId != clientId {
        assert false;
      }
      var targetPrice := OrElse(newPrice, order.price);
      var targetLeaves := OrElse(newQty, order.leavesQty);
      if targetLeaves == 0 {
        out.Emit(ModifyRejected(locator.internalId, clientId));
        return;
      }
      var priceChanged := targetPrice != order.price;
      var qtyIncreased := targetLeaves > order.leavesQty;
      if !priceChanged && !qtyIncreased {
        Reduce(locator.side, locator.tick, slotIdx, order.leavesQty - targetLeaves);
        out.Emit(OrderModified(locator.internalId, clientId, targetPrice, targetLeaves));
        return;
      }
      Requeue(locator, key, slotIdx, targetPrice, targetLeaves, out);
    }

    /** The order is taken off the book and, if its new price is on the ladder, put back at the tail of
        its new level.  The slot just freed is there to take it, so the arena is not full. */
    method Requeue(locator: OrderLocator, key: Key, slotIdx: nat, price: u64, leaves: nat, out: EventBuffer)
      requires Valid() && out.Valid() && Apart(out) && leaves > 0 && IsLive(book.Slots(), slotIdx)
      requires LocatorOk(book.cfg, book.Slots(), key, locator) && locator.oid.index == slotIdx
      requires price != OrderAt(book.Slots(), slotIdx).price || leaves > OrderAt(book.Slots(), slotIdx).leavesQty
      modifies Repr(), out.Repr()
      ensures Valid() && out.Valid()
      ensures var r := Amend(book.cfg, old(Abs()), OrderAt(old(book.Slots()), slotIdx), price, leaves);
              Abs() == r.state && out.emitted == old(out.emitted) + r.events
    {
      hide SideOk, Inv, OrderBook.Valid, OrderBook.Queue, PriceToTick, LocatorsOk, Ids, AccountsOk, EventBuffer.Valid,
           Resting, Removed, OthersKept, Insert;
      InvParts();
      ghost var s := Abs();
      var order := book.arena.store[slotIdx].state.order;
      Withdraw(locator.side, locator.tick, slotIdx, key);
      var newTick := PriceToTick(book.cfg, price);
      if newTick.None? {
        AccountsAfterRemoval(book.cfg, clients, s, order);
        clients := Closed(clients, order.clientId);
        out.Emit(ModifyRejected(locator.internalId, order.clientId));
        return;
      }
      var newOrder := order.(timeInForce := Gtc, price := price, leavesQty := leaves);
      RequeueFresh(book.cfg, clients, s, order, newOrder);
      ghost var s1, slots, index := Abs(), book.Slots(), orderIndex;
      InvParts();
      var r := book.AddOrder(order.side, newTick.value, newOrder);
      if r.Err? {
        assert false;
      }
      var newLocator := OrderLocator(r.value, newTick.value, order.side, locator.internalId);
      orderIndex := orderIndex[key := newLocator];
      IdsWith(index, key, newLocator);
      assert Abs() == Rested(book.cfg, s1, newOrder);
      LocatorsAfterAddition(book.cfg, slots, book.Slots(), index, key, newLocator);
      out.Emit(OrderModified(locator.internalId, order.clientId, price, leaves));
    }

    // -------------------------------------------------------------- dispatch

    /** One command does to the abstract state, and emits, what the exchange's step says. */
    method Process(cmd: Command, out: EventBuffer)
      requires Valid() && out.Valid() && Apart(out)
      modifies Repr(), out.Repr()
      ensures Valid() && out.Valid()
      ensures var r := Step(book.cfg, old(Abs()), cmd);
              Abs() == r.state && out.emitted == old(out.emitted) + r.events
    {
      hide Abs, Core, OrderBook.Valid, AccountsOk, EventBuffer.Valid, PlaceOrder, ModifyOrder, CancelOrder;
      match cmd
      case Place(_, _, _, _, _, _, _, _) =>
        ProcessPlace(cmd, out);
      case Cancel(clientId, clientOrderId) =>
        ProcessCancel(clientId, clientOrderId, out);
      case Modify(clientId, clientOrderId, newPrice, newQty) =>
        ProcessModify(clientId, clientOrderId, newPrice, newQty, out);
    }
  }
}
