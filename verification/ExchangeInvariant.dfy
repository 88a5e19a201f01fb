/**
  What every command keeps: queues sorted by tick, ids unique, every index entry naming a live order of
  that very key, and the two limits (arena capacity, orders per client).  Time within a tick is the
  subject of `PriorityLaws`.
 */
module ExchangeInvariant {
  import opened Types
  import opened Exchange

  // ---------------------------------------------------------------- one queue

  ghost predicate SideOk(cfg: Config, q: seq<Order>, side: Side, nextId: nat)
    requires cfg.Valid()
  {
    && (forall i | 0 <= i < |q| ::
          && q[i].side == side && q[i].leavesQty > 0 && 1 <= q[i].orderId < nextId
          && PriceToTick(cfg, q[i].price).Some?)
    && (forall i, j | 0 <= i < j < |q| :: Rank(cfg, q[i]) <= Rank(cfg, q[j]))
    && (forall i, j | 0 <= i < j < |q| :: q[i].orderId != q[j].orderId)
  }

  lemma PositionOf(q: seq<Order>, k: nat)
    requires k < |q|
    requires forall i | 0 <= i < k :: q[i].orderId != q[k].orderId
    ensures Position(q, q[k].orderId) == k
  {
    var p := Position(q, q[k].orderId);
    assert p >= k;
  }

  lemma {:induction false} OwnedConcat(a: seq<Order>, b: seq<Order>, client: u64)
    ensures Owned(a + b, client) == Owned(a, client) + Owned(b, client)
  {
    if a == [] {
      assert a + b == b;
    } else {
      assert (a + b)[1..] == a[1..] + b;
      OwnedConcat(a[1..], b, client);
    }
  }

  lemma OwnedWithout(q: seq<Order>, k: nat, client: u64)
    requires k < |q|
    ensures Owned(q, client) == Owned(q[..k] + q[k + 1..], client) + (if q[k].clientId == client then 1 else 0)
  {
    assert q == q[..k] + q[k..];
    OwnedConcat(q[..k], q[k..], client);
    OwnedConcat(q[..k], q[k + 1..], client);
  }

  lemma OwnedInserted(q: seq<Order>, k: nat, o: Order, client: u64)
    requires k <= |q|
    ensures Owned(q[..k] + [o] + q[k..], client) == Owned(q, client) + (if o.clientId == client then 1 else 0)
  {
    var q' := q[..k] + [o] + q[k..];
    assert q'[..k] + q'[k + 1..] == q;
    OwnedWithout(q', k, client);
  }

  lemma LeavesInserted(q: seq<Order>, k: nat, o: Order)
    requires k <= |q|
    ensures Leaves(q[..k] + [o] + q[k..]) == Leaves(q) + o.leavesQty
  {
    hide Leaves;
    assert q == q[..k] + q[k..];
    LeavesConcat(q[..k] + [o], q[k..]);
    LeavesConcat(q[..k], [o]);
    LeavesConcat(q[..k], q[k..]);
    LeavesSingle(o);
  }

  lemma OwnedReplaced(q: seq<Order>, k: nat, o: Order, client: u64)
    requires k < |q| && o.clientId == q[k].clientId
    ensures Owned(q[k := o], client) == Owned(q, client)
  {
    var q' := q[k := o];
    assert q'[..k] + q'[k + 1..] == q[..k] + q[k + 1..];
    OwnedWithout(q, k, client);
    OwnedWithout(q', k, client);
  }

  // ---------------------------------------------------------------- one queue changes

  lemma CutSideOk(cfg: Config, q: seq<Order>, side: Side, nextId: nat, k: nat)
    requires cfg.Valid() && SideOk(cfg, q, side, nextId) && k < |q|
    ensures SideOk(cfg, q[..k] + q[k + 1..], side, nextId)
  {
    hide Rank, PriceToTick;
    var q' := q[..k] + q[k + 1..];
    assert forall i | 0 <= i < |q'| :: q'[i] == if i < k then q[i] else q[i + 1];
  }

  lemma CutMembers(q: seq<Order>, k: nat)
    requires k < |q|
    requires forall i, j | 0 <= i < j < |q| :: q[i].orderId != q[j].orderId
    ensures forall p :: p in q[..k] + q[k + 1..] <==> p in q && p != q[k]
    ensures forall p | p in q[..k] + q[k + 1..] :: p.orderId != q[k].orderId
  {
    assert q == q[..k] + [q[k]] + q[k + 1..];
  }

  lemma QueueRemoval(cfg: Config, q: seq<Order>, side: Side, nextId: nat, o: Order)
    requires cfg.Valid() && SideOk(cfg, q, side, nextId) && o in q
    ensures SideOk(cfg, Without(q, o.orderId), side, nextId)
    ensures |Without(q, o.orderId)| == |q| - 1
    ensures forall p :: p in Without(q, o.orderId) <==> p in q && p != o
    ensures forall p | p in Without(q, o.orderId) :: p.orderId != o.orderId
    ensures forall c: u64 :: Owned(q, c) == Owned(Without(q, o.orderId), c) + if o.clientId == c then 1 else 0
    ensures Leaves(q) == Leaves(Without(q, o.orderId)) + o.leavesQty
  {
    var k :| 0 <= k < |q| && q[k] == o;
    PositionOf(q, k);
    CutSideOk(cfg, q, side, nextId, k);
    CutMembers(q, k);
    hide *;
    assert Without(q, o.orderId) == q[..k] + q[k + 1..];
    forall c: u64
      ensures Owned(q, c) == Owned(q[..k] + q[k + 1..], c) + if o.clientId == c then 1 else 0
    {
      OwnedWithout(q, k, c);
    }
    LeavesAround(q, k);
  }

  lemma SpliceSideOk(cfg: Config, q: seq<Order>, side: Side, nextId: nat, k: nat, o: Order)
    requires cfg.Valid() && SideOk(cfg, q, side, nextId) && o.side == side && k <= |q|
    requires forall i | 0 <= i < k :: Rank(cfg, q[i]) <= Rank(cfg, o)
    requires forall i | k <= i < |q| :: Rank(cfg, o) <= Rank(cfg, q[i])
    requires o.leavesQty > 0 && 1 <= o.orderId < nextId && PriceToTick(cfg, o.price).Some?
    requires forall i | 0 <= i < |q| :: q[i].orderId != o.orderId
    ensures SideOk(cfg, q[..k] + [o] + q[k..], side, nextId)
  {
    hide Rank, PriceToTick;
    var q' := q[..k] + [o] + q[k..];
    assert forall i | 0 <= i < |q'| :: q'[i] == if i < k then q[i] else if i == k then o else q[i - 1];
  }

  lemma QueueInsertion(cfg: Config, q: seq<Order>, side: Side, nextId: nat, o: Order)
    requires cfg.Valid() && SideOk(cfg, q, side, nextId) && o.side == side
    requires o.leavesQty > 0 && 1 <= o.orderId < nextId && PriceToTick(cfg, o.price).Some?
    requires forall p | p in q :: p.orderId != o.orderId
    ensures SideOk(cfg, Insert(cfg, q, o), side, nextId)
    ensures |Insert(cfg, q, o)| == |q| + 1
    ensures forall p :: p in Insert(cfg, q, o) <==> p in q || p == o
    ensures forall c: u64 :: Owned(Insert(cfg, q, o), c) == Owned(q, c) + if o.clientId == c then 1 else 0
    ensures Leaves(Insert(cfg, q, o)) == Leaves(q) + o.leavesQty
  {
    hide Rank, PriceToTick, Owned, Leaves;
    var k := InsertionPoint(cfg, q, o);
    assert Insert(cfg, q, o) == q[..k] + [o] + q[k..];
    SpliceSideOk(cfg, q, side, nextId, k, o);
    hide *;
    SpliceContents(q, k, o);
  }

  lemma SpliceContents(q: seq<Order>, k: nat, o: Order)
    requires k <= |q|
    ensures var q' := q[..k] + [o] + q[k..];
            && |q'| == |q| + 1 && (forall p :: p in q' <==> p in q || p == o)
            && (forall c: u64 :: Owned(q', c) == Owned(q, c) + if o.clientId == c then 1 else 0)
            && Leaves(q') == Leaves(q) + o.leavesQty
  {
    hide Owned, Leaves;
    assert q == q[..k] + q[k..];
    forall c: u64
      ensures Owned(q[..k] + [o] + q[k..], c) == Owned(q, c) + if o.clientId == c then 1 else 0
    {
      OwnedInserted(q, k, o, c);
    }
    LeavesInserted(q, k, o);
  }

  /** `o'` is `o` with other quantities. */
  ghost predicate SameButQuantities(o: Order, o': Order) {
    o' == o.(leavesQty := o'.leavesQty, filledQty := o'.filledQty)
  }

  lemma UpdateSideOk(cfg: Config, q: seq<Order>, side: Side, nextId: nat, k: nat, o': Order)
    requires cfg.Valid() && SideOk(cfg, q, side, nextId) && k < |q|
    requires SameButQuantities(q[k], o') && o'.leavesQty > 0
    ensures SideOk(cfg, q[k := o'], side, nextId)
    ensures forall p :: p in q[k := o'] <==> (p in q && p != q[k]) || p == o'
  {
    assert Rank(cfg, o') == Rank(cfg, q[k]);
    hide Rank, PriceToTick;
    var q' := q[k := o'];
    CutMembers(q, k);
    CutMembers(q', k);
    assert q'[..k] + q'[k + 1..] == q[..k] + q[k + 1..];
    assert q'[k] == o';
  }

  lemma QueueReplacement(cfg: Config, q: seq<Order>, side: Side, nextId: nat, o: Order, o': Order)
    requires cfg.Valid() && SideOk(cfg, q, side, nextId) && o in q
    requires SameButQuantities(o, o') && o'.leavesQty > 0
    ensures SideOk(cfg, Replaced(q, o'), side, nextId)
    ensures |Replaced(q, o')| == |q|
    ensures forall p :: p in Replaced(q, o') <==> (p in q && p != o) || p == o'
    ensures forall c: u64 :: Owned(Replaced(q, o'), c) == Owned(q, c)
    ensures Leaves(Replaced(q, o')) + o.leavesQty == Leaves(q) + o'.leavesQty
  {
    var k :| 0 <= k < |q| && q[k] == o;
    PositionOf(q, k);
    UpdateSideOk(cfg, q, side, nextId, k, o');
    assert o'.clientId == o.clientId;
    hide *;
    assert Replaced(q, o') == q[k := o'];
    forall c: u64
      ensures Owned(q[k := o'], c) == Owned(q, c)
    {
      OwnedReplaced(q, k, o', c);
    }
    LeavesUpdate(q, k, o');
  }

  // ---------------------------------------------------------------- the invariant

  ghost predicate Resting(s: State, o: Order) {
    o in s.Queue(o.side)
  }

  ghost predicate BookOk(cfg: Config, s: State)
    requires cfg.Valid()
  {
    && SideOk(cfg, s.bids, Buy, s.nextId)
    && SideOk(cfg, s.asks, Sell, s.nextId)
    && (forall x, y | x in s.bids && y in s.asks :: x.orderId != y.orderId)
  }

  ghost predicate IndexOk(s: State) {
    forall key | key in s.index :: s.Find(key).Some? && s.Find(key).value.Key() == key
  }

  ghost predicate Limits(cfg: Config, s: State) {
    && s.Live() <= cfg.capacity
    && forall client: u64 :: s.OpenOrders(client) <= MAX_OPEN_ORDERS
  }

  ghost predicate Inv(cfg: Config, s: State)
    requires cfg.Valid()
  {
    s.nextId >= 1 && BookOk(cfg, s) && IndexOk(s) && Limits(cfg, s)
  }

  lemma LocateMember(cfg: Config, s: State, o: Order)
    requires cfg.Valid() && BookOk(cfg, s) && Resting(s, o)
    ensures s.Locate(o.orderId) == Some(o)
  {
    if o in s.bids {
      var k :| 0 <= k < |s.bids| && s.bids[k] == o;
      PositionOf(s.bids, k);
    } else {
      var k :| 0 <= k < |s.asks| && s.asks[k] == o;
      PositionOf(s.asks, k);
    }
  }

  lemma LocateIsMember(cfg: Config, s: State, id: nat)
    requires cfg.Valid() && BookOk(cfg, s) && s.Locate(id).Some?
    ensures var o := s.Locate(id).value; o.orderId == id && Resting(s, o)
  {
  }

  /** The index stays sound when each of its entries keeps its id and the order named keeps its key. */
  lemma IndexKept(cfg: Config, s: State, s': State)
    requires cfg.Valid() && BookOk(cfg, s) && BookOk(cfg, s') && IndexOk(s)
    requires forall key | key in s'.index ::
               || (key in s.index && s'.index[key] == s.index[key] &&
                   forall o | Resting(s, o) && o.orderId == s.index[key] && o.Key() == key ::
                     exists o' :: Resting(s', o') && o'.orderId == o.orderId && o'.Key() == o.Key())
               || (exists o' :: Resting(s', o') && o'.orderId == s'.index[key] && o'.Key() == key)
    ensures IndexOk(s')
  {
    forall key | key in s'.index
      ensures s'.Find(key).Some? && s'.Find(key).value.Key() == key
    {
      if key in s.index && s'.index[key] == s.index[key] && s.Find(key).Some? {
        LocateIsMember(cfg, s, s.index[key]);
        var o := s.Find(key).value;
        assert Resting(s, o);
      }
      var o' :| Resting(s', o') && o'.orderId == s'.index[key] && o'.Key() == key;
      LocateMember(cfg, s', o');
    }
  }

  lemma LimitsKept(cfg: Config, s: State, s': State)
    requires Limits(cfg, s) && s'.Live() <= cfg.capacity
    requires forall c: u64 :: s'.OpenOrders(c) <= s.OpenOrders(c) || s'.OpenOrders(c) <= MAX_OPEN_ORDERS
    ensures Limits(cfg, s')
  {
    hide State.OpenOrders;
    forall c: u64
      ensures s'.OpenOrders(c) <= MAX_OPEN_ORDERS
    {
      assert s.OpenOrders(c) <= MAX_OPEN_ORDERS;
    }
  }

  // ---------------------------------------------------------------- an order leaves the book

  lemma RemovedBook(cfg: Config, s: State, o: Order)
    requires cfg.Valid() && BookOk(cfg, s) && Resting(s, o)
    ensures BookOk(cfg, Removed(s, o))
    ensures Removed(s, o).Live() == s.Live() - 1
    ensures forall c: u64 :: s.OpenOrders(c) == Removed(s, o).OpenOrders(c) + if o.clientId == c then 1 else 0
    ensures forall p :: Resting(Removed(s, o), p) <==> Resting(s, p) && p != o
    ensures forall p | Resting(Removed(s, o), p) :: p.orderId != o.orderId
  {
    hide Without, Owned, SideOk;
    QueueRemoval(cfg, s.Queue(o.side), o.side, s.nextId, o);
    CrossIds(cfg, s, o);
  }

  lemma CrossIds(cfg: Config, s: State, o: Order)
    requires cfg.Valid() && BookOk(cfg, s) && Resting(s, o)
    ensures forall p | p in s.Queue(Opposite(o.side)) :: p.orderId != o.orderId && p != o
  {
    hide SideOk;
  }

  lemma RemovedKeepsInv(cfg: Config, s: State, o: Order)
    requires cfg.Valid() && Inv(cfg, s) && Resting(s, o)
    ensures Inv(cfg, Removed(s, o))
  {
    RemovedBook(cfg, s, o);
    hide Without, State.OpenOrders, SideOk, State.Find, Resting, BookOk;
    IndexKept(cfg, s, Removed(s, o));
    LimitsKept(cfg, s, Removed(s, o));
  }

  // ---------------------------------------------------------------- an order joins the book

  ghost predicate Fresh(cfg: Config, s: State, o: Order)
    requires cfg.Valid()
  {
    && o.leavesQty > 0 && 1 <= o.orderId < s.nextId && PriceToTick(cfg, o.price).Some?
    && forall p | Resting(s, p) :: p.orderId != o.orderId
  }

  lemma MembersRest(cfg: Config, s: State)
    requires cfg.Valid() && BookOk(cfg, s)
    ensures forall p | p in s.bids :: Resting(s, p) && p.side == Buy
    ensures forall p | p in s.asks :: Resting(s, p) && p.side == Sell
  {
    hide Rank, PriceToTick;
  }

  lemma RestedBook(cfg: Config, s: State, o: Order)
    requires cfg.Valid() && BookOk(cfg, s) && Fresh(cfg, s, o)
    ensures BookOk(cfg, Rested(cfg, s, o))
    ensures Rested(cfg, s, o).Live() == s.Live() + 1
    ensures forall c: u64 :: Rested(cfg, s, o).OpenOrders(c) == s.OpenOrders(c) + if o.clientId == c then 1 else 0
    ensures forall p :: Resting(Rested(cfg, s, o), p) <==> Resting(s, p) || p == o
  {
    hide Insert, Owned, SideOk, PriceToTick;
    MembersRest(cfg, s);
    QueueInsertion(cfg, s.Queue(o.side), o.side, s.nextId, o);
  }

  lemma RestedKeepsInv(cfg: Config, s: State, o: Order)
    requires cfg.Valid() && Inv(cfg, s) && Fresh(cfg, s, o)
    requires s.Live() < cfg.capacity && s.OpenOrders(o.clientId) < MAX_OPEN_ORDERS
    ensures Inv(cfg, Rested(cfg, s, o))
  {
    hide Insert, Owned, SideOk, State.Find, State.Locate, Resting, PriceToTick;
    RestedBook(cfg, s, o);
    RestedIndex(cfg, s, o);
    LimitsKept(cfg, s, Rested(cfg, s, o));
  }

  lemma RestedIndex(cfg: Config, s: State, o: Order)
    requires cfg.Valid() && BookOk(cfg, s) && BookOk(cfg, Rested(cfg, s, o)) && IndexOk(s)
    requires forall p :: Resting(Rested(cfg, s, o), p) <==> Resting(s, p) || p == o
    ensures IndexOk(Rested(cfg, s, o))
  {
    hide Insert, IndexOk, Resting, BookOk;
    assert Resting(Rested(cfg, s, o), o);
    IndexKept(cfg, s, Rested(cfg, s, o));
  }

  // ---------------------------------------------------------------- quantities change in place

  lemma ReplacedBook(cfg: Config, s: State, o: Order, o': Order)
    requires cfg.Valid() && BookOk(cfg, s) && Resting(s, o)
    requires SameButQuantities(o, o') && o'.leavesQty > 0
    ensures BookOk(cfg, WithOrder(s, o'))
    ensures WithOrder(s, o').Live() == s.Live()
    ensures forall c: u64 :: WithOrder(s, o').OpenOrders(c) == s.OpenOrders(c)
    ensures forall p :: Resting(WithOrder(s, o'), p) <==> (Resting(s, p) && p != o) || p == o'
  {
    hide Replaced, Owned, SideOk;
    QueueReplacement(cfg, s.Queue(o.side), o.side, s.nextId, o, o');
    CrossIds(cfg, s, o);
  }

  lemma ReplacedKeepsInv(cfg: Config, s: State, o: Order, o': Order)
    requires cfg.Valid() && Inv(cfg, s) && Resting(s, o)
    requires SameButQuantities(o, o') && o'.leavesQty > 0
    ensures Inv(cfg, WithOrder(s, o'))
  {
    ReplacedBook(cfg, s, o, o');
    hide Replaced, State.OpenOrders, SideOk, State.Find, Resting, BookOk;
    assert o'.orderId == o.orderId && o'.Key() == o.Key();
    IndexKept(cfg, s, WithOrder(s, o'));
    LimitsKept(cfg, s, WithOrder(s, o'));
  }

  // ---------------------------------------------------------------- a sweep

  lemma HeadRemoved(s: State, side: Side, o: Order)
    requires s.Queue(side) != [] && o == s.Queue(side)[0] && o.side == side
    ensures Resting(s, o)
    ensures Removed(s, o) == s.WithQueue(side, s.Queue(side)[1..]).(index := s.index - {o.Key()})
  {
    PositionOf(s.Queue(side), 0);
  }

  lemma HeadSide(cfg: Config, s: State, side: Side)
    requires cfg.Valid() && Inv(cfg, s) && s.Queue(side) != []
    ensures s.Queue(side)[0].side == side
  {
    hide Rank, PriceToTick, IndexOk, Limits;
  }

  /** One turn of the sweep, seen on the whole state. */
  lemma SweepHead(cfg: Config, s: State, a: Aggressor, qty: nat)
    requires cfg.Valid() && Inv(cfg, s)
    requires var q := s.Queue(Opposite(a.side));
             qty > 0 && q != [] && Crosses(cfg, a, TickOf(cfg, q[0])) && q[0].leavesQty <= qty
    ensures var q := s.Queue(Opposite(a.side));
            var s1 := Removed(s, q[0]);
            && Resting(s, q[0]) && s1.Queue(Opposite(a.side)) == q[1..]
            && Swept(s, a, Match(cfg, a, q, qty)) == Swept(s1, a, Match(cfg, a, q[1..], qty - q[0].leavesQty))
  {
    hide *;
    var q := s.Queue(Opposite(a.side));
    HeadSide(cfg, s, Opposite(a.side));
    HeadRemoved(s, Opposite(a.side), q[0]);
    var next := Match(cfg, a, q[1..], qty - q[0].leavesQty);
    MatchHead(cfg, a, q, qty);
    SweptTwice(s, a, q[0], Match(cfg, a, q, qty).events, next);
  }

  lemma MatchHead(cfg: Config, a: Aggressor, q: seq<Order>, qty: nat)
    requires cfg.Valid()
    requires qty > 0 && q != [] && Crosses(cfg, a, TickOf(cfg, q[0])) && q[0].leavesQty <= qty
    ensures var sweep, next := Match(cfg, a, q, qty), Match(cfg, a, q[1..], qty - q[0].leavesQty);
            sweep == Sweep([FillOf(a, q[0], q[0].leavesQty)] + next.events, [q[0]] + next.filled, next.rest, next.left)
  {
    hide Crosses, TickOf;
  }

  /** Sweeping one order and then the rest is one sweep. */
  lemma SweptTwice(s: State, a: Aggressor, o: Order, events: seq<OutputEvent>, next: Sweep)
    requires s.Queue(Opposite(a.side)) != []
    ensures var s1 := s.WithQueue(Opposite(a.side), s.Queue(Opposite(a.side))[1..]).(index := s.index - {o.Key()});
            && s1.Queue(Opposite(a.side)) == s.Queue(Opposite(a.side))[1..]
            && Swept(s, a, Sweep(events, [o] + next.filled, next.rest, next.left)) == Swept(s1, a, next)
  {
    assert KeysOf([o] + next.filled) == {o.Key()} + KeysOf(next.filled);
    assert s.index - KeysOf([o] + next.filled) == (s.index - {o.Key()}) - KeysOf(next.filled);
  }

  lemma SweepPartial(cfg: Config, s: State, a: Aggressor, qty: nat)
    requires cfg.Valid() && Inv(cfg, s)
    requires var q := s.Queue(Opposite(a.side));
             qty > 0 && q != [] && Crosses(cfg, a, TickOf(cfg, q[0])) && qty < q[0].leavesQty
    ensures var q := s.Queue(Opposite(a.side));
            && Resting(s, q[0])
            && Swept(s, a, Match(cfg, a, q, qty)) == WithOrder(s, q[0].Reduced(qty))
  {
    var q := s.Queue(Opposite(a.side));
    assert q[0] in q;
    PositionOf(q, 0);
    var q' := [q[0].Reduced(qty)] + q[1..];
    assert q' == q[0 := q[0].Reduced(qty)];
    assert KeysOf([]) == {};
    assert s.index - KeysOf([]) == s.index;
  }

  /** No id appears that was not there before. */
  ghost predicate NoNewIds(s: State, s': State) {
    forall p | Resting(s', p) :: exists p0 :: Resting(s, p0) && p0.orderId == p.orderId
  }

  lemma SweepNone(cfg: Config, s: State, a: Aggressor, qty: nat)
    requires cfg.Valid()
    requires var q := s.Queue(Opposite(a.side));
             qty == 0 || q == [] || !Crosses(cfg, a, TickOf(cfg, q[0]))
    ensures Swept(s, a, Match(cfg, a, s.Queue(Opposite(a.side)), qty)) == s
  {
    assert s.index - KeysOf([]) == s.index;
  }

  /** What a sweep keeps, from `s` to `s'`. */
  ghost predicate SweepKept(cfg: Config, s: State, s': State)
    requires cfg.Valid()
  {
    && Inv(cfg, s') && s'.Live() <= s.Live() && s'.nextId == s.nextId && NoNewIds(s, s')
    && forall c: u64 :: s'.OpenOrders(c) <= s.OpenOrders(c)
  }

  lemma {:induction false} SweepKeepsInv(cfg: Config, s: State, a: Aggressor, qty: nat)
    requires cfg.Valid() && Inv(cfg, s)
    ensures SweepKept(cfg, s, Swept(s, a, Match(cfg, a, s.Queue(Opposite(a.side)), qty)))
    decreases s.Live()
  {
    var q := s.Queue(Opposite(a.side));
    hide Inv, SweepKept, Match, Swept, Crosses, TickOf, Resting, Removed;
    if qty == 0 || q == [] || !Crosses(cfg, a, TickOf(cfg, q[0])) {
      SweepNone(cfg, s, a, qty);
      KeptReflexive(cfg, s);
    } else if qty < q[0].leavesQty {
      SweepPartial(cfg, s, a, qty);
      KeptReplaced(cfg, s, q[0], q[0].Reduced(qty));
    } else {
      var s1 := Removed(s, q[0]);
      SweepHead(cfg, s, a, qty);
      KeptRemoved(cfg, s, q[0]);
      SweepKeepsInv(cfg, s1, a, qty - q[0].leavesQty);
      KeptTransitive(cfg, s, s1, Swept(s1, a, Match(cfg, a, q[1..], qty - q[0].leavesQty)));
    }
  }

  lemma KeptReflexive(cfg: Config, s: State)
    requires cfg.Valid() && Inv(cfg, s)
    ensures SweepKept(cfg, s, s)
  {
  }

  lemma KeptReplaced(cfg: Config, s: State, o: Order, o': Order)
    requires cfg.Valid() && Inv(cfg, s) && Resting(s, o)
    requires SameButQuantities(o, o') && o'.leavesQty > 0
    ensures SweepKept(cfg, s, WithOrder(s, o'))
  {
    ReplacedKeepsInv(cfg, s, o, o');
    ReplacedBook(cfg, s, o, o');
    NoNewIdsPartial(cfg, s, o, o');
  }

  lemma KeptRemoved(cfg: Config, s: State, o: Order)
    requires cfg.Valid() && Inv(cfg, s) && Resting(s, o)
    ensures SweepKept(cfg, s, Removed(s, o)) && Removed(s, o).Live() < s.Live()
    ensures Inv(cfg, Removed(s, o))
  {
    RemovedKeepsInv(cfg, s, o);
    RemovedBook(cfg, s, o);
    hide Inv, Resting, BookOk, State.OpenOrders;
  }

  lemma KeptTransitive(cfg: Config, s: State, s1: State, s2: State)
    requires cfg.Valid() && SweepKept(cfg, s, s1) && SweepKept(cfg, s1, s2)
    ensures SweepKept(cfg, s, s2)
  {
    hide Resting, Inv, State.OpenOrders, State.Live;
    forall c: u64
      ensures s2.OpenOrders(c) <= s.OpenOrders(c)
    {
      assert s2.OpenOrders(c) <= s1.OpenOrders(c);
    }
  }

  lemma NoNewIdsPartial(cfg: Config, s: State, o: Order, o': Order)
    requires cfg.Valid() && BookOk(cfg, s) && Resting(s, o)
    requires SameButQuantities(o, o') && o'.leavesQty > 0
    ensures NoNewIds(s, WithOrder(s, o'))
  {
    ReplacedBook(cfg, s, o, o');
    hide Resting, WithOrder;
    assert o'.orderId == o.orderId;
  }

  // ---------------------------------------------------------------- every command

  lemma EmptyInv(cfg: Config)
    requires cfg.Valid()
    ensures Inv(cfg, EMPTY)
  {
  }

  lemma NextIdKeepsInv(cfg: Config, s: State)
    requires cfg.Valid() && Inv(cfg, s)
    ensures var s0 := s.(nextId := s.nextId + 1);
            && Inv(cfg, s0) && s0.Live() == s.Live()
            && (forall p :: Resting(s0, p) <==> Resting(s, p))
            && (forall p | Resting(s0, p) :: p.orderId != s.nextId)
            && forall c: u64 :: s0.OpenOrders(c) == s.OpenOrders(c)
  {
    hide Owned, PriceToTick, Rank, State.Find, State.Locate;
    var s0 := s.(nextId := s.nextId + 1);
    forall key
      ensures s0.Find(key) == s.Find(key)
    {
      NextIdFinds(s, key);
    }
    assert forall c: u64 :: s0.OpenOrders(c) == s.OpenOrders(c);
  }

  lemma NextIdFinds(s: State, key: Key)
    ensures s.(nextId := s.nextId + 1).Find(key) == s.Find(key)
  {
    hide Contains, Position;
  }

  lemma PlaceLimitKeepsInv(cfg: Config, s: State, a: Aggressor, clientOrderId: u64, price: u64, quantity: nat)
    requires cfg.Valid() && Inv(cfg, s) && PriceToTick(cfg, price).Some?
    requires 1 <= a.orderId < s.nextId && s.OpenOrders(a.clientId) < MAX_OPEN_ORDERS
    requires forall p | Resting(s, p) :: p.orderId != a.orderId
    ensures Inv(cfg, PlaceLimit(cfg, s, a, clientOrderId, price, quantity).state)
  {
    hide Inv, Match, Swept, Resting, PriceToTick, Rested, Fresh;
    SweepKeepsInv(cfg, s, a, quantity);
    var sweep := Match(cfg, a, s.Queue(Opposite(a.side)), quantity);
    var s1 := Swept(s, a, sweep);
    var o := Residual(a, clientOrderId, price, quantity, sweep.left);
    if sweep.left > 0 && s1.Live() < cfg.capacity {
      FreshAfterSweep(cfg, s, s1, o);
      assert s1.OpenOrders(a.clientId) <= s.OpenOrders(a.clientId);
      RestedKeepsInv(cfg, s1, o);
    }
  }

  lemma AdmitKeepsInv(cfg: Config, s: State, a: Aggressor, cmd: Command)
    requires cfg.Valid() && Inv(cfg, s) && cmd.Place?
    requires 1 <= a.orderId < s.nextId && s.OpenOrders(a.clientId) < MAX_OPEN_ORDERS
    requires forall p | Resting(s, p) :: p.orderId != a.orderId
    ensures Inv(cfg, Admit(cfg, s, a, cmd).state)
  {
    hide Inv, Match, Swept, Resting, PriceToTick, PlaceLimit, State.OpenOrders;
    if cmd.orderType == Market {
      SweepKeepsInv(cfg, s, a, cmd.quantity);
    } else if cmd.price.Some? && PriceToTick(cfg, cmd.price.value).Some? {
      PlaceLimitKeepsInv(cfg, s, a, cmd.clientOrderId, cmd.price.value, cmd.quantity);
    }
  }

  lemma PlaceKeepsInv(cfg: Config, s: State, cmd: Command)
    requires cfg.Valid() && Inv(cfg, s) && cmd.Place?
    ensures Inv(cfg, PlaceOrder(cfg, s, cmd).state)
  {
    hide Resting, State.OpenOrders, Admit;
    if cmd.quantity > 0 && s.OpenOrders(cmd.clientId) < MAX_OPEN_ORDERS {
      NextIdKeepsInv(cfg, s);
      var s0 := s.(nextId := s.nextId + 1);
      assert s0.OpenOrders(cmd.clientId) < MAX_OPEN_ORDERS;
      AdmitKeepsInv(cfg, s0, AggressorOf(cmd, s.nextId), cmd);
    }
  }

  lemma FreshAfterSweep(cfg: Config, s0: State, s1: State, o: Order)
    requires cfg.Valid() && NoNewIds(s0, s1)
    requires forall p | Resting(s0, p) :: p.orderId != o.orderId
    requires o.leavesQty > 0 && 1 <= o.orderId < s1.nextId && PriceToTick(cfg, o.price).Some?
    ensures Fresh(cfg, s1, o)
  {
    hide Resting, PriceToTick;
  }

  /** What `Find` returns is a resting order with the key asked for. */
  lemma FoundIsResting(cfg: Config, s: State, key: Key)
    requires cfg.Valid() && Inv(cfg, s)
    ensures s.Find(key).Some? <==> key in s.index
    ensures s.Find(key).Some? ==>
              var o := s.Find(key).value;
              Resting(s, o) && o.Key() == key && o.orderId == s.index[key] && o.leavesQty > 0
  {
    if key in s.index {
      LocateIsMember(cfg, s, s.index[key]);
    }
  }

  lemma AmendKeepsInv(cfg: Config, s: State, o: Order, price: u64, leaves: nat)
    requires cfg.Valid() && Inv(cfg, s) && Resting(s, o)
    ensures Inv(cfg, Amend(cfg, s, o, price, leaves).state)
  {
    hide Inv, WithOrder, Removed, Rested, Resting, PriceToTick;
    if leaves == 0 {
    } else if price == o.price && leaves <= o.leavesQty {
      ReplacedKeepsInv(cfg, s, o, o.Reduced(o.leavesQty - leaves));
    } else {
      RemovedKeepsInv(cfg, s, o);
      if PriceToTick(cfg, price).Some? {
        RequeueKeepsInv(cfg, s, o, Requeued(o, price, leaves));
      }
    }
  }

  lemma RequeueKeepsInv(cfg: Config, s: State, o: Order, o': Order)
    requires cfg.Valid() && Inv(cfg, s) && Resting(s, o)
    requires o'.orderId == o.orderId && o'.clientId == o.clientId && o'.leavesQty > 0
    requires PriceToTick(cfg, o'.price).Some?
    ensures Removed(s, o).Live() < cfg.capacity
    ensures Inv(cfg, Rested(cfg, Removed(s, o), o'))
  {
    assert 1 <= o.orderId < s.nextId;
    assert s.OpenOrders(o.clientId) <= MAX_OPEN_ORDERS;
    RemovedKeepsInv(cfg, s, o);
    RemovedBook(cfg, s, o);
    assert Removed(s, o).nextId == s.nextId;
    hide Resting, PriceToTick, State.OpenOrders, Rested, Removed;
    RestedKeepsInv(cfg, Removed(s, o), o');
  }

  /** Every command keeps the invariant. */
  lemma StepKeepsInv(cfg: Config, s: State, cmd: Command)
    requires cfg.Valid() && Inv(cfg, s)
    ensures Inv(cfg, Step(cfg, s, cmd).state)
  {
    hide Inv, State.Find, Removed, Resting, Amend;
    match cmd
    case Place(_, _, _, _, _, _, _, _) =>
      PlaceKeepsInv(cfg, s, cmd);
    case Cancel(clientId, clientOrderId) =>
      FoundIsResting(cfg, s, (clientId, clientOrderId));
      if s.Find((clientId, clientOrderId)).Some? {
        RemovedKeepsInv(cfg, s, s.Find((clientId, clientOrderId)).value);
      }
    case Modify(clientId, clientOrderId, newPrice, newQty) =>
      FoundIsResting(cfg, s, (clientId, clientOrderId));
      if s.Find((clientId, clientOrderId)).Some? {
        var o := s.Find((clientId, clientOrderId)).value;
        AmendKeepsInv(cfg, s, o, OrElse(newPrice, o.price), OrElse(newQty, o.leavesQty));
      }
  }

  /** ... and so does every run. */
  lemma {:induction false} RunKeepsInv(cfg: Config, s: State, cmds: seq<Command>)
    requires cfg.Valid() && Inv(cfg, s)
    ensures Inv(cfg, Run(cfg, s, cmds))
    decreases |cmds|
  {
    if cmds != [] {
      StepKeepsInv(cfg, s, cmds[0]);
      RunKeepsInv(cfg, Step(cfg, s, cmds[0]).state, cmds[1..]);
    }
  }

  /** A run of one command more is the run and then the command. */
  lemma {:induction false} RunSnoc(cfg: Config, s: State, cmds: seq<Command>, cmd: Command)
    requires cfg.Valid()
    ensures Run(cfg, s, cmds + [cmd]) == Step(cfg, Run(cfg, s, cmds), cmd).state
    decreases |cmds|
  {
    hide Step;
    if cmds == [] {
      assert [] + [cmd] == [cmd] && [cmd][1..] == [];
      assert Run(cfg, Step(cfg, s, cmd).state, []) == Step(cfg, s, cmd).state;
    } else {
      assert (cmds + [cmd])[1..] == cmds[1..] + [cmd];
      RunSnoc(cfg, Step(cfg, s, cmds[0]).state, cmds[1..], cmd);
    }
  }
}
