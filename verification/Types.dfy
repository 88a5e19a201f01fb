/** Values that travel through the system: wire commands, resting orders and output events. */
module Types {

  datatype Option<+T> = None | Some(value: T)

  datatype Result<+T, +E> = Ok(value: T) | Err(error: E)
  {
    predicate IsFailure() {
      Err?
    }

    function PropagateFailure<U>(): Result<U, E>
      requires Err?
    {
      Err(error)
    }

    function Extract(): T
      requires Ok?
    {
      value
    }
  }

  /** The price ladder has 64 * 64 * 64 ticks. */
  const TICKS: nat := 262144

  type u8 = x: int | 0 <= x < 0x100

  type u64 = x: int | 0 <= x < 0x1_0000_0000_0000_0000

  type Symbol = s: seq<u8> | |s| == 8 witness [0, 0, 0, 0, 0, 0, 0, 0]

  datatype Side = Buy | Sell

  datatype OrderType = Market | Limit

  datatype TimeInForce = Day | Ioc | Fok | Gtc | Gtd

  /** A client's own name for an order: (client_id, client_order_id). */
  type Key = (u64, u64)

  /** A resting order.  Quantities are naturals: u64 overflow of sums is not modelled. */
  datatype Order = Order(
    orderId: nat,
    clientId: u64,
    clientOrderId: u64,
    symbol: Symbol,
    side: Side,
    orderType: OrderType,
    timeInForce: TimeInForce,
    price: u64,
    quantity: nat,
    leavesQty: nat,
    filledQty: nat)
  {
    function Key(): Key {
      (clientId, clientOrderId)
    }

    /** The order after `qty` of it has been taken off the book (by a fill or an in-place reduction). */
    function Reduced(qty: nat): Order
      requires qty <= leavesQty
    {
      this.(leavesQty := leavesQty - qty, filledQty := filledQty + qty)
    }
  }

  datatype Command =
    | Place(clientId: u64, clientOrderId: u64, symbol: Symbol, side: Side, orderType: OrderType,
            price: Option<u64>, quantity: u64, timeInForce: TimeInForce)
    | Cancel(clientId: u64, clientOrderId: u64)
    | Modify(clientId: u64, clientOrderId: u64, newPrice: Option<u64>, newQty: Option<u64>)

  datatype RejectReason = InvalidPrice | InvalidQuantity | ArenaFull | ClientOrderLimitExceeded

  datatype OutputEvent =
    | OrderAccepted(orderId: nat, clientId: u64, clientOrderId: u64, symbol: Symbol, side: Side,
                    price: u64, quantity: nat)
    | OrderRejected(clientId: u64, clientOrderId: u64, reason: RejectReason)
    | Fill(aggressorOrderId: nat, restingOrderId: nat, aggressorClientId: u64, restingClientId: u64,
           symbol: Symbol, price: u64, quantity: nat, aggressorSide: Side)
    | OrderCancelled(orderId: nat, clientId: u64, leavesQty: nat)
    | CancelRejected(orderId: nat, clientId: u64)
    | OrderModified(orderId: nat, clientId: u64, newPrice: u64, newQty: nat)
    | ModifyRejected(orderId: nat, clientId: u64)

  function Opposite(side: Side): Side {
    if side == Buy then Sell else Buy
  }

  function Min(a: nat, b: nat): nat {
    if a <= b then a else b
  }

  /** Rust's `saturating_sub` on unsigned integers. */
  function SaturatingSub(a: nat, b: nat): nat {
    if a < b then 0 else a - b
  }

  /** The total open quantity of a sequence of orders. */
  function Leaves(q: seq<Order>): nat {
    if q == [] then 0 else q[0].leavesQty + Leaves(q[1..])
  }

  lemma {:induction false} LeavesConcat(a: seq<Order>, b: seq<Order>)
    ensures Leaves(a + b) == Leaves(a) + Leaves(b)
  {
    if a == [] {
      assert a + b == b;
    } else {
      assert (a + b)[1..] == a[1..] + b;
      LeavesConcat(a[1..], b);
    }
  }

  lemma LeavesSingle(o: Order)
    ensures Leaves([o]) == o.leavesQty
  {
  }

  lemma LeavesAround(q: seq<Order>, k: nat)
    requires k < |q|
    ensures Leaves(q) == Leaves(q[..k]) + q[k].leavesQty + Leaves(q[k + 1..])
    ensures Leaves(q) == Leaves(q[..k] + q[k + 1..]) + q[k].leavesQty
  {
    assert q == q[..k] + q[k..];
    LeavesConcat(q[..k], q[k..]);
    LeavesConcat(q[..k], q[k + 1..]);
  }

  lemma LeavesUpdate(q: seq<Order>, k: nat, o: Order)
    requires k < |q|
    ensures Leaves(q[k := o]) + q[k].leavesQty == Leaves(q) + o.leavesQty
  {
    var q' := q[k := o];
    assert q'[..k] == q[..k] && q'[k + 1..] == q[k + 1..];
    LeavesAround(q, k);
    LeavesAround(q', k);
  }
}
