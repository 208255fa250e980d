/**
 * The in-memory order store of src/crypto_trader/orders/order_tracker.py.
 * Orders are objects: the store keeps references to them, so a status
 * update through the store is seen by every holder of the same order.
 */
module Orders {
  import opened Common

  /** `OrderStatus`, a string enum. */
  datatype OrderStatus = Pending | Filled | Cancelled

  /** The enum member's string value. */
  function StatusValue(s: OrderStatus): (v: string)
    ensures v in {"pending", "filled", "cancelled"}
  {
    match s
    case Pending => "pending"
    case Filled => "filled"
    case Cancelled => "cancelled"
  }

  /** Distinct members have distinct values. */
  lemma StatusValueInjective(s: OrderStatus, t: OrderStatus)
    requires StatusValue(s) == StatusValue(t)
    ensures s == t
  {}

  /** An IEEE 754 double, kept as its bit pattern: the store does no arithmetic on it. */
  datatype Float = Float(bits: bv64)

  /** The errors the store raises. */
  datatype TrackerError =
    | DuplicateOrder(orderId: string)   // ValueError from `submit`
    | OrderNotFound(orderId: string)    // KeyError from `update_status` and `get_order`

  class Order {
    const orderId: string
    const symbol: string
    const side: string
    const quantity: Float
    const price: Float
    const createdAt: string
    var status: OrderStatus

    /** A new order starts out pending; `createdAt` is the clock reading taken at construction. */
    constructor (orderId: string, symbol: string, side: string, quantity: Float, price: Float, createdAt: string)
      ensures this.orderId == orderId && this.symbol == symbol && this.side == side
      ensures this.quantity == quantity && this.price == price && this.createdAt == createdAt
      ensures status == Pending
    {
      this.orderId := orderId;
      this.symbol := symbol;
      this.side := side;
      this.quantity := quantity;
      this.price := price;
      this.createdAt := createdAt;
      status := Pending;
    }

    /** An order constructed with an explicit status. */
    constructor WithStatus(orderId: string, symbol: string, side: string, quantity: Float, price: Float,
                           status: OrderStatus, createdAt: string)
      ensures this.orderId == orderId && this.symbol == symbol && this.side == side
      ensures this.quantity == quantity && this.price == price && this.createdAt == createdAt
      ensures this.status == status
    {
      this.orderId := orderId;
      this.symbol := symbol;
      this.side := side;
      this.quantity := quantity;
      this.price := price;
      this.createdAt := createdAt;
      this.status := status;
    }
  }

  /** The orders of `m` listed by `keys`, in that order. */
  function ValuesInOrder(keys: seq<string>, m: map<string, Order>): (r: seq<Order>)
    requires forall i :: 0 <= i < |keys| ==> keys[i] in m
    ensures |r| == |keys|
    ensures forall i :: 0 <= i < |keys| ==> r[i] == m[keys[i]]
    decreases |keys|
  {
    if keys == [] then [] else ValuesInOrder(keys[..|keys| - 1], m) + [m[keys[|keys| - 1]]]
  }

  class OrderTracker {
    /** The `_orders` dict: its entries ... */
    var orders: map<string, Order>
    /** ... and its keys in insertion order. */
    var ids: seq<string>

    ghost predicate Valid()
      reads this
    {
      && (forall i, j :: 0 <= i < j < |ids| ==> ids[i] != ids[j])
      && (forall k :: k in orders <==> k in ids)
      && (forall k :: k in orders ==> orders[k].orderId == k)
    }

    constructor ()
      ensures Valid()
      ensures orders == map[] && ids == []
    {
      orders := map[];
      ids := [];
    }

    /** `submit`: stores a new order under its id; an id already present raises and changes nothing. */
    method Submit(order: Order) returns (error: Option<TrackerError>)
      requires Valid()
      modifies this
      ensures Valid()
      ensures old(order.orderId in orders) ==>
        error == Some(DuplicateOrder(order.orderId)) && orders == old(orders) && ids == old(ids)
      ensures old(order.orderId !in orders) ==>
        error == None && orders == old(orders)[order.orderId := order] && ids == old(ids) + [order.orderId]
    {
      if order.orderId in orders {
        return Some(DuplicateOrder(order.orderId));
      }
      orders := orders[order.orderId := order];
      ids := ids + [order.orderId];
      error := None;
    }

    /**
     * `update_status`: sets the status of the stored order, which may move
     * from any status to any other.  No other order changes, no other field
     * of the order changes, and an unknown id raises and changes nothing.
     */
    method UpdateStatus(orderId: string, status: OrderStatus) returns (error: Option<TrackerError>)
      requires Valid()
      modifies if orderId in orders then {orders[orderId]} else {}
      ensures Valid()
      ensures orders == old(orders) && ids == old(ids)
      ensures orderId !in orders ==> error == Some(OrderNotFound(orderId))
      ensures orderId in orders ==> error == None && orders[orderId].status == status
      ensures forall k :: k in orders && k != orderId ==> orders[k].status == old(orders[k].status)
    {
      if orderId !in orders {
        return Some(OrderNotFound(orderId));
      }
      orders[orderId].status := status;
      error := None;
    }

    /** `list_orders`: every stored order exactly once, in submission order. */
    method ListOrders() returns (r: seq<Order>)
      requires Valid()
      ensures |r| == |ids| == |orders|
      ensures forall i :: 0 <= i < |r| ==> r[i] == orders[ids[i]] && r[i].orderId == ids[i]
      ensures forall i, j :: 0 <= i < j < |r| ==> r[i] != r[j]
      ensures forall k :: k in orders ==> orders[k] in r
    {
      StoredCount();
      r := ValuesInOrder(ids, orders);
      forall k | k in orders ensures orders[k] in r {
        var i :| 0 <= i < |ids| && ids[i] == k;
        assert r[i] == orders[k];
      }
    }

    /** `get_order`: the stored order itself, or `KeyError` for an unknown id. */
    method GetOrder(orderId: string) returns (r: Result<Order, TrackerError>)
      requires Valid()
      ensures orderId in orders ==> r.Success? && r.value == orders[orderId] && r.value.orderId == orderId
      ensures orderId !in orders ==> r == Failure(OrderNotFound(orderId))
    {
      if orderId !in orders {
        return Failure(OrderNotFound(orderId));
      }
      r := Success(orders[orderId]);
    }

    /** The dict holds one entry per listed id. */
    lemma StoredCount()
      requires Valid()
      ensures |orders| == |ids|
    {
      DistinctKeysCount(ids, orders);
    }
  }

  /** A map whose keys are exactly the distinct elements of a sequence has that many entries. */
  lemma {:induction false} DistinctKeysCount(keys: seq<string>, m: map<string, Order>)
    requires forall i, j :: 0 <= i < j < |keys| ==> keys[i] != keys[j]
    requires forall k :: k in m <==> k in keys
    ensures |m| == |keys|
    decreases |keys|
  {
    if keys == [] {
      assert m == map[];
    } else {
      var n := |keys| - 1;
      var last := keys[n];
      var rest := map k | k in m && k != last :: m[k];
      assert forall k :: k in rest <==> k in keys[..n];
      DistinctKeysCount(keys[..n], rest);
      assert m.Keys == rest.Keys + {last};
      assert |m| == |m.Keys|;
      assert |rest| == |rest.Keys|;
    }
  }

  /** The first unit scenario: a submitted order is found under its id, with its symbol and a pending status. */
  method SubmitGetScenario() returns (symbol: string, status: OrderStatus)
    ensures symbol == "BTCUSD" && status == Pending
  {
    var tracker := new OrderTracker();
    var order := new Order("1", "BTCUSD", "buy", Float(0x3FF0_0000_0000_0000), Float(0x4059_0000_0000_0000), "t0");
    var e := tracker.Submit(order);
    var got := tracker.GetOrder("1");
    symbol, status := got.value.symbol, got.value.status;
  }

  /**
   * The second unit scenario, next to an order submitted earlier: after an
   * update to `FILLED` the store reports the new status, the caller's own
   * reference sees it too (the store keeps the object it was given), the
   * other order stays pending and the listing is unchanged.
   */
  method UpdateScenario() returns (after: OrderStatus, callerSees: OrderStatus, other: OrderStatus, unchangedList: bool)
    ensures after == Filled && callerSees == Filled && other == Pending && unchangedList
  {
    var tracker := new OrderTracker();
    var first := new Order("1", "BTCUSD", "buy", Float(0x3FF0_0000_0000_0000), Float(0x4059_0000_0000_0000), "t0");
    var e1 := tracker.Submit(first);
    var order := new Order("2", "ETHUSD", "sell", Float(0x4000_0000_0000_0000), Float(0x4049_0000_0000_0000), "t1");
    var e2 := tracker.Submit(order);
    var listedBefore := tracker.ListOrders();
    var e3 := tracker.UpdateStatus("2", Filled);
    var updated := tracker.GetOrder("2");
    after := updated.value.status;
    callerSees := order.status;
    other := first.status;
    var listedAfter := tracker.ListOrders();
    unchangedList := listedAfter == listedBefore;
  }
}
