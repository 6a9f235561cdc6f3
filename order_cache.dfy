/** The order cache: orders in flight, keyed by order id ("order:" + id in Redis). */
module OrderCacheService {
  import opened Common
  import opened Entities

  const ORDER_KEY_PREFIX: string := "order:"

  /** The Redis key of an order. */
  function BuildOrderKey(orderId: string): (key: string)
    ensures |key| == |ORDER_KEY_PREFIX| + |orderId|
    ensures key[..|ORDER_KEY_PREFIX|] == ORDER_KEY_PREFIX
    ensures key[|ORDER_KEY_PREFIX|..] == orderId
  {
    ORDER_KEY_PREFIX + orderId
  }

  /** Distinct ids never share a key, so the cache can be viewed as a map from id to order. */
  lemma BuildOrderKeyInjective(a: string, b: string)
    requires BuildOrderKey(a) == BuildOrderKey(b)
    ensures a == b
  {
    assert a == BuildOrderKey(a)[|ORDER_KEY_PREFIX|..];
  }

  /** Every entry is stored under its own id. */
  ghost predicate KeyedById(orders: map<string, Order>) {
    forall id :: id in orders ==> orders[id].id == id
  }

  /**
   * A scan over every key of an id-keyed order map that keeps the orders of
   * one user: each such order exactly once, in the unspecified order of the scan.
   */
  method OrdersOfUser(orders: map<string, Order>, userId: int) returns (result: seq<Order>)
    requires KeyedById(orders)
    ensures orders == map[] ==> result == []
    ensures forall o :: o in result <==> o in orders.Values && o.userId == userId
    ensures forall i, j :: 0 <= i < j < |result| ==> result[i].id != result[j].id
  {
    var keys := orders.Keys;
    if keys == {} {
      return [];
    }
    result := [];
    ghost var seen: set<string> := {};
    while keys != {}
      invariant forall k :: k in orders <==> k in keys || k in seen
      invariant forall k :: k in keys ==> k !in seen
      invariant ScanInv(orders, userId, result, seen)
      decreases |keys|
    {
      var key :| key in keys;
      var order := orders[key];
      ScanStep(orders, userId, result, seen, key);
      if order.userId == userId {
        result := result + [order];
      }
      keys := keys - {key};
      seen := seen + {key};
    }
    ScanComplete(orders, userId, result);
  }

  /** What the key scan has collected after visiting the keys in `seen`. */
  ghost predicate ScanInv(orders: map<string, Order>, userId: int, result: seq<Order>, seen: set<string>) {
    && (forall i :: 0 <= i < |result| ==>
          result[i].id in seen && result[i].id in orders && orders[result[i].id] == result[i] && result[i].userId == userId)
    && (forall k :: k in seen && k in orders && orders[k].userId == userId ==> orders[k] in result)
    && (forall i, j :: 0 <= i < j < |result| ==> result[i].id != result[j].id)
  }

  /** Visiting one more key keeps the scan invariant. */
  lemma ScanStep(orders: map<string, Order>, userId: int, result: seq<Order>, seen: set<string>, key: string)
    requires KeyedById(orders)
    requires ScanInv(orders, userId, result, seen)
    requires key in orders && key !in seen
    ensures ScanInv(orders, userId, if orders[key].userId == userId then result + [orders[key]] else result, seen + {key})
  {
  }

  /** A finished scan holds the user's orders and nothing else. */
  lemma ScanComplete(orders: map<string, Order>, userId: int, result: seq<Order>)
    requires ScanInv(orders, userId, result, orders.Keys)
    ensures forall o :: o in result <==> o in orders.Values && o.userId == userId
    ensures forall i, j :: 0 <= i < j < |result| ==> result[i].id != result[j].id
  {
    forall o | o in result
      ensures o in orders.Values && o.userId == userId
    {
      var i :| 0 <= i < |result| && result[i] == o;
      assert orders[result[i].id] == o;
    }
  }

  class OrderCache {
    var orders: map<string, Order>

    ghost predicate Valid()
      reads this
    {
      KeyedById(orders)
    }

    constructor ()
      ensures Valid() && orders == map[]
    {
      orders := map[];
    }

    /**
     * saveOrder: stores the order under its id. `None` stands for a null order
     * or an order whose id is null; both are ignored.
     */
    method SaveOrder(order: Option<Order>)
      requires Valid()
      modifies this
      ensures Valid()
      ensures order.None? ==> orders == old(orders)
      ensures order.Some? ==> orders == old(orders)[order.value.id := order.value]
      ensures order.Some? ==> GetOrder(Some(order.value.id)) == order
    {
      if order.Some? {
        orders := orders[order.value.id := order.value];
      }
    }

    /** getOrder: the cached order, None for a null id or a missing entry. */
    function GetOrder(orderId: Option<string>): (r: Option<Order>)
      reads this
      ensures orderId.None? ==> r.None?
      ensures r.Some? ==> orderId.Some? && orderId.value in orders && r.value == orders[orderId.value]
      ensures orderId.Some? && orderId.value in orders ==> r.Some?
    {
      if orderId.None? || orderId.value !in orders then None else Some(orders[orderId.value])
    }

    /** deleteOrder: drops the entry of one id; a null id is ignored. */
    method DeleteOrder(orderId: Option<string>)
      requires Valid()
      modifies this
      ensures Valid()
      ensures orderId.None? ==> orders == old(orders)
      ensures orderId.Some? ==> orders == old(orders) - {orderId.value}
      ensures GetOrder(orderId).None?
      ensures forall id :: id in old(orders) && Some(id) != orderId ==> GetOrder(Some(id)) == Some(old(orders)[id])
    {
      if orderId.Some? {
        orders := orders - {orderId.value};
      }
    }

    /**
     * getAllOrdersByUser: scans every cached key and returns exactly the cached
     * orders of the user, each once (in the unspecified order of the key scan).
     */
    method GetAllOrdersByUser(userId: int) returns (result: seq<Order>)
      requires Valid()
      ensures orders == map[] ==> result == []
      ensures forall o :: o in result <==> o in orders.Values && o.userId == userId
      ensures forall i, j :: 0 <= i < j < |result| ==> result[i].id != result[j].id
    {
      result := OrdersOfUser(orders, userId);
    }
  }
}
