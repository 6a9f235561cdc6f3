/** The database tables the services use, as id-keyed maps. */
module Repositories {
  import opened Common
  import opened Entities
  import opened Seqs
  import opened OrderCacheService

  /** ChargingStationRepository; `ids` is the order findAll returns the rows in. */
  class StationRepository {
    var stations: map<int, ChargingStation>
    var ids: seq<int>

    ghost predicate Valid()
      reads this
    {
      && Distinct(ids)
      && (forall id :: id in stations <==> id in ids)
      && (forall id :: id in stations ==> stations[id].id == id)
    }

    constructor ()
      ensures Valid() && stations == map[] && ids == []
    {
      stations, ids := map[], [];
    }

    function FindById(id: int): (r: Option<ChargingStation>)
      reads this
      ensures r.Some? <==> id in stations
      ensures r.Some? ==> r.value == stations[id]
    {
      if id in stations then Some(stations[id]) else None
    }

    /** existsByName: whether some station already carries the name. */
    predicate ExistsByName(name: string)
      reads this
    {
      exists id :: id in stations && stations[id].name == name
    }

    /** save: inserts or replaces the row of the station's id; a new row goes last in findAll order. */
    method Save(station: ChargingStation)
      requires Valid()
      modifies this
      ensures Valid()
      ensures stations == old(stations)[station.id := station]
      ensures ids == if station.id in old(stations) then old(ids) else old(ids) + [station.id]
    {
      if station.id !in stations {
        ids := ids + [station.id];
      }
      stations := stations[station.id := station];
    }

    /** deleteById: NotFound stands for the EmptyResultDataAccessException of a missing row. */
    method DeleteById(id: int) returns (r: Result<bool>)
      requires Valid()
      modifies this
      ensures Valid()
      ensures id !in old(stations) ==> r == Err(NotFound) && stations == old(stations) && ids == old(ids)
      ensures id in old(stations) ==> r == Ok(true) && stations == old(stations) - {id} && ids == RemoveFirst(old(ids), id)
    {
      if id !in stations {
        return Err(NotFound);
      }
      ids := RemoveFirst(ids, id);
      stations := stations - {id};
      r := Ok(true);
      assert |old(ids)| == |ids| + 1;
      RemoveFirstDistinct(old(ids), id);
    }
  }

  /** UserRepository. */
  class UserRepository {
    var users: map<int, User>

    ghost predicate Valid()
      reads this
    {
      forall id :: id in users ==> users[id].userId == id
    }

    constructor ()
      ensures Valid() && users == map[]
    {
      users := map[];
    }

    function FindById(userId: int): (r: Option<User>)
      reads this
      ensures r.Some? <==> userId in users
      ensures r.Some? ==> r.value == users[userId]
    {
      if userId in users then Some(users[userId]) else None
    }

    method Save(user: User)
      requires Valid()
      modifies this
      ensures Valid()
      ensures users == old(users)[user.userId := user]
    {
      users := users[user.userId := user];
    }
  }

  /** OrderRepository: the persisted orders, keyed by order id. */
  class OrderRepository {
    var orders: map<string, Order>

    ghost predicate Valid()
      reads this
    {
      KeyedById(orders)
    }

    constructor ()
      ensures Valid() && orders == map[]
    {
      orders := map[];
    }

    function FindById(orderId: string): (r: Option<Order>)
      reads this
      ensures r.Some? <==> orderId in orders
      ensures r.Some? ==> r.value == orders[orderId]
    {
      if orderId in orders then Some(orders[orderId]) else None
    }

    method Save(order: Order)
      requires Valid()
      modifies this
      ensures Valid()
      ensures orders == old(orders)[order.id := order]
    {
      orders := orders[order.id := order];
    }

    /** findByUserId: every persisted order of the user, once each. */
    method FindByUserId(userId: int) returns (result: seq<Order>)
      requires Valid()
      ensures forall o :: o in result <==> o in orders.Values && o.userId == userId
      ensures forall i, j :: 0 <= i < j < |result| ==> result[i].id != result[j].id
    {
      result := OrdersOfUser(orders, userId);
    }
  }
}
