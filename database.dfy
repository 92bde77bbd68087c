/** The relational store the FastAPI service reads and writes through its
    SQLAlchemy session, as one object whose tables are fields. Tables that
    are looked up by key are maps; tables whose query order decides a
    `.first()` are sequences in that order. A request that raises is never
    committed, so every handler either replaces these fields with their new
    contents or leaves them untouched. */
module Database {
  import opened Common
  import opened Domain

  /** `delivery_partners.user_id` is a unique column. */
  predicate UniquePartners(partners: seq<DeliveryPartner>)
  {
    forall i, j :: 0 <= i < j < |partners| ==> partners[i].userId != partners[j].userId
  }

  class Db {
    var users: map<Id, User>
    var restaurants: map<Id, Restaurant>
    var dishes: map<Id, Dish>
    var nextDishId: Id
    var orders: map<Id, Order>
    var nextOrderId: Id
    var partners: seq<DeliveryPartner>
    var complaints: map<Id, Complaint>
    var nextComplaintId: Id
    var offers: seq<Offer>
    var fees: seq<Fee>
    var notifications: seq<Notification>

    /** Auto-increment keys: every stored key is positive and below the next
        one to be handed out, and an order row knows its own key. No two
        delivery-partner rows belong to the same user. */
    ghost predicate Valid()
      reads this`nextDishId, this`nextOrderId, this`nextComplaintId, this`users, this`restaurants
      reads this`dishes, this`orders, this`complaints, this`partners
    {
      && 1 <= nextDishId && 1 <= nextOrderId && 1 <= nextComplaintId
      && (forall k :: k in users ==> 1 <= k)
      && (forall k :: k in restaurants ==> 1 <= k)
      && (forall k :: k in dishes ==> 1 <= k < nextDishId)
      && (forall k :: k in orders ==> 1 <= k < nextOrderId && orders[k].id == k)
      && (forall k :: k in complaints ==> 1 <= k < nextComplaintId)
      && UniquePartners(partners)
    }

    constructor Empty()
      ensures Valid()
      ensures users == map[] && restaurants == map[] && dishes == map[] && orders == map[]
      ensures partners == [] && complaints == map[] && offers == [] && fees == [] && notifications == []
    {
      users, restaurants, dishes, orders := map[], map[], map[], map[];
      nextDishId, nextOrderId, nextComplaintId := 1, 1, 1;
      partners, complaints, offers, fees, notifications := [], map[], [], [], [];
    }

    /** `db.add(order); db.flush()`: the row receives the next key. */
    method AddOrder(o: Order) returns (stored: Order)
      requires Valid()
      modifies this`orders, this`nextOrderId
      ensures Valid()
      ensures stored == o.(id := old(nextOrderId)) && stored.id !in old(orders)
      ensures orders == old(orders)[stored.id := stored] && nextOrderId == old(nextOrderId) + 1
    {
      stored := o.(id := nextOrderId);
      orders := orders[stored.id := stored];
      nextOrderId := nextOrderId + 1;
    }

    /** `db.add(dish)`: the row receives the next key. */
    method AddDish(d: Dish) returns (id: Id)
      requires Valid()
      modifies this`dishes, this`nextDishId
      ensures Valid()
      ensures id == old(nextDishId) && id !in old(dishes)
      ensures dishes == old(dishes)[id := d] && nextDishId == old(nextDishId) + 1
    {
      id := nextDishId;
      dishes := dishes[id := d];
      nextDishId := nextDishId + 1;
    }

    /** Writes back a changed order row under its own key. */
    method PutOrder(o: Order)
      requires Valid() && o.id in orders
      modifies this`orders
      ensures Valid()
      ensures orders == old(orders)[o.id := o]
    {
      orders := orders[o.id := o];
    }

    /** `db.add(complaint)`: the row receives the next key. */
    method AddComplaint(c: Complaint) returns (id: Id)
      requires Valid()
      modifies this`complaints, this`nextComplaintId
      ensures Valid()
      ensures id == old(nextComplaintId) && id !in old(complaints)
      ensures complaints == old(complaints)[id := c] && nextComplaintId == old(nextComplaintId) + 1
    {
      id := nextComplaintId;
      complaints := complaints[id := c];
      nextComplaintId := nextComplaintId + 1;
    }
  }
}
