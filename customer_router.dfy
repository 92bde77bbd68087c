/** The customer's browsing, order and complaint requests. The cart and
    checkout requests hand straight over to the cart and order services. */
module CustomerRouter {
  import opened Common
  import opened Domain
  import opened Database
  import opened StatusMachine
  import opened CartService
  import opened DeliveryService

  /** `GET /restaurants`: the active restaurants taking orders, narrowed to
      one pin code when a non-empty one is given. */
  function ListRestaurants(restaurants: map<Id, Restaurant>, pinCode: Option<string>): (r: set<Id>)
    ensures forall k :: k in r <==>
              k in restaurants && restaurants[k].status == Active && restaurants[k].orderingEnabled
              && (pinCode.Some? && pinCode.value != "" ==> restaurants[k].pinCode == pinCode.value)
  {
    set k | k in restaurants && restaurants[k].status == Active && restaurants[k].orderingEnabled
            && (pinCode.Some? && pinCode.value != "" ==> restaurants[k].pinCode == pinCode.value)
  }

  /** An empty pin code filters nothing, and a pin code only narrows the list. */
  lemma PinCodeNarrows(restaurants: map<Id, Restaurant>, pinCode: string)
    ensures ListRestaurants(restaurants, Some("")) == ListRestaurants(restaurants, None)
    ensures ListRestaurants(restaurants, Some(pinCode)) <= ListRestaurants(restaurants, None)
  {
  }

  /** `GET /restaurants/{restaurant_id}/menu`: the available dishes of an
      existing restaurant. The restaurant's own status is not checked. */
  function GetRestaurantMenu(restaurants: map<Id, Restaurant>, dishes: map<Id, Dish>, restaurantId: Id): (r: Result<set<Id>>)
    ensures r.Failure? <==> restaurantId !in restaurants
    ensures r.Failure? ==> r == Failure(NotFound(RestaurantNotFound))
    ensures r.Success? ==>
              forall k :: k in r.value <==> k in dishes && dishes[k].restaurantId == restaurantId && dishes[k].available
  {
    if restaurantId !in restaurants then Failure(NotFound(RestaurantNotFound))
    else Success(set k | k in dishes && dishes[k].restaurantId == restaurantId && dishes[k].available)
  }

  /** Browsing and adding agree: a dish on the menu of a listed restaurant
      goes into an empty cart, or into one already holding that restaurant's
      dishes. */
  lemma ListedMenuDishCanBeAdded(restaurants: map<Id, Restaurant>, dishes: map<Id, Dish>, pinCode: Option<string>,
                                 restaurantId: Id, dishId: Id, entry: Option<Cart>, quantity: int)
    requires restaurantId in ListRestaurants(restaurants, pinCode)
    requires GetRestaurantMenu(restaurants, dishes, restaurantId).Success?
    requires dishId in GetRestaurantMenu(restaurants, dishes, restaurantId).value
    requires entry.None? || entry.value.restaurantId == Some(restaurantId) || entry.value.restaurantId == None
    ensures AddStep(entry, dishes, restaurants, dishId, quantity).Success?
  {
  }

  /** `GET /orders/history`: the caller's own orders. */
  function OrderHistory(orders: map<Id, Order>, customerId: Id): (r: set<Id>)
    ensures forall k :: k in r <==> k in orders && orders[k].customerId == customerId
  {
    set k | k in orders && orders[k].customerId == customerId
  }

  /** `GET /orders/{order_id}`: another customer's order is reported as missing. */
  function GetOrder(orders: map<Id, Order>, customerId: Id, orderId: Id): (r: Result<Order>)
    ensures r.Failure? ==> r == Failure(NotFound(OrderNotFound))
    ensures r.Success? <==> orderId in orders && orders[orderId].customerId == customerId
    ensures r.Success? ==> r.value == orders[orderId]
  {
    if orderId in orders && orders[orderId].customerId == customerId then Success(orders[orderId])
    else Failure(NotFound(OrderNotFound))
  }

  /** The single-order view shows exactly the orders of the history. */
  lemma GetOrderMatchesHistory(orders: map<Id, Order>, customerId: Id, orderId: Id)
    ensures GetOrder(orders, customerId, orderId).Success? <==> orderId in OrderHistory(orders, customerId)
  {
  }

  /** `POST /orders/{order_id}/cancel` as a value: the caller's order, and
      only while `placed`. */
  function CancelStep(orders: map<Id, Order>, customerId: Id, orderId: Id): (r: Result<Order>)
    ensures GetOrder(orders, customerId, orderId).Failure? ==> r == Failure(NotFound(OrderNotFound))
    ensures r.Success? <==> GetOrder(orders, customerId, orderId).Success? && orders[orderId].status == Placed
    ensures GetOrder(orders, customerId, orderId).Success? && r.Failure? ==> r == Failure(BadRequest(CancelOnlyWhenPlaced))
    ensures r.Success? ==> r.value == orders[orderId].(status := Cancelled)
  {
    match GetOrder(orders, customerId, orderId)
    case Failure(e) => Failure(e)
    case Success(o) =>
      match CancelTransition(o.status)
      case Failure(e) => Failure(e)
      case Success(s) => Success(o.(status := s))
  }

  /** A cancelled order cannot be cancelled again. */
  lemma CancelOnce(orders: map<Id, Order>, customerId: Id, orderId: Id)
    requires CancelStep(orders, customerId, orderId).Success?
    ensures var o := CancelStep(orders, customerId, orderId).value;
            CancelStep(orders[orderId := o], customerId, orderId) == Failure(BadRequest(CancelOnlyWhenPlaced))
  {
  }

  /** `POST /orders/{order_id}/cancel`: the status becomes `cancelled`, an
      assigned partner is released, and no notification is sent. */
  method CancelOrder(db: Db, customerId: Id, orderId: Id) returns (r: Result<Order>)
    requires db.Valid()
    modifies db`orders, db`partners
    ensures db.Valid()
    ensures r == CancelStep(old(db.orders), customerId, orderId)
    ensures r.Failure? ==> db.orders == old(db.orders) && db.partners == old(db.partners)
    ensures r.Success? ==>
              db.orders == old(db.orders)[orderId := r.value]
              && db.partners == (if Truthy(r.value.deliveryPartnerId)
                                 then Release(old(db.partners), r.value.deliveryPartnerId.value)
                                 else old(db.partners))
  {
    r := CancelStep(db.orders, customerId, orderId);
    if r.Failure? {
      return;
    }
    db.PutOrder(r.value);
    if Truthy(r.value.deliveryPartnerId) {
      ReleaseDeliveryPartner(db, r.value.deliveryPartnerId.value);
    }
  }

  /** `GET /complaints`: the complaints the caller filed. */
  function MyComplaints(complaints: map<Id, Complaint>, customerId: Id): (r: set<Id>)
    ensures forall k :: k in r <==> k in complaints && complaints[k].customerId == customerId
  {
    set k | k in complaints && complaints[k].customerId == customerId
  }

  /** `POST /complaints`: a complaint can be filed only about one's own
      order, and starts `open` with no resolution. The request schema has
      already required a description of at least ten characters. */
  method CreateComplaint(db: Db, customerId: Id, orderId: Id, description: string) returns (r: Result<Id>)
    requires db.Valid() && |description| >= 10
    modifies db`complaints, db`nextComplaintId
    ensures db.Valid()
    ensures r.Failure? <==> GetOrder(db.orders, customerId, orderId).Failure?
    ensures r.Failure? ==>
              r == Failure(NotFound(OrderNotFound))
              && db.complaints == old(db.complaints) && db.nextComplaintId == old(db.nextComplaintId)
    ensures r.Success? ==>
              r.value !in old(db.complaints) && r.value in MyComplaints(db.complaints, customerId)
              && db.complaints == old(db.complaints)[r.value := Complaint(orderId, customerId, description, Open, None, None)]
  {
    if GetOrder(db.orders, customerId, orderId).Failure? {
      return Failure(NotFound(OrderNotFound));
    }
    var id := db.AddComplaint(Complaint(orderId, customerId, description, Open, None, None));
    r := Success(id);
  }
}
