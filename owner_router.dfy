/** The restaurant owner's requests. Every one of them first looks up the
    caller's restaurant and then works only inside it. */
module OwnerRouter {
  import opened Common
  import opened Domain
  import opened Database
  import opened StatusMachine
  import opened Notifications

  predicate Owns(restaurants: map<Id, Restaurant>, ownerId: Id, rid: Id)
  {
    rid in restaurants && restaurants[rid].ownerId == ownerId
  }

  /** `get_owner_restaurant`: some restaurant of the owner, 404 when there
      is none. The query has no ordering, so which of several is found is
      left open. */
  method GetOwnerRestaurant(db: Db, ownerId: Id) returns (r: Result<Id>)
    ensures r.Failure? <==> forall k :: k in db.restaurants ==> db.restaurants[k].ownerId != ownerId
    ensures r.Failure? ==> r == Failure(NotFound(NoRestaurantForOwner))
    ensures r.Success? ==> Owns(db.restaurants, ownerId, r.value)
  {
    if k :| k in db.restaurants && db.restaurants[k].ownerId == ownerId {
      r := Success(k);
    } else {
      r := Failure(NotFound(NoRestaurantForOwner));
    }
  }

  /** `POST /dishes`: the dish is created only in the owner's restaurant. The
      request schema has already required a positive price. */
  method CreateDish(db: Db, ownerId: Id, restaurantId: Id, name: string, price: int,
                    photoPath: Option<string>, available: bool) returns (r: Result<Id>)
    requires db.Valid() && price > 0
    modifies db`dishes, db`nextDishId
    ensures db.Valid()
    ensures (forall k :: k in db.restaurants ==> db.restaurants[k].ownerId != ownerId) ==>
              r == Failure(NotFound(NoRestaurantForOwner))
    ensures !Owns(db.restaurants, ownerId, restaurantId) ==> r.Failure?
    ensures r.Failure? ==> db.dishes == old(db.dishes) && db.nextDishId == old(db.nextDishId)
    ensures r.Failure? ==> r.error == NotFound(NoRestaurantForOwner) || r.error == Forbidden(OnlyOwnRestaurant)
    ensures (exists k :: Owns(db.restaurants, ownerId, k)) ==>
              exists rid :: Owns(db.restaurants, ownerId, rid)
                            && (r.Success? <==> rid == restaurantId)
                            && (r.Failure? ==> r == Failure(Forbidden(OnlyOwnRestaurant)))
    ensures r.Success? ==>
              Owns(db.restaurants, ownerId, restaurantId)
              && r.value !in old(db.dishes)
              && db.dishes == old(db.dishes)[r.value := Dish(restaurantId, name, price, photoPath, available)]
  {
    var owned := GetOwnerRestaurant(db, ownerId);
    if owned.Failure? {
      return Failure(owned.error);
    }
    if restaurantId != owned.value {
      r := Failure(Forbidden(OnlyOwnRestaurant));
      assert Owns(db.restaurants, ownerId, owned.value);
      return;
    }
    var id := db.AddDish(Dish(restaurantId, name, price, photoPath, available));
    r := Success(id);
    assert Owns(db.restaurants, ownerId, restaurantId);
  }

  /** `GET /dishes`: every dish of the owner's restaurant, available or not. */
  method ListDishes(db: Db, ownerId: Id) returns (r: Result<set<Id>>)
    ensures r.Failure? <==> forall k :: k in db.restaurants ==> db.restaurants[k].ownerId != ownerId
    ensures r.Failure? ==> r == Failure(NotFound(NoRestaurantForOwner))
    ensures r.Success? ==>
              exists rid :: Owns(db.restaurants, ownerId, rid)
                            && forall k :: k in r.value <==> k in db.dishes && db.dishes[k].restaurantId == rid
  {
    var owned := GetOwnerRestaurant(db, ownerId);
    if owned.Failure? {
      return Failure(owned.error);
    }
    var rid := owned.value;
    r := Success(set k | k in db.dishes && db.dishes[k].restaurantId == rid);
  }

  /** `GET /orders`: every order of the owner's restaurant, in any status. */
  method ListRestaurantOrders(db: Db, ownerId: Id) returns (r: Result<set<Id>>)
    ensures r.Failure? <==> forall k :: k in db.restaurants ==> db.restaurants[k].ownerId != ownerId
    ensures r.Failure? ==> r == Failure(NotFound(NoRestaurantForOwner))
    ensures r.Success? ==>
              exists rid :: Owns(db.restaurants, ownerId, rid)
                            && forall k :: k in r.value <==> k in db.orders && db.orders[k].restaurantId == rid
  {
    var owned := GetOwnerRestaurant(db, ownerId);
    if owned.Failure? {
      return Failure(owned.error);
    }
    var rid := owned.value;
    r := Success(set k | k in db.orders && db.orders[k].restaurantId == rid);
  }

  /** One field of a `DishUpdate` that the request supplied. Only
      `photo_path` may be sent as an explicit null. */
  datatype DishField =
    | NameField(name: string)
    | PriceField(price: int)
    | PhotoField(photoPath: Option<string>)
    | AvailableField(available: bool)

  /** `setattr(dish, field, value)`. */
  function SetField(d: Dish, f: DishField): (r: Dish)
    ensures r.restaurantId == d.restaurantId
  {
    match f
    case NameField(n) => d.(name := n)
    case PriceField(p) => d.(price := p)
    case PhotoField(p) => d.(photoPath := p)
    case AvailableField(a) => d.(available := a)
  }

  /** The supplied fields applied in order. */
  function ApplyFields(d: Dish, fields: seq<DishField>): (r: Dish)
    ensures r.restaurantId == d.restaurantId
    decreases |fields|
  {
    if fields == [] then d else SetField(ApplyFields(d, fields[..|fields| - 1]), fields[|fields| - 1])
  }

  /** A `DishUpdate` body; `None` is a field the request left unset. */
  datatype DishUpdate = DishUpdate(
    name: Option<string>,
    price: Option<int>,
    photoPath: Option<Option<string>>,
    available: Option<bool>)

  /** `model_dump(exclude_unset=True)`: the set fields in declaration order. */
  function SetFields(u: DishUpdate): (r: seq<DishField>)
    ensures |r| <= 4
  {
    (if u.name.Some? then [NameField(u.name.value)] else [])
    + (if u.price.Some? then [PriceField(u.price.value)] else [])
    + (if u.photoPath.Some? then [PhotoField(u.photoPath.value)] else [])
    + (if u.available.Some? then [AvailableField(u.available.value)] else [])
  }

  lemma ApplyOne(d: Dish, f: DishField)
    ensures ApplyFields(d, [f]) == SetField(d, f)
  {
    assert [f][..0] == [];
  }

  lemma {:induction false} ApplyFieldsAppend(d: Dish, a: seq<DishField>, b: seq<DishField>)
    ensures ApplyFields(d, a + b) == ApplyFields(ApplyFields(d, a), b)
    decreases |b|
  {
    if b == [] {
      assert a + b == a;
    } else {
      var b' := b[..|b| - 1];
      assert (a + b)[..|a + b| - 1] == a + b';
      ApplyFieldsAppend(d, a, b');
    }
  }

  /** A patch changes exactly the supplied fields: each one set takes the
      sent value, every other field keeps its old value. */
  lemma PatchSetsSuppliedFields(d: Dish, u: DishUpdate)
    ensures var r := ApplyFields(d, SetFields(u));
            r.restaurantId == d.restaurantId
            && r.name == (if u.name.Some? then u.name.value else d.name)
            && r.price == (if u.price.Some? then u.price.value else d.price)
            && r.photoPath == (if u.photoPath.Some? then u.photoPath.value else d.photoPath)
            && r.available == (if u.available.Some? then u.available.value else d.available)
  {
    var l1 := if u.name.Some? then [NameField(u.name.value)] else [];
    var l2 := if u.price.Some? then [PriceField(u.price.value)] else [];
    var l3 := if u.photoPath.Some? then [PhotoField(u.photoPath.value)] else [];
    var l4 := if u.available.Some? then [AvailableField(u.available.value)] else [];
    assert SetFields(u) == ((l1 + l2) + l3) + l4;
    ApplyFieldsAppend(d, (l1 + l2) + l3, l4);
    ApplyFieldsAppend(d, l1 + l2, l3);
    ApplyFieldsAppend(d, l1, l2);
    var d1 := ApplyFields(d, l1);
    var d2 := ApplyFields(d1, l2);
    var d3 := ApplyFields(d2, l3);
    var d4 := ApplyFields(d3, l4);
    if u.name.Some? { ApplyOne(d, l1[0]); }
    if u.price.Some? { ApplyOne(d1, l2[0]); }
    if u.photoPath.Some? { ApplyOne(d2, l3[0]); }
    if u.available.Some? { ApplyOne(d3, l4[0]); }
  }

  /** Sending the same patch twice leaves the dish as the first time. */
  lemma PatchIdempotent(d: Dish, u: DishUpdate)
    ensures ApplyFields(ApplyFields(d, SetFields(u)), SetFields(u)) == ApplyFields(d, SetFields(u))
  {
    var once := ApplyFields(d, SetFields(u));
    PatchSetsSuppliedFields(d, u);
    PatchSetsSuppliedFields(once, u);
  }

  /** A dish of the owner's restaurant `rid`. */
  predicate InRestaurant(dishes: map<Id, Dish>, rid: Id, dishId: Id)
  {
    dishId in dishes && dishes[dishId].restaurantId == rid
  }

  /** `PUT /dishes/{dish_id}`: the `setattr` loop over the supplied fields. */
  method UpdateDish(db: Db, ownerId: Id, dishId: Id, u: DishUpdate) returns (r: Result<Dish>)
    requires db.Valid()
    modifies db`dishes
    ensures db.Valid()
    ensures r.Failure? ==> db.dishes == old(db.dishes)
    ensures r.Failure? ==> r.error == NotFound(NoRestaurantForOwner) || r.error == NotFound(DishNotFound)
    ensures ((forall k :: k in db.restaurants ==> db.restaurants[k].ownerId != ownerId)
             || dishId !in old(db.dishes)
             || !Owns(db.restaurants, ownerId, old(db.dishes)[dishId].restaurantId)) ==> r.Failure?
    ensures (exists k :: Owns(db.restaurants, ownerId, k)) ==>
              exists rid :: Owns(db.restaurants, ownerId, rid)
                            && (r.Success? <==> InRestaurant(old(db.dishes), rid, dishId))
                            && (r.Failure? ==> r == Failure(NotFound(DishNotFound)))
    ensures r.Success? ==>
              dishId in old(db.dishes) && Owns(db.restaurants, ownerId, old(db.dishes)[dishId].restaurantId)
              && r.value == ApplyFields(old(db.dishes)[dishId], SetFields(u))
              && db.dishes == old(db.dishes)[dishId := r.value]
  {
    var owned := GetOwnerRestaurant(db, ownerId);
    if owned.Failure? {
      return Failure(owned.error);
    }
    if !InRestaurant(db.dishes, owned.value, dishId) {
      r := Failure(NotFound(DishNotFound));
      assert Owns(db.restaurants, ownerId, owned.value);
      return;
    }
    var dish := db.dishes[dishId];
    var fields := SetFields(u);
    for i := 0 to |fields|
      invariant dish == ApplyFields(db.dishes[dishId], fields[..i])
    {
      assert fields[..i + 1][..i] == fields[..i];
      dish := SetField(dish, fields[i]);
    }
    assert fields[..|fields|] == fields;
    db.dishes := db.dishes[dishId := dish];
    r := Success(dish);
    assert Owns(db.restaurants, ownerId, owned.value);
  }

  /** `DELETE /dishes/{dish_id}`. */
  method DeleteDish(db: Db, ownerId: Id, dishId: Id) returns (r: Result<Id>)
    requires db.Valid()
    modifies db`dishes
    ensures db.Valid()
    ensures r.Failure? ==> db.dishes == old(db.dishes)
    ensures r.Failure? ==> r.error == NotFound(NoRestaurantForOwner) || r.error == NotFound(DishNotFound)
    ensures ((forall k :: k in db.restaurants ==> db.restaurants[k].ownerId != ownerId)
             || dishId !in old(db.dishes)
             || !Owns(db.restaurants, ownerId, old(db.dishes)[dishId].restaurantId)) ==> r.Failure?
    ensures (exists k :: Owns(db.restaurants, ownerId, k)) ==>
              exists rid :: Owns(db.restaurants, ownerId, rid)
                            && (r.Success? <==> InRestaurant(old(db.dishes), rid, dishId))
                            && (r.Failure? ==> r == Failure(NotFound(DishNotFound)))
    ensures r.Success? ==>
              r.value == dishId && dishId in old(db.dishes)
              && Owns(db.restaurants, ownerId, old(db.dishes)[dishId].restaurantId)
              && db.dishes == old(db.dishes) - {dishId}
  {
    var owned := GetOwnerRestaurant(db, ownerId);
    if owned.Failure? {
      return Failure(owned.error);
    }
    if !InRestaurant(db.dishes, owned.value, dishId) {
      r := Failure(NotFound(DishNotFound));
      assert Owns(db.restaurants, ownerId, owned.value);
      return;
    }
    db.dishes := db.dishes - {dishId};
    r := Success(dishId);
    assert Owns(db.restaurants, ownerId, owned.value);
  }

  /** `PUT /orders/{order_id}/status` once the owner's restaurant `rid` is
      known: the order must be one of its orders, then the owner's
      transition check applies, and only the status changes. */
  function OwnerOrderStep(orders: map<Id, Order>, rid: Id, orderId: Id, target: OrderStatus): (r: Result<Order>)
    ensures !(orderId in orders && orders[orderId].restaurantId == rid) ==> r == Failure(NotFound(OrderNotFound))
    ensures orderId in orders && orders[orderId].restaurantId == rid ==>
              match OwnerTransition(orders[orderId].status, target)
              case Failure(e) => r == Failure(e)
              case Success(s) => r == Success(orders[orderId].(status := s))
  {
    if orderId in orders && orders[orderId].restaurantId == rid then
      match OwnerTransition(orders[orderId].status, target)
      case Failure(e) => Failure(e)
      case Success(s) => Success(orders[orderId].(status := s))
    else Failure(NotFound(OrderNotFound))
  }

  /** The owner's update goes through exactly for a `placed` order of the
      restaurant moved to `preparing`, and then changes the status alone. */
  lemma OwnerOrderStepSucceeds(orders: map<Id, Order>, rid: Id, orderId: Id, target: OrderStatus)
    ensures OwnerOrderStep(orders, rid, orderId, target).Success? <==>
              orderId in orders && orders[orderId].restaurantId == rid
              && orders[orderId].status == Placed && target == Preparing
    ensures OwnerOrderStep(orders, rid, orderId, target).Success? ==>
              OwnerOrderStep(orders, rid, orderId, target).value == orders[orderId].(status := Preparing)
  {
  }

  /** The owner's current-status check comes first: an order past `placed`
      is refused with the same message whatever target is asked. */
  lemma OwnerStatusCheckedFirst(orders: map<Id, Order>, rid: Id, orderId: Id, target: OrderStatus)
    requires orderId in orders && orders[orderId].restaurantId == rid && orders[orderId].status != Placed
    ensures OwnerOrderStep(orders, rid, orderId, target) == Failure(BadRequest(OnlyFromPlaced))
  {
  }

  method UpdateOrderStatus(db: Db, ownerId: Id, orderId: Id, target: OrderStatus) returns (r: Result<Order>)
    requires db.Valid()
    modifies db`orders, db`notifications
    ensures db.Valid()
    ensures (forall k :: k in db.restaurants ==> db.restaurants[k].ownerId != ownerId) ==>
              r == Failure(NotFound(NoRestaurantForOwner))
    ensures (exists k :: Owns(db.restaurants, ownerId, k)) ==>
              exists rid :: Owns(db.restaurants, ownerId, rid)
                            && r == OwnerOrderStep(old(db.orders), rid, orderId, target)
    ensures r.Failure? ==> db.orders == old(db.orders) && db.notifications == old(db.notifications)
    ensures r.Success? ==>
              orderId in old(db.orders)
              && Owns(db.restaurants, ownerId, old(db.orders)[orderId].restaurantId)
              && r == OwnerOrderStep(old(db.orders), old(db.orders)[orderId].restaurantId, orderId, target)
              && db.orders == old(db.orders)[orderId := r.value]
              && db.notifications == old(db.notifications) + StatusChangeRecords(r.value)
  {
    var owned := GetOwnerRestaurant(db, ownerId);
    if owned.Failure? {
      return Failure(owned.error);
    }
    r := OwnerOrderStep(db.orders, owned.value, orderId, target);
    if r.Failure? {
      assert Owns(db.restaurants, ownerId, owned.value);
      return;
    }
    var oldStatus := db.orders[orderId].status;
    db.PutOrder(r.value);
    NotifyOrderStatusChange(db, r.value, oldStatus);
    assert db.restaurants[owned.value].ownerId == ownerId;
    assert r == OwnerOrderStep(old(db.orders), owned.value, orderId, target);
  }

  /** The confirmation message of `PUT /toggle-ordering`. */
  function ToggleMessage(enabled: bool): string
  {
    "Ordering " + (if enabled then "enabled" else "disabled") + " successfully"
  }

  /** `PUT /toggle-ordering`: only the owner's restaurant, and only its
      `is_ordering_enabled`, changes. */
  method ToggleOrdering(db: Db, ownerId: Id, enabled: bool) returns (r: Result<(string, bool)>)
    requires db.Valid()
    modifies db`restaurants
    ensures db.Valid()
    ensures r.Failure? <==> forall k :: k in old(db.restaurants) ==> old(db.restaurants)[k].ownerId != ownerId
    ensures r.Failure? ==> r == Failure(NotFound(NoRestaurantForOwner)) && db.restaurants == old(db.restaurants)
    ensures r.Success? ==>
              r.value == (ToggleMessage(enabled), enabled)
              && exists rid :: Owns(old(db.restaurants), ownerId, rid)
                               && db.restaurants == old(db.restaurants)[rid := old(db.restaurants)[rid].(orderingEnabled := enabled)]
  {
    var owned := GetOwnerRestaurant(db, ownerId);
    if owned.Failure? {
      return Failure(owned.error);
    }
    var rid := owned.value;
    db.restaurants := db.restaurants[rid := db.restaurants[rid].(orderingEnabled := enabled)];
    r := Success((ToggleMessage(enabled), enabled));
  }
}
