/** Fee resolution, order totals, checkout and reorder. */
module OrderService {
  import opened Common
  import opened Domain
  import opened Money
  import opened Database
  import opened CartService
  import opened OfferService
  import opened Notifications
  import opened AdminValidators

  /** Built-in delivery and platform fees, 30.00 and 5.00. */
  const DefaultDeliveryFee: int := 3000
  const DefaultPlatformFee: int := 500

  /** Position of the first fee row with this scope, or `|fees|`. */
  function FeeRow(fees: seq<Fee>, scope: Option<Id>): (k: nat)
    ensures k <= |fees|
    ensures forall j :: 0 <= j < k ==> fees[j].restaurantId != scope
    ensures k < |fees| ==> fees[k].restaurantId == scope
  {
    FirstIndex(fees, (f: Fee) => f.restaurantId == scope)
  }

  /** `get_fees`: the restaurant's own row, else the platform-wide row, else
      the built-in default. */
  function GetFees(fees: seq<Fee>, restaurantId: Id): (r: (int, int))
    ensures (exists f :: f in fees && f.restaurantId == Some(restaurantId)) ==>
              exists f :: f in fees && f.restaurantId == Some(restaurantId) && r == (f.deliveryFee, f.platformFee)
    ensures (forall f :: f in fees ==> f.restaurantId != Some(restaurantId)) && (exists f :: f in fees && f.restaurantId.None?) ==>
              exists f :: f in fees && f.restaurantId.None? && r == (f.deliveryFee, f.platformFee)
    ensures (forall f :: f in fees ==> f.restaurantId != Some(restaurantId) && f.restaurantId.Some?) ==>
              r == (DefaultDeliveryFee, DefaultPlatformFee)
  {
    var own := FeeRow(fees, Some(restaurantId));
    var platform := FeeRow(fees, None);
    ScopedRowFound(fees, Some(restaurantId));
    ScopedRowFound(fees, None);
    if own < |fees| then
      assert fees[own] in fees;
      (fees[own].deliveryFee, fees[own].platformFee)
    else if platform < |fees| then
      assert fees[platform] in fees;
      (fees[platform].deliveryFee, fees[platform].platformFee)
    else (DefaultDeliveryFee, DefaultPlatformFee)
  }

  lemma ScopedRowFound(fees: seq<Fee>, scope: Option<Id>)
    ensures FeeRow(fees, scope) < |fees| <==> exists f :: f in fees && f.restaurantId == scope
  {
    if f :| f in fees && f.restaurantId == scope {
      var j :| 0 <= j < |fees| && fees[j] == f;
      assert FeeRow(fees, scope) <= j;
    }
  }

  /** Fees configured through the admin validator are never negative, so
      neither is either fee an order is charged. */
  lemma FeesNonNegative(fees: seq<Fee>, restaurantId: Id)
    requires forall f :: f in fees ==> ValidateFee(FeeAttrs(Some(f.deliveryFee), Some(f.platformFee))).Success?
    ensures GetFees(fees, restaurantId).0 >= 0 && GetFees(fees, restaurantId).1 >= 0
  {
    var own := FeeRow(fees, Some(restaurantId));
    var platform := FeeRow(fees, None);
    if own < |fees| {
      assert fees[own] in fees;
    } else if platform < |fees| {
      assert fees[platform] in fees;
    }
  }

  /** The fee rows of the seeded data: platform 30.00/5.00 and restaurant 1
      at 25.00/5.00. */
  lemma SeededFees()
    ensures GetFees([Fee(None, 3000, 500), Fee(Some(1), 2500, 500)], 1) == (2500, 500)
    ensures GetFees([Fee(None, 3000, 500), Fee(Some(1), 2500, 500)], 2) == (3000, 500)
    ensures GetFees([], 1) == (DefaultDeliveryFee, DefaultPlatformFee)
  {
    var fees := [Fee(None, 3000, 500), Fee(Some(1), 2500, 500)];
    FeeRowAt(fees, Some(1), 1);
    FeeRowAt(fees, Some(2), 2);
    FeeRowAt(fees, None, 0);
  }

  lemma FeeRowAt(fees: seq<Fee>, scope: Option<Id>, k: nat)
    requires k <= |fees|
    requires forall j :: 0 <= j < k ==> fees[j].restaurantId != scope
    requires k < |fees| ==> fees[k].restaurantId == scope
    ensures FeeRow(fees, scope) == k
  {
  }

  /** `calculate_order_total`: `round(items - discount + delivery + platform, 2)`.
      Every operand is already in whole cents, so the rounding never changes
      the sum. */
  function CalculateOrderTotal(itemsTotal: int, discount: int, deliveryFee: int, platformFee: int): (t: int)
    ensures t == itemsTotal - discount + deliveryFee + platformFee
  {
    var sum := itemsTotal - discount + deliveryFee + platformFee;
    RoundCentsOfCents(sum);
    RoundCents(sum, 2)
  }

  /** Every line of the cart has its dish in the catalogue. */
  predicate AllPriced(items: seq<Line>, dishes: map<Id, Dish>)
  {
    forall l :: l in items ==> l.dishId in dishes
  }

  /** The order items: one per cart line, in cart order, each carrying the
      dish price at checkout. */
  function Snapshot(items: seq<Line>, dishes: map<Id, Dish>): (r: seq<OrderItem>)
    requires AllPriced(items, dishes)
    ensures |r| == |items|
  {
    if items == [] then []
    else
      var init := items[..|items| - 1];
      assert forall l :: l in init ==> l in items;
      Snapshot(init, dishes) + [OrderItem(items[|items| - 1].dishId, items[|items| - 1].quantity,
                                          dishes[items[|items| - 1].dishId].price)]
  }

  /** Item `i` of the snapshot is line `i` of the cart at its dish's price. */
  lemma {:induction false} SnapshotItems(items: seq<Line>, dishes: map<Id, Dish>)
    requires AllPriced(items, dishes)
    ensures var r := Snapshot(items, dishes);
            forall i :: 0 <= i < |items| ==>
              r[i] == OrderItem(items[i].dishId, items[i].quantity, dishes[items[i].dishId].price)
    decreases |items|
  {
    if items != [] {
      var init := items[..|items| - 1];
      assert forall l :: l in init ==> l in items;
      SnapshotItems(init, dishes);
    }
  }

  lemma SnapshotSnoc(items: seq<Line>, l: Line, dishes: map<Id, Dish>)
    requires AllPriced(items, dishes) && l.dishId in dishes
    ensures AllPriced(items + [l], dishes)
    ensures Snapshot(items + [l], dishes)
            == Snapshot(items, dishes) + [OrderItem(l.dishId, l.quantity, dishes[l.dishId].price)]
  {
    assert (items + [l])[..|items|] == items;
  }

  /** `Σ price_snapshot × quantity` over order items. */
  function ItemsTotal(items: seq<OrderItem>): int
  {
    if items == [] then 0
    else ItemsTotal(items[..|items| - 1]) + items[|items| - 1].priceSnapshot * items[|items| - 1].quantity
  }

  lemma ItemsTotalSnoc(items: seq<OrderItem>, it: OrderItem)
    ensures ItemsTotal(items + [it]) == ItemsTotal(items) + it.priceSnapshot * it.quantity
  {
    assert (items + [it])[..|items|] == items;
  }

  /** No item has a negative price or quantity, so no total is negative. */
  lemma {:induction false} ItemsTotalNonNegative(items: seq<OrderItem>)
    requires forall i :: 0 <= i < |items| ==> items[i].priceSnapshot >= 0 && items[i].quantity >= 0
    ensures ItemsTotal(items) >= 0
  {
    if items != [] {
      var last := items[|items| - 1];
      ItemsTotalNonNegative(items[..|items| - 1]);
      MulMonotone(last.priceSnapshot, 0, last.quantity);
    }
  }

  /** The order a validated cart turns into, given the key it receives. */
  function CheckoutOrder(cart: Cart, dishes: map<Id, Dish>, fees: seq<Fee>, offers: seq<Offer>,
                         users: map<Id, User>, orders: map<Id, Order>,
                         userId: Id, offerId: Option<int>, paymentMode: PaymentMode, id: Id): (o: Order)
    requires cart.restaurantId.Some? && AllPriced(cart.items, dishes)
    ensures o.id == id && o.customerId == userId && o.restaurantId == cart.restaurantId.value
    ensures o.status == Placed && o.deliveryPartnerId.None? && o.paymentMode == paymentMode
    ensures o.items == Snapshot(cart.items, dishes)
    ensures (o.deliveryFee, o.platformFee) == GetFees(fees, cart.restaurantId.value)
    ensures o.discountAmount == ApplyOffer(offers, users, orders, userId, cart.restaurantId.value,
                                           ItemsTotal(o.items), offerId).1
    ensures o.totalAmount == ItemsTotal(o.items) - o.discountAmount + o.deliveryFee + o.platformFee
  {
    var rid := cart.restaurantId.value;
    var items := Snapshot(cart.items, dishes);
    var itemsTotal := ItemsTotal(items);
    var fee := GetFees(fees, rid);
    var discount := ApplyOffer(offers, users, orders, userId, rid, itemsTotal, offerId).1;
    Order(id, userId, rid, None, Placed, CalculateOrderTotal(itemsTotal, discount, fee.0, fee.1),
          discount, fee.0, fee.1, paymentMode, items)
  }

  /** With non-negative prices and quantities and offer percentages in
      [0, 100] %, the discount never exceeds the items total, so the order
      total is at least the two fees. */
  lemma TotalCoversFees(cart: Cart, dishes: map<Id, Dish>, fees: seq<Fee>, offers: seq<Offer>,
                        users: map<Id, User>, orders: map<Id, Order>,
                        userId: Id, offerId: Option<int>, paymentMode: PaymentMode, id: Id)
    requires cart.restaurantId.Some? && AllPriced(cart.items, dishes)
    requires forall l :: l in cart.items ==> l.quantity >= 0 && dishes[l.dishId].price >= 0
    requires forall o :: o in offers ==> ValidateDiscountPercentage(o.discountPercentage).Success?
    ensures var o := CheckoutOrder(cart, dishes, fees, offers, users, orders, userId, offerId, paymentMode, id);
            0 <= o.discountAmount <= ItemsTotal(o.items) && o.totalAmount >= o.deliveryFee + o.platformFee
  {
    var rid := cart.restaurantId.value;
    var items := Snapshot(cart.items, dishes);
    SnapshotItems(cart.items, dishes);
    forall i | 0 <= i < |items|
      ensures items[i].priceSnapshot >= 0 && items[i].quantity >= 0
    {
      assert cart.items[i] in cart.items;
    }
    ItemsTotalNonNegative(items);
    var amount := ItemsTotal(items);
    var applied := ApplyOffer(offers, users, orders, userId, rid, amount, offerId);
    if applied.0.Some? {
      assert applied.0.value in offers;
      DiscountWithinAmount(applied.0.value, amount);
    }
  }

  /** The example of a cart of two 100.00 dishes at the platform fees
      30.00/5.00: 235.00 with no offer, and 205.00 with a 15 % offer, whose
      discount is 30.00 of the 200.00 items total. */
  lemma CheckoutTotals()
    ensures CalculateOrderTotal(20000, CalculateDiscount(None, 20000), 3000, 500) == 23500
    ensures CalculateDiscount(Some(Offer(1, None, 1500, 0, false, true)), 20000) == 3000
    ensures CalculateOrderTotal(20000, 3000, 3000, 500) == 20500
  {
    assert Pow10(4) == 10000;
    RoundHalfEvenExact(3000, 10000);
  }

  /** The pricing loop of `create_order_from_cart`: one order item per cart
      line with the current price, and the running items total. Every dish
      has been found by validation, so the "dish not found" error of the
      loop cannot be raised. */
  method PriceCart(db: Db, cart: Cart) returns (items: seq<OrderItem>, itemsTotal: int)
    requires AllPriced(cart.items, db.dishes)
    ensures items == Snapshot(cart.items, db.dishes)
    ensures itemsTotal == ItemsTotal(items)
  {
    itemsTotal := 0;
    items := [];
    var i := 0;
    while i < |cart.items|
      invariant 0 <= i <= |cart.items|
      invariant AllPriced(cart.items[..i], db.dishes)
      invariant items == Snapshot(cart.items[..i], db.dishes)
      invariant itemsTotal == ItemsTotal(items)
    {
      var line := cart.items[i];
      assert cart.items[..i + 1] == cart.items[..i] + [line];
      assert line in cart.items;
      if line.dishId !in db.dishes {
        assert false;
      }
      var dish := db.dishes[line.dishId];
      var item := OrderItem(line.dishId, line.quantity, dish.price);
      SnapshotSnoc(cart.items[..i], line, db.dishes);
      ItemsTotalSnoc(items, item);
      itemsTotal := itemsTotal + dish.price * line.quantity;
      items := items + [item];
      i := i + 1;
    }
    assert cart.items[..i] == cart.items;
  }

  /** `create_order_from_cart` after validation: price the lines, resolve
      the fees and the offer, store the order with its items, clear the cart
      and send the order-placed notifications. */
  /** The order row as `create_order_from_cart` builds it before it is
      added: priced from the cart, with fees, discount and total. */
  method BuildOrder(db: Db, userId: Id, cart: Cart, offerId: Option<int>, paymentMode: PaymentMode)
    returns (order: Order)
    requires cart.restaurantId.Some? && AllPriced(cart.items, db.dishes)
    ensures order == CheckoutOrder(cart, db.dishes, db.fees, db.offers, db.users, db.orders,
                                   userId, offerId, paymentMode, 0)
  {
    var rid := cart.restaurantId.value;
    var items, itemsTotal := PriceCart(db, cart);
    var fee := GetFees(db.fees, rid);
    var applied := ApplyOffer(db.offers, db.users, db.orders, userId, rid, itemsTotal, offerId);
    var total := CalculateOrderTotal(itemsTotal, applied.1, fee.0, fee.1);
    order := Order(0, userId, rid, None, Placed, total, applied.1, fee.0, fee.1, paymentMode, items);
  }

  /** `db.add(order)`, then the order-placed notifications. The handler
      clears the cart between the two; that touches only the cart store, so
      it is done after both here. */
  method StoreOrder(db: Db, order: Order) returns (stored: Order)
    requires db.Valid() && order.restaurantId in db.restaurants
    modifies db`orders, db`nextOrderId, db`notifications
    ensures db.Valid()
    ensures stored == order.(id := old(db.nextOrderId))
    ensures stored.id !in old(db.orders) && db.orders == old(db.orders)[stored.id := stored]
    ensures db.nextOrderId == old(db.nextOrderId) + 1
    ensures db.notifications == old(db.notifications) + OrderPlacedRecords(stored, db.restaurants[order.restaurantId].ownerId)
  {
    stored := db.AddOrder(order);
    NotifyOrderPlaced(db, stored);
  }

  method PlaceOrder(db: Db, store: CartStore, userId: Id, cart: Cart, offerId: Option<int>, paymentMode: PaymentMode)
    returns (order: Order)
    requires db.Valid() && store.Valid()
    requires cart.restaurantId.Some? && cart.restaurantId.value in db.restaurants && AllPriced(cart.items, db.dishes)
    modifies db`orders, db`nextOrderId, db`notifications, store
    ensures db.Valid() && store.Valid()
    ensures order == CheckoutOrder(cart, old(db.dishes), old(db.fees), old(db.offers), old(db.users), old(db.orders),
                                   userId, offerId, paymentMode, old(db.nextOrderId))
    ensures order.id !in old(db.orders) && db.orders == old(db.orders)[order.id := order]
    ensures db.nextOrderId == old(db.nextOrderId) + 1
    ensures store.carts == if userId in old(store.carts) then old(store.carts)[userId := EmptyCart] else old(store.carts)
    ensures db.notifications == old(db.notifications) + OrderPlacedRecords(order, db.restaurants[cart.restaurantId.value].ownerId)
  {
    order := BuildOrder(db, userId, cart, offerId, paymentMode);
    assert order.(id := db.nextOrderId) == CheckoutOrder(cart, db.dishes, db.fees, db.offers, db.users, db.orders,
                                                         userId, offerId, paymentMode, db.nextOrderId);
    order := StoreOrder(db, order);
    store.ClearCart(userId);
  }

  /** `create_order_from_cart`. Nothing is written unless validation passes. */
  method CreateOrderFromCart(db: Db, store: CartStore, userId: Id, offerId: Option<int>, paymentMode: PaymentMode)
    returns (r: Result<Order>)
    requires db.Valid() && store.Valid()
    modifies db`orders, db`nextOrderId, db`notifications, store
    ensures db.Valid() && store.Valid()
    ensures var v := ValidateCart(old(store.Entry(userId)), db.dishes, db.restaurants);
            && (r.Success? <==> v.Success?)
            && (v.Failure? ==> r == Failure(v.error))
    ensures r.Failure? ==> unchanged(db) && store.carts == old(store.carts)
    ensures r.Success? ==>
              var c := old(store.Entry(userId)).value;
              && c.restaurantId.Some? && c.restaurantId.value in db.restaurants && AllPriced(c.items, old(db.dishes))
              && r.value == CheckoutOrder(c, old(db.dishes), old(db.fees), old(db.offers), old(db.users), old(db.orders),
                                          userId, offerId, paymentMode, old(db.nextOrderId))
              && r.value.id !in old(db.orders) && db.orders == old(db.orders)[r.value.id := r.value]
              && db.nextOrderId == old(db.nextOrderId) + 1
              && store.carts == old(store.carts)[userId := EmptyCart]
              && db.notifications == old(db.notifications)
                                     + OrderPlacedRecords(r.value, db.restaurants[c.restaurantId.value].ownerId)
  {
    ghost var entry := store.Entry(userId);
    var v := store.ValidateCartForCheckout(db, userId);
    if v.Failure? {
      return Failure(v.error);
    }
    ValidatedCartPriced(entry, db.dishes, db.restaurants);
    var order := PlaceOrder(db, store, userId, v.value, offerId, paymentMode);
    r := Success(order);
  }

  /** A cart that passes validation has every dish in the catalogue and a
      restaurant that exists. */
  lemma ValidatedCartPriced(entry: Option<Cart>, dishes: map<Id, Dish>, restaurants: map<Id, Restaurant>)
    requires ValidateCart(entry, dishes, restaurants).Success?
    ensures var c := ValidateCart(entry, dishes, restaurants).value;
            AllPriced(c.items, dishes) && c.restaurantId.Some? && c.restaurantId.value in restaurants
  {
    var c := ValidateCart(entry, dishes, restaurants).value;
    forall l | l in c.items ensures l.dishId in dishes {
      assert !Unavailable(dishes, l);
    }
  }

  /** Checkout fails exactly when cart validation fails, with the same error,
      and every successful checkout places an order from the validated cart. */
  lemma CheckoutFailsOnlyOnValidation(entry: Option<Cart>, dishes: map<Id, Dish>, restaurants: map<Id, Restaurant>)
    ensures ValidateCart(entry, dishes, restaurants).Success? ==>
              var c := ValidateCart(entry, dishes, restaurants).value;
              entry == Some(c) && c.items != [] && AllPriced(c.items, dishes) && Accepting(restaurants, c.restaurantId.value)
  {
    if ValidateCart(entry, dishes, restaurants).Success? {
      ValidatedCartPriced(entry, dishes, restaurants);
    }
  }

  // ---------------------------------------------------------------
  // Reorder
  // ---------------------------------------------------------------

  /** A line of the old order that reorder does not even try to add. */
  predicate Skipped(dishes: map<Id, Dish>, item: OrderItem)
  {
    item.dishId !in dishes || !dishes[item.dishId].available
  }

  /** The cart after re-adding `items` one by one to `entry`, skipping those
      whose dish is gone or unavailable and those `add_to_cart` rejects. */
  function Refill(entry: Option<Cart>, items: seq<OrderItem>, dishes: map<Id, Dish>,
                  restaurants: map<Id, Restaurant>): Option<Cart>
  {
    if items == [] then entry
    else
      var e := Refill(entry, items[..|items| - 1], dishes, restaurants);
      var item := items[|items| - 1];
      if Skipped(dishes, item) then e
      else
        var step := AddStep(e, dishes, restaurants, item.dishId, item.quantity);
        if step.Success? then Some(step.value) else e
  }

  lemma RefillSnoc(entry: Option<Cart>, items: seq<OrderItem>, item: OrderItem, dishes: map<Id, Dish>,
                   restaurants: map<Id, Restaurant>)
    ensures var e := Refill(entry, items, dishes, restaurants);
            var step := AddStep(e, dishes, restaurants, item.dishId, item.quantity);
            Refill(entry, items + [item], dishes, restaurants)
            == if Skipped(dishes, item) || step.Failure? then e else Some(step.value)
  {
    assert (items + [item])[..|items|] == items;
  }

  lemma UpdateKeepsOthers(carts: map<Id, Cart>, userId: Id, c: Cart)
    ensures carts[userId := c] - {userId} == carts - {userId}
  {
  }

  /** `clear_cart` followed by the re-adding. */
  function ReorderCart(entry: Option<Cart>, items: seq<OrderItem>, dishes: map<Id, Dish>,
                       restaurants: map<Id, Restaurant>): Option<Cart>
  {
    Refill(ClearStep(entry), items, dishes, restaurants)
  }

  predicate OnlyFrom(c: Option<Cart>, items: seq<OrderItem>)
  {
    c.Some? ==> forall l :: l in c.value.items ==> exists it :: it in items && it.dishId == l.dishId
  }

  /** Re-adding to an empty (or absent) cart yields a well-formed cart whose
      dishes all come from the old order. */
  lemma {:induction false} RefillOnlyOriginalDishes(entry: Option<Cart>, items: seq<OrderItem>,
                                                     dishes: map<Id, Dish>, restaurants: map<Id, Restaurant>)
    requires entry.Some? ==> entry.value == EmptyCart
    requires 0 !in restaurants
    ensures var c := Refill(entry, items, dishes, restaurants);
            OnlyFrom(c, items) && (c.Some? ==> WellFormed(c.value))
    decreases |items|
  {
    if items != [] {
      var init := items[..|items| - 1];
      var item := items[|items| - 1];
      RefillOnlyOriginalDishes(entry, init, dishes, restaurants);
      var e := Refill(entry, init, dishes, restaurants);
      assert forall it :: it in init ==> it in items;
      if !Skipped(dishes, item) {
        var step := AddStep(e, dishes, restaurants, item.dishId, item.quantity);
        if step.Success? {
          var c := step.value;
          var prev := if e.Some? then e.value.items else [];
          BumpEffect(prev, item.dishId, item.quantity);
          forall l | l in c.items
            ensures exists it :: it in items && it.dishId == l.dishId
          {
            if l.dishId != item.dishId {
              InCartIff(c.items, l.dishId);
              InCartIff(prev, l.dishId);
              var l0 :| l0 in prev && l0.dishId == l.dishId;
            }
          }
          InCartIff(c.items, item.dishId);
        }
      }
    }
  }

  /** When every quantity of the old order is positive, the item count of a
      refilled cart is zero exactly when nothing could be re-added. */
  lemma {:induction false} RefillCount(entry: Option<Cart>, items: seq<OrderItem>,
                                       dishes: map<Id, Dish>, restaurants: map<Id, Restaurant>)
    requires entry.Some? ==> entry.value == EmptyCart
    requires forall i :: 0 <= i < |items| ==> items[i].quantity > 0
    ensures var c := Refill(entry, items, dishes, restaurants);
            c.Some? ==> ItemCount(c.value.items) >= 0 && (ItemCount(c.value.items) == 0 <==> c.value.items == [])
    decreases |items|
  {
    if items != [] {
      var init := items[..|items| - 1];
      var item := items[|items| - 1];
      RefillCount(entry, init, dishes, restaurants);
      var e := Refill(entry, init, dishes, restaurants);
      if !Skipped(dishes, item) {
        var step := AddStep(e, dishes, restaurants, item.dishId, item.quantity);
        if step.Success? {
          var prev := if e.Some? then e.value.items else [];
          RefillOnlyWellFormed(entry, init, dishes, restaurants);
          ItemCountBump(prev, item.dishId, item.quantity);
          BumpEffect(prev, item.dishId, item.quantity);
        }
      }
    }
  }

  /** Re-adding keeps a well-formed cart bound to one restaurant: each
      successful add does, and a skipped or rejected line changes nothing. */
  lemma {:induction false} RefillKeepsCartBound(entry: Option<Cart>, items: seq<OrderItem>,
                                                dishes: map<Id, Dish>, restaurants: map<Id, Restaurant>)
    requires entry.Some? ==> WellFormed(entry.value) && BoundTo(entry.value, dishes)
    requires 0 !in restaurants
    ensures var c := Refill(entry, items, dishes, restaurants);
            c.Some? ==> WellFormed(c.value) && BoundTo(c.value, dishes)
    decreases |items|
  {
    if items != [] {
      var init := items[..|items| - 1];
      var item := items[|items| - 1];
      RefillKeepsCartBound(entry, init, dishes, restaurants);
      var e := Refill(entry, init, dishes, restaurants);
      if !Skipped(dishes, item) && AddStep(e, dishes, restaurants, item.dishId, item.quantity).Success? {
        AddKeepsCartBound(e, dishes, restaurants, item.dishId, item.quantity);
      }
    }
  }

  /** Whatever cart reorder starts from, the rebuilt cart is well formed and
      bound to one restaurant. */
  lemma ReorderKeepsCartBound(entry: Option<Cart>, items: seq<OrderItem>,
                              dishes: map<Id, Dish>, restaurants: map<Id, Restaurant>)
    requires 0 !in restaurants
    ensures var c := ReorderCart(entry, items, dishes, restaurants);
            c.Some? ==> WellFormed(c.value) && BoundTo(c.value, dishes)
  {
    RefillKeepsCartBound(ClearStep(entry), items, dishes, restaurants);
  }

  /** Refilling an empty cart keeps dishes distinct. */
  lemma {:induction false} RefillOnlyWellFormed(entry: Option<Cart>, items: seq<OrderItem>,
                                                dishes: map<Id, Dish>, restaurants: map<Id, Restaurant>)
    requires entry.Some? ==> entry.value == EmptyCart
    ensures var c := Refill(entry, items, dishes, restaurants);
            c.Some? ==> DistinctDishes(c.value.items)
    decreases |items|
  {
    if items != [] {
      var init := items[..|items| - 1];
      var item := items[|items| - 1];
      RefillOnlyWellFormed(entry, init, dishes, restaurants);
      var e := Refill(entry, init, dishes, restaurants);
      if !Skipped(dishes, item) {
        var prev := if e.Some? then e.value.items else [];
        BumpEffect(prev, item.dishId, item.quantity);
      }
    }
  }

  /** What a reorder leaves in the cart: only dishes of the old order, and —
      when every old quantity is positive — a view whose item count is zero
      exactly when nothing could be re-added, which is when reorder fails. */
  lemma ReorderOutcome(entry: Option<Cart>, items: seq<OrderItem>, dishes: map<Id, Dish>,
                       restaurants: map<Id, Restaurant>)
    requires 0 !in restaurants
    requires forall i :: 0 <= i < |items| ==> items[i].quantity > 0
    ensures var c := ReorderCart(entry, items, dishes, restaurants);
            && OnlyFrom(c, items)
            && (c.Some? ==> WellFormed(c.value))
            && (ViewOf(c, dishes, restaurants).itemCount == 0 <==> c.None? || c.value.items == [])
  {
    RefillOnlyOriginalDishes(ClearStep(entry), items, dishes, restaurants);
    RefillCount(ClearStep(entry), items, dishes, restaurants);
  }

  /** The loop of `reorder`: each old line whose dish still exists and is
      available is passed to `add_to_cart`, and a rejected add is skipped. */
  method ReAddItems(db: Db, store: CartStore, userId: Id, items: seq<OrderItem>)
    requires db.Valid() && store.Valid()
    modifies store
    ensures store.Valid()
    ensures store.Entry(userId) == Refill(old(store.Entry(userId)), items, db.dishes, db.restaurants)
    ensures store.carts - {userId} == old(store.carts) - {userId}
  {
    ghost var start := store.Entry(userId);
    var i := 0;
    while i < |items|
      invariant 0 <= i <= |items|
      invariant store.Valid()
      invariant store.Entry(userId) == Refill(start, items[..i], db.dishes, db.restaurants)
      invariant store.carts - {userId} == old(store.carts) - {userId}
    {
      var item := items[i];
      assert items[..i + 1] == items[..i] + [item];
      RefillSnoc(start, items[..i], item, db.dishes, db.restaurants);
      if item.dishId in db.dishes && db.dishes[item.dishId].available {
        ghost var before := store.carts;
        var added := store.AddToCart(db, userId, item.dishId, item.quantity);
        ghost var step := AddStep(if userId in before then Some(before[userId]) else None,
                                  db.dishes, db.restaurants, item.dishId, item.quantity);
        if step.Success? {
          UpdateKeepsOthers(before, userId, step.value);
        }
      }
      i := i + 1;
    }
    assert items[..i] == items;
  }

  /** `reorder`: only the caller's own order can be reordered. The cart is
      cleared first and the dishes re-added one by one; if nothing could be
      re-added the request fails and the cart stays cleared. */
  method Reorder(db: Db, store: CartStore, userId: Id, orderId: Id) returns (r: Result<CartView>)
    requires db.Valid() && store.Valid()
    modifies store
    ensures store.Valid()
    ensures !(orderId in db.orders && db.orders[orderId].customerId == userId) ==>
              r == Failure(NotFound(OrderNotFound)) && store.carts == old(store.carts)
    ensures orderId in db.orders && db.orders[orderId].customerId == userId ==>
              var c := ReorderCart(old(store.Entry(userId)), db.orders[orderId].items, db.dishes, db.restaurants);
              var view := ViewOf(c, db.dishes, db.restaurants);
              && store.Entry(userId) == c
              && store.carts - {userId} == old(store.carts) - {userId}
              && (view.itemCount == 0 ==> r == Failure(BadRequest(CouldNotRecreateOrder)))
              && (view.itemCount != 0 ==> r == Success(view))
  {
    if !(orderId in db.orders && db.orders[orderId].customerId == userId) {
      return Failure(NotFound(OrderNotFound));
    }
    var original := db.orders[orderId];
    store.ClearCart(userId);
    ReAddItems(db, store, userId, original.items);
    var view := store.GetCart(db, userId);
    if view.itemCount == 0 {
      return Failure(BadRequest(CouldNotRecreateOrder));
    }
    r := Success(view);
  }
}
