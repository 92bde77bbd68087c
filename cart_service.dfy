/** The in-memory cart store: one cart per customer, bound to at most one
    restaurant. A cart's items are kept as an association list in insertion
    order (the order a Python `dict` iterates in), so the cart view and the
    "first dish no longer available" are determined. */
module CartService {
  import opened Common
  import opened Domain
  import opened Database

  /** One entry `dish_id: quantity` of a cart's `items`. */
  datatype Line = Line(dishId: Id, quantity: int)

  /** `{"restaurant_id": ..., "items": {...}}`. */
  datatype Cart = Cart(restaurantId: Option<Id>, items: seq<Line>)

  const EmptyCart: Cart := Cart(None, [])

  /** No dish appears on two lines: the items are a dictionary. */
  predicate DistinctDishes(items: seq<Line>)
  {
    forall i, j :: 0 <= i < j < |items| ==> items[i].dishId != items[j].dishId
  }

  /** The shape every stored cart keeps: distinct dishes, and a restaurant
      exactly when there are items, which is a stored (hence non-zero) key. */
  predicate WellFormed(c: Cart)
  {
    && DistinctDishes(c.items)
    && (c.restaurantId.None? <==> c.items == [])
    && c.restaurantId != Some(0)
  }

  /** Every line whose dish is still in the catalogue belongs to the bound
      restaurant. */
  predicate BoundTo(c: Cart, dishes: map<Id, Dish>)
  {
    c.items != [] ==>
      c.restaurantId.Some? &&
      forall l :: l in c.items && l.dishId in dishes ==> dishes[l.dishId].restaurantId == c.restaurantId.value
  }

  /** Position of the dish's line, or `|items|` when it has none. */
  function IndexOf(items: seq<Line>, dishId: Id): (k: nat)
    ensures k <= |items|
    ensures forall j :: 0 <= j < k ==> items[j].dishId != dishId
    ensures k < |items| ==> items[k].dishId == dishId
  {
    FirstIndex(items, (l: Line) => l.dishId == dishId)
  }

  /** `dish_id in cart["items"]`. */
  predicate InCart(items: seq<Line>, dishId: Id)
  {
    IndexOf(items, dishId) < |items|
  }

  /** The stored quantity of a dish, 0 for a dish that is not in the cart. */
  function QuantityOf(items: seq<Line>, dishId: Id): int
  {
    var k := IndexOf(items, dishId);
    if k < |items| then items[k].quantity else 0
  }

  lemma InCartIff(items: seq<Line>, dishId: Id)
    ensures InCart(items, dishId) <==> exists l :: l in items && l.dishId == dishId
  {
    if l :| l in items && l.dishId == dishId {
      var j :| 0 <= j < |items| && items[j] == l;
      assert IndexOf(items, dishId) <= j;
    }
  }

  /** Add `quantity` to the dish's line, or append a new line for it. */
  function Bump(items: seq<Line>, dishId: Id, quantity: int): seq<Line>
  {
    var k := IndexOf(items, dishId);
    if k < |items| then items[k := Line(dishId, items[k].quantity + quantity)]
    else items + [Line(dishId, quantity)]
  }

  /** `del cart["items"][dish_id]`: drop the dish's line, keeping the order
      of the others. */
  function Delete(items: seq<Line>, dishId: Id): seq<Line>
  {
    var k := IndexOf(items, dishId);
    if k < |items| then items[..k] + items[k + 1..] else items
  }

  lemma IndexOfUnique(items: seq<Line>, dishId: Id, k: nat)
    requires k <= |items|
    requires forall j :: 0 <= j < k ==> items[j].dishId != dishId
    requires k < |items| ==> items[k].dishId == dishId
    ensures IndexOf(items, dishId) == k
  {
  }

  /** Bumping one dish leaves every other dish where it was. */
  lemma BumpKeeps(items: seq<Line>, dishId: Id, quantity: int, d: Id)
    requires d != dishId
    ensures var r := Bump(items, dishId, quantity);
            (InCart(r, d) <==> InCart(items, d)) && QuantityOf(r, d) == QuantityOf(items, d)
  {
    var k := IndexOf(items, dishId);
    var r := Bump(items, dishId, quantity);
    var m := IndexOf(items, d);
    if k < |items| {
      assert m != k;
      IndexOfUnique(r, d, m);
    } else if m == |items| {
      IndexOfUnique(r, d, |r|);
    } else {
      IndexOfUnique(r, d, m);
    }
  }

  /** Bumping keeps the dishes distinct and puts the dish in the cart. */
  lemma BumpShape(items: seq<Line>, dishId: Id, quantity: int)
    requires DistinctDishes(items)
    ensures var r := Bump(items, dishId, quantity);
            && DistinctDishes(r)
            && IndexOf(r, dishId) == IndexOf(items, dishId)
            && r[IndexOf(items, dishId)] == Line(dishId, QuantityOf(items, dishId) + quantity)
  {
    var k := IndexOf(items, dishId);
    var r := Bump(items, dishId, quantity);
    IndexOfUnique(r, dishId, k);
    if k == |items| {
      forall i, j | 0 <= i < j < |r|
        ensures r[i].dishId != r[j].dishId
      {
        if j == |items| {
          assert r[i] == items[i];
        }
      }
    }
  }

  /** Adding accumulates exactly the requested amount on the dish and
      changes no other dish; the dish is in the cart afterwards; the
      dishes stay distinct; an existing line keeps its position. */
  lemma BumpEffect(items: seq<Line>, dishId: Id, quantity: int)
    requires DistinctDishes(items)
    ensures var r := Bump(items, dishId, quantity);
            && DistinctDishes(r)
            && InCart(r, dishId)
            && QuantityOf(r, dishId) == QuantityOf(items, dishId) + quantity
            && (forall d :: d != dishId ==> (InCart(r, d) <==> InCart(items, d)) && QuantityOf(r, d) == QuantityOf(items, d))
            && (InCart(items, dishId) ==> |r| == |items|)
            && (!InCart(items, dishId) ==> r == items + [Line(dishId, quantity)])
  {
    BumpShape(items, dishId, quantity);
    forall d | d != dishId
      ensures var r := Bump(items, dishId, quantity);
              (InCart(r, d) <==> InCart(items, d)) && QuantityOf(r, d) == QuantityOf(items, d)
    {
      BumpKeeps(items, dishId, quantity, d);
    }
  }

  /** Where the lines of a sequence with position `k` cut out come from. */
  lemma DropAt(items: seq<Line>, k: nat)
    requires k < |items|
    ensures var r := items[..k] + items[k + 1..];
            && |r| == |items| - 1
            && (forall i :: 0 <= i < k ==> r[i] == items[i])
            && (forall i :: k <= i < |r| ==> r[i] == items[i + 1])
  {
  }

  /** Where the lines of a deletion come from. */
  lemma DeleteShape(items: seq<Line>, dishId: Id)
    requires InCart(items, dishId)
    ensures var k, r := IndexOf(items, dishId), Delete(items, dishId);
            && |r| == |items| - 1
            && (forall i :: 0 <= i < k ==> r[i] == items[i])
            && (forall i :: k <= i < |r| ==> r[i] == items[i + 1])
  {
    DropAt(items, IndexOf(items, dishId));
  }

  /** Deleting one dish leaves every other dish's quantity. */
  lemma DeleteKeeps(items: seq<Line>, dishId: Id, d: Id)
    requires InCart(items, dishId) && d != dishId
    ensures var r := Delete(items, dishId);
            (InCart(r, d) <==> InCart(items, d)) && QuantityOf(r, d) == QuantityOf(items, d)
  {
    var k := IndexOf(items, dishId);
    var r := Delete(items, dishId);
    DeleteShape(items, dishId);
    var m := IndexOf(items, d);
    if m < k {
      IndexOfUnique(r, d, m);
    } else {
      assert m != k;
      IndexOfUnique(r, d, m - 1);
    }
  }

  /** Removing deletes exactly the dish's line: it is no longer in the cart,
      every other dish keeps its quantity, and the remaining lines keep their
      order. */
  lemma DeleteEffect(items: seq<Line>, dishId: Id)
    requires DistinctDishes(items) && InCart(items, dishId)
    ensures var r := Delete(items, dishId);
            && DistinctDishes(r)
            && !InCart(r, dishId)
            && |r| == |items| - 1
            && (forall d :: d != dishId ==> (InCart(r, d) <==> InCart(items, d)) && QuantityOf(r, d) == QuantityOf(items, d))
  {
    var k := IndexOf(items, dishId);
    var r := Delete(items, dishId);
    DeleteShape(items, dishId);
    forall i, j | 0 <= i < j < |r|
      ensures r[i].dishId != r[j].dishId
    {
      if i < k && j >= k { assert r[j] == items[j + 1]; }
    }
    IndexOfUnique(r, dishId, |r|);
    forall d | d != dishId
      ensures (InCart(r, d) <==> InCart(items, d)) && QuantityOf(r, d) == QuantityOf(items, d)
    {
      DeleteKeeps(items, dishId, d);
    }
  }

  // ---------------------------------------------------------------
  // The cart view
  // ---------------------------------------------------------------

  datatype ItemView = ItemView(dishId: Id, dishName: string, price: int, quantity: int, subtotal: int)

  datatype CartView = CartView(
    restaurantId: Option<Id>,
    restaurantName: Option<string>,
    items: seq<ItemView>,
    subtotal: int,
    itemCount: int)

  const EmptyView: CartView := CartView(None, None, [], 0, 0)

  function LineView(l: Line, d: Dish): ItemView
  {
    ItemView(l.dishId, d.name, d.price, l.quantity, d.price * l.quantity)
  }

  /** One view per line whose dish is still in the catalogue, in cart order;
      lines of vanished dishes are skipped. */
  function ItemViews(items: seq<Line>, dishes: map<Id, Dish>): (r: seq<ItemView>)
    ensures |r| <= |items|
  {
    if items == [] then []
    else
      var init, last := items[..|items| - 1], items[|items| - 1];
      ItemViews(init, dishes) + (if last.dishId in dishes then [LineView(last, dishes[last.dishId])] else [])
  }

  /** Every view prices a cart line whose dish exists, at the dish's current
      price and name, and every such line has its view. */
  lemma {:induction false} ItemViewsPriced(items: seq<Line>, dishes: map<Id, Dish>)
    ensures var r := ItemViews(items, dishes);
            && (forall v :: v in r ==>
                  && v.dishId in dishes
                  && Line(v.dishId, v.quantity) in items
                  && v.price == dishes[v.dishId].price
                  && v.dishName == dishes[v.dishId].name
                  && v.subtotal == v.price * v.quantity)
            && (forall l :: l in items && l.dishId in dishes ==> LineView(l, dishes[l.dishId]) in r)
    decreases |items|
  {
    if items != [] {
      var init, last := items[..|items| - 1], items[|items| - 1];
      assert items == init + [last];
      ItemViewsPriced(init, dishes);
    }
  }

  function Subtotal(views: seq<ItemView>): int
  {
    if views == [] then 0 else Subtotal(views[..|views| - 1]) + views[|views| - 1].subtotal
  }

  lemma ItemViewsSnoc(items: seq<Line>, l: Line, dishes: map<Id, Dish>)
    ensures ItemViews(items + [l], dishes)
            == ItemViews(items, dishes) + (if l.dishId in dishes then [LineView(l, dishes[l.dishId])] else [])
  {
    assert (items + [l])[..|items|] == items;
  }

  lemma SubtotalSnoc(views: seq<ItemView>, v: ItemView)
    ensures Subtotal(views + [v]) == Subtotal(views) + v.subtotal
  {
    assert (views + [v])[..|views|] == views;
  }

  /** `sum(items.values())`: every stored quantity, priced or not. */
  function ItemCount(items: seq<Line>): int
  {
    if items == [] then 0 else ItemCount(items[..|items| - 1]) + items[|items| - 1].quantity
  }

  /** What `get_cart` answers for a stored entry. */
  function ViewOf(entry: Option<Cart>, dishes: map<Id, Dish>, restaurants: map<Id, Restaurant>): CartView
  {
    if entry.None? || entry.value.items == [] then EmptyView
    else
      var c := entry.value;
      var name := if Truthy(c.restaurantId) && c.restaurantId.value in restaurants
                  then Some(restaurants[c.restaurantId.value].name) else None;
      var views := ItemViews(c.items, dishes);
      CartView(c.restaurantId, name, views, Subtotal(views), ItemCount(c.items))
  }

  /** The empty view is given exactly for a missing or item-less cart, and
      otherwise the view reports the cart's restaurant and prices only the
      lines whose dish still exists. */
  lemma ViewOfCases(entry: Option<Cart>, dishes: map<Id, Dish>, restaurants: map<Id, Restaurant>)
    requires entry.Some? ==> WellFormed(entry.value)
    ensures var v := ViewOf(entry, dishes, restaurants);
            && (v == EmptyView <==> entry.None? || entry.value.items == [])
            && (entry.Some? && entry.value.items != [] ==>
                  && v.restaurantId == entry.value.restaurantId
                  && v.itemCount == ItemCount(entry.value.items)
                  && v.subtotal == Subtotal(v.items)
                  && (forall l :: l in entry.value.items && l.dishId in dishes ==> LineView(l, dishes[l.dishId]) in v.items))
  {
    if entry.Some? {
      ItemViewsPriced(entry.value.items, dishes);
    }
  }

  /** Item counts add up across concatenation. */
  lemma {:induction false} ItemCountAppend(a: seq<Line>, b: seq<Line>)
    ensures ItemCount(a + b) == ItemCount(a) + ItemCount(b)
    decreases |b|
  {
    if b != [] {
      var b' := b[..|b| - 1];
      assert (a + b)[..|a + b| - 1] == a + b';
      assert (a + b)[|a + b| - 1] == b[|b| - 1];
      ItemCountAppend(a, b');
      assert ItemCount(a + b) == ItemCount(a + b') + b[|b| - 1].quantity;
    } else {
      assert a + b == a;
    }
  }

  /** Changing one line's quantity by `delta` changes the count by `delta`. */
  lemma ItemCountUpdate(items: seq<Line>, k: nat, l: Line)
    requires k < |items|
    ensures ItemCount(items[k := l]) == ItemCount(items) - items[k].quantity + l.quantity
  {
    assert items == items[..k] + [items[k]] + items[k + 1..];
    assert items[k := l] == items[..k] + [l] + items[k + 1..];
    ItemCountAppend(items[..k] + [items[k]], items[k + 1..]);
    ItemCountAppend(items[..k], [items[k]]);
    ItemCountAppend(items[..k] + [l], items[k + 1..]);
    ItemCountAppend(items[..k], [l]);
  }

  /** Adding `quantity` of a dish raises the cart's item count by exactly `quantity`. */
  lemma ItemCountBump(items: seq<Line>, dishId: Id, quantity: int)
    ensures ItemCount(Bump(items, dishId, quantity)) == ItemCount(items) + quantity
  {
    var k := IndexOf(items, dishId);
    if k < |items| {
      ItemCountUpdate(items, k, Line(dishId, items[k].quantity + quantity));
    } else {
      ItemCountAppend(items, [Line(dishId, quantity)]);
    }
  }

  // ---------------------------------------------------------------
  // The operations, as functions of the stored entry
  // ---------------------------------------------------------------

  /** The catalogue checks of `add_to_cart`, in their order, then the
      single-restaurant rule, then the accumulation. */
  function AddStep(entry: Option<Cart>, dishes: map<Id, Dish>, restaurants: map<Id, Restaurant>,
                   dishId: Id, quantity: int): (r: Result<Cart>)
    ensures dishId !in dishes ==> r == Failure(NotFound(DishNotFound))
    ensures dishId in dishes && !dishes[dishId].available ==> r == Failure(BadRequest(DishNotAvailable))
    ensures dishId in dishes && dishes[dishId].available && !Accepting(restaurants, dishes[dishId].restaurantId) ==>
              r == Failure(BadRequest(RestaurantNotAcceptingOrders))
    ensures r.Failure? && dishId in dishes && dishes[dishId].available && Accepting(restaurants, dishes[dishId].restaurantId) ==>
              entry.Some? && Truthy(entry.value.restaurantId)
              && r == Failure(BadRequest(CartConflict(entry.value.restaurantId.value)))
    ensures r.Success? <==>
              && dishId in dishes && dishes[dishId].available
              && Accepting(restaurants, dishes[dishId].restaurantId)
              && !(entry.Some? && Truthy(entry.value.restaurantId)
                   && entry.value.restaurantId.value != dishes[dishId].restaurantId)
    ensures r.Success? ==> r.value.restaurantId == Some(dishes[dishId].restaurantId)
    ensures r.Success? ==> r.value.items == Bump(if entry.Some? then entry.value.items else [], dishId, quantity)
  {
    if dishId !in dishes then Failure(NotFound(DishNotFound))
    else
      var dish := dishes[dishId];
      if !dish.available then Failure(BadRequest(DishNotAvailable))
      else if !Accepting(restaurants, dish.restaurantId) then Failure(BadRequest(RestaurantNotAcceptingOrders))
      else
        var cart := if entry.Some? then entry.value else Cart(Some(dish.restaurantId), []);
        if Truthy(cart.restaurantId) && cart.restaurantId.value != dish.restaurantId then
          Failure(BadRequest(CartConflict(cart.restaurantId.value)))
        else
          Success(Cart(Some(dish.restaurantId), Bump(cart.items, dishId, quantity)))
  }

  /** The restaurant exists, is `active` and has ordering enabled. */
  predicate Accepting(restaurants: map<Id, Restaurant>, restaurantId: Id)
  {
    restaurantId in restaurants && restaurants[restaurantId].status == Active
    && restaurants[restaurantId].orderingEnabled
  }

  /** A successful add keeps the cart well formed and bound to one
      restaurant, given that the cart was before and that no restaurant has
      the (falsy) key 0. */
  lemma AddKeepsCartBound(entry: Option<Cart>, dishes: map<Id, Dish>, restaurants: map<Id, Restaurant>,
                          dishId: Id, quantity: int)
    requires entry.Some? ==> WellFormed(entry.value) && BoundTo(entry.value, dishes)
    requires 0 !in restaurants
    requires AddStep(entry, dishes, restaurants, dishId, quantity).Success?
    ensures var c := AddStep(entry, dishes, restaurants, dishId, quantity).value;
            WellFormed(c) && BoundTo(c, dishes)
  {
    var old_items := if entry.Some? then entry.value.items else [];
    var c := AddStep(entry, dishes, restaurants, dishId, quantity).value;
    var rid := dishes[dishId].restaurantId;
    BumpEffect(old_items, dishId, quantity);
    if old_items != [] {
      assert entry.value.restaurantId.Some? && Truthy(entry.value.restaurantId);
      assert entry.value.restaurantId.value == rid;
    }
    forall l | l in c.items && l.dishId in dishes
      ensures dishes[l.dishId].restaurantId == rid
    {
      if l.dishId != dishId {
        InCartIff(c.items, l.dishId);
        InCartIff(old_items, l.dishId);
        var l0 :| l0 in old_items && l0.dishId == l.dishId;
        assert old_items != [];
      }
    }
    assert c.items != [] by { InCartIff(c.items, dishId); }
  }

  /** Adding a dish already in the cart increases its quantity by exactly the
      requested amount; no other dish changes and the restaurant stays. */
  lemma AddAccumulates(c: Cart, dishes: map<Id, Dish>, restaurants: map<Id, Restaurant>,
                       dishId: Id, quantity: int)
    requires WellFormed(c)
    requires AddStep(Some(c), dishes, restaurants, dishId, quantity).Success?
    ensures var c' := AddStep(Some(c), dishes, restaurants, dishId, quantity).value;
            && QuantityOf(c'.items, dishId) == QuantityOf(c.items, dishId) + quantity
            && (forall d :: d != dishId ==>
                  (InCart(c'.items, d) <==> InCart(c.items, d)) && QuantityOf(c'.items, d) == QuantityOf(c.items, d))
            && (c.restaurantId.Some? && c.restaurantId.value != 0 ==> c'.restaurantId == c.restaurantId)
            && ItemCount(c'.items) == ItemCount(c.items) + quantity
  {
    BumpEffect(c.items, dishId, quantity);
    ItemCountBump(c.items, dishId, quantity);
  }

  /** `remove_from_cart`: a missing cart, then a missing item, are 404s;
      otherwise the line goes, and the restaurant binding with the last one. */
  function RemoveStep(entry: Option<Cart>, dishId: Id): (r: Result<Cart>)
    ensures entry.None? ==> r == Failure(NotFound(CartIsEmpty))
    ensures entry.Some? && !InCart(entry.value.items, dishId) ==> r == Failure(NotFound(ItemNotInCart))
    ensures r.Success? <==> entry.Some? && InCart(entry.value.items, dishId)
    ensures r.Success? ==> r.value.items == Delete(entry.value.items, dishId)
    ensures r.Success? ==> r.value.restaurantId == if r.value.items == [] then None else entry.value.restaurantId
  {
    if entry.None? then Failure(NotFound(CartIsEmpty))
    else if !InCart(entry.value.items, dishId) then Failure(NotFound(ItemNotInCart))
    else
      var items := Delete(entry.value.items, dishId);
      Success(Cart(if items == [] then None else entry.value.restaurantId, items))
  }

  /** A removal leaves a well-formed cart without that dish, every other
      dish as it was, and no restaurant exactly when no items remain. */
  lemma RemoveEffect(c: Cart, dishId: Id)
    requires WellFormed(c)
    requires RemoveStep(Some(c), dishId).Success?
    ensures var c' := RemoveStep(Some(c), dishId).value;
            && WellFormed(c')
            && !InCart(c'.items, dishId)
            && (forall d :: d != dishId ==>
                  (InCart(c'.items, d) <==> InCart(c.items, d)) && QuantityOf(c'.items, d) == QuantityOf(c.items, d))
            && (c'.restaurantId.None? <==> |c.items| == 1)
            && ItemCount(c'.items) == ItemCount(c.items) - QuantityOf(c.items, dishId)
  {
    DeleteEffect(c.items, dishId);
    var k := IndexOf(c.items, dishId);
    assert c.items == c.items[..k] + [c.items[k]] + c.items[k + 1..];
    ItemCountAppend(c.items[..k] + [c.items[k]], c.items[k + 1..]);
    ItemCountAppend(c.items[..k], [c.items[k]]);
    ItemCountAppend(c.items[..k], c.items[k + 1..]);
  }

  /** A removal keeps the cart well formed and bound to its restaurant: every
      remaining line was a line before. */
  lemma RemoveKeepsCartBound(c: Cart, dishes: map<Id, Dish>, dishId: Id)
    requires WellFormed(c) && BoundTo(c, dishes)
    requires RemoveStep(Some(c), dishId).Success?
    ensures var c' := RemoveStep(Some(c), dishId).value;
            WellFormed(c') && BoundTo(c', dishes)
  {
    RemoveEffect(c, dishId);
    var c' := RemoveStep(Some(c), dishId).value;
    var k := IndexOf(c.items, dishId);
    DeleteShape(c.items, dishId);
    forall l | l in c'.items
      ensures l in c.items
    {
      var i :| 0 <= i < |c'.items| && c'.items[i] == l;
      if i < k {
        assert c.items[i] == l;
      } else {
        assert c.items[i + 1] == l;
      }
    }
  }

  /** `clear_cart`: an existing entry becomes the empty cart; no entry stays
      absent. */
  function ClearStep(entry: Option<Cart>): (r: Option<Cart>)
    ensures r.None? <==> entry.None?
    ensures r.Some? ==> r.value == EmptyCart && WellFormed(r.value)
  {
    if entry.Some? then Some(EmptyCart) else None
  }

  /** Clearing twice is clearing once, and a cleared cart has nothing to remove. */
  lemma ClearIdempotent(entry: Option<Cart>, dishId: Id)
    ensures ClearStep(ClearStep(entry)) == ClearStep(entry)
    ensures entry.Some? ==> RemoveStep(ClearStep(entry), dishId) == Failure(NotFound(ItemNotInCart))
  {
  }

  /** A line whose dish is gone or unavailable. */
  predicate Unavailable(dishes: map<Id, Dish>, l: Line)
  {
    l.dishId !in dishes || !dishes[l.dishId].available
  }

  /** The position of the first line that cannot be ordered, or `|items|`. */
  function FirstUnavailable(items: seq<Line>, dishes: map<Id, Dish>): (k: nat)
    ensures k <= |items|
    ensures forall j :: 0 <= j < k ==> !Unavailable(dishes, items[j])
    ensures k < |items| ==> Unavailable(dishes, items[k])
  {
    FirstIndex(items, (l: Line) => Unavailable(dishes, l))
  }

  /** `validate_cart_for_checkout`: the six checks in their order; success
      hands back the stored cart itself. */
  function ValidateCart(entry: Option<Cart>, dishes: map<Id, Dish>, restaurants: map<Id, Restaurant>): (r: Result<Cart>)
    ensures r.Success? <==>
              && entry.Some? && entry.value.items != []
              && Truthy(entry.value.restaurantId)
              && Accepting(restaurants, entry.value.restaurantId.value)
              && forall l :: l in entry.value.items ==> !Unavailable(dishes, l)
    ensures r.Success? ==> r.value == entry.value
    ensures entry.None? || entry.value.items == [] ==> r == Failure(BadRequest(CartIsEmpty))
    ensures entry.Some? && entry.value.items != [] && !Truthy(entry.value.restaurantId) ==>
              r == Failure(BadRequest(InvalidCartState))
    ensures entry.Some? && entry.value.items != [] && Truthy(entry.value.restaurantId) ==>
              var rid := entry.value.restaurantId.value;
              && (rid !in restaurants ==> r == Failure(NotFound(RestaurantNotFound)))
              && (rid in restaurants && restaurants[rid].status != Active ==> r == Failure(BadRequest(RestaurantInactive)))
              && (rid in restaurants && restaurants[rid].status == Active && !restaurants[rid].orderingEnabled ==>
                    r == Failure(BadRequest(RestaurantNotAcceptingOrders)))
              && (Accepting(restaurants, rid) && r.Failure? ==>
                    var k := FirstUnavailable(entry.value.items, dishes);
                    k < |entry.value.items| && r == Failure(BadRequest(DishNoLongerAvailable(entry.value.items[k].dishId))))
  {
    if entry.None? || entry.value.items == [] then Failure(BadRequest(CartIsEmpty))
    else
      var c := entry.value;
      if !Truthy(c.restaurantId) then Failure(BadRequest(InvalidCartState))
      else
        var rid := c.restaurantId.value;
        if rid !in restaurants then Failure(NotFound(RestaurantNotFound))
        else if restaurants[rid].status != Active then Failure(BadRequest(RestaurantInactive))
        else if !restaurants[rid].orderingEnabled then Failure(BadRequest(RestaurantNotAcceptingOrders))
        else
          var k := FirstUnavailable(c.items, dishes);
          if k < |c.items| then Failure(BadRequest(DishNoLongerAvailable(c.items[k].dishId)))
          else
            assert forall l :: l in c.items ==> !Unavailable(dishes, l) by {
              forall l | l in c.items ensures !Unavailable(dishes, l) {
                var j :| 0 <= j < |c.items| && c.items[j] == l;
              }
            }
            Success(c)
  }

  // ---------------------------------------------------------------
  // The store
  // ---------------------------------------------------------------

  predicate AllWellFormed(carts: map<Id, Cart>)
  {
    forall u :: u in carts ==> WellFormed(carts[u])
  }

  /** Storing a well-formed cart keeps the whole store well formed. */
  lemma StoreKeepsWellFormed(carts: map<Id, Cart>, userId: Id, c: Cart)
    requires AllWellFormed(carts) && WellFormed(c)
    ensures AllWellFormed(carts[userId := c])
  {
  }

  /** `cart_storage`, keyed by customer. */
  class CartStore {
    var carts: map<Id, Cart>

    ghost predicate Valid()
      reads this
    {
      AllWellFormed(carts)
    }

    constructor ()
      ensures Valid() && carts == map[]
    {
      carts := map[];
    }

    function Entry(userId: Id): (e: Option<Cart>)
      reads this
      ensures e.Some? <==> userId in carts
      ensures e.Some? ==> e.value == carts[userId]
    {
      if userId in carts then Some(carts[userId]) else None
    }

    /** `get_cart`: the priced lines and their subtotal are accumulated line
        by line. */
    method GetCart(db: Db, userId: Id) returns (v: CartView)
      ensures v == ViewOf(Entry(userId), db.dishes, db.restaurants)
    {
      if userId !in carts || carts[userId].items == [] {
        return EmptyView;
      }
      var c := carts[userId];
      var name: Option<string> := None;
      if Truthy(c.restaurantId) && c.restaurantId.value in db.restaurants {
        name := Some(db.restaurants[c.restaurantId.value].name);
      }
      var views: seq<ItemView> := [];
      var subtotal := 0;
      var i := 0;
      while i < |c.items|
        invariant 0 <= i <= |c.items|
        invariant views == ItemViews(c.items[..i], db.dishes)
        invariant subtotal == Subtotal(views)
      {
        var l := c.items[i];
        assert c.items[..i + 1] == c.items[..i] + [l];
        ItemViewsSnoc(c.items[..i], l, db.dishes);
        if l.dishId in db.dishes {
          var view := LineView(l, db.dishes[l.dishId]);
          SubtotalSnoc(views, view);
          views := views + [view];
          subtotal := subtotal + view.subtotal;
        }
        i := i + 1;
      }
      assert c.items[..i] == c.items;
      v := CartView(c.restaurantId, name, views, subtotal, ItemCount(c.items));
    }

    /** The checks and the accumulation of `add_to_cart`, in the handler's
        order, on the caller's entry; nothing is stored yet. */
    method AddedCart(db: Db, userId: Id, dishId: Id, quantity: int) returns (r: Result<Cart>)
      ensures r == AddStep(Entry(userId), db.dishes, db.restaurants, dishId, quantity)
    {
      if dishId !in db.dishes {
        return Failure(NotFound(DishNotFound));
      }
      var dish := db.dishes[dishId];
      if !dish.available {
        return Failure(BadRequest(DishNotAvailable));
      }
      var rid := dish.restaurantId;
      if rid !in db.restaurants || db.restaurants[rid].status != Active || !db.restaurants[rid].orderingEnabled {
        return Failure(BadRequest(RestaurantNotAcceptingOrders));
      }
      // A new entry starts bound to the dish's restaurant; it is stored with the line below.
      var cart := if userId in carts then carts[userId] else Cart(Some(rid), []);
      if Truthy(cart.restaurantId) && cart.restaurantId.value != rid {
        return Failure(BadRequest(CartConflict(cart.restaurantId.value)));
      }
      if !Truthy(cart.restaurantId) {
        cart := cart.(restaurantId := Some(rid));
      }
      ghost var items0 := cart.items;
      if InCart(cart.items, dishId) {
        var k := IndexOf(cart.items, dishId);
        cart := cart.(items := cart.items[k := Line(dishId, cart.items[k].quantity + quantity)]);
      } else {
        cart := cart.(items := cart.items + [Line(dishId, quantity)]);
      }
      assert cart.items == Bump(items0, dishId, quantity);
      r := Success(cart);
    }

    /** `add_to_cart`; on success it answers the new cart view. */
    method AddToCart(db: Db, userId: Id, dishId: Id, quantity: int) returns (r: Result<CartView>)
      requires Valid() && db.Valid()
      modifies this
      ensures Valid()
      ensures var step := AddStep(old(Entry(userId)), db.dishes, db.restaurants, dishId, quantity);
              && carts == (if step.Success? then old(carts)[userId := step.value] else old(carts))
              && (r.Success? <==> step.Success?)
              && (step.Failure? ==> r == Failure(step.error))
              && (r.Success? ==> r.value == ViewOf(Some(step.value), db.dishes, db.restaurants))
    {
      var step := AddedCart(db, userId, dishId, quantity);
      if step.Failure? {
        return Failure(step.error);
      }
      var cart := step.value;
      assert WellFormed(cart) by {
        BumpEffect(if userId in carts then carts[userId].items else [], dishId, quantity);
      }
      StoreKeepsWellFormed(carts, userId, cart);
      carts := carts[userId := cart];
      var view := GetCart(db, userId);
      r := Success(view);
    }

    /** `remove_from_cart`; on success it answers the new cart view. */
    method RemoveFromCart(db: Db, userId: Id, dishId: Id) returns (r: Result<CartView>)
      requires Valid()
      modifies this
      ensures Valid()
      ensures var step := RemoveStep(old(Entry(userId)), dishId);
              && carts == (if step.Success? then old(carts)[userId := step.value] else old(carts))
              && (step.Failure? ==> r == Failure(step.error))
              && (step.Success? ==> r == Success(ViewOf(Some(step.value), db.dishes, db.restaurants)))
    {
      if userId !in carts {
        return Failure(NotFound(CartIsEmpty));
      }
      var cart := carts[userId];
      if !InCart(cart.items, dishId) {
        return Failure(NotFound(ItemNotInCart));
      }
      DeleteEffect(cart.items, dishId);
      cart := cart.(items := Delete(cart.items, dishId));
      if cart.items == [] {
        cart := cart.(restaurantId := None);
      }
      carts := carts[userId := cart];
      var view := GetCart(db, userId);
      r := Success(view);
    }

    /** `clear_cart`. */
    method ClearCart(userId: Id)
      requires Valid()
      modifies this
      ensures Valid()
      ensures Entry(userId) == ClearStep(old(Entry(userId)))
      ensures forall u :: u != userId ==> (u in carts <==> u in old(carts)) && (u in carts ==> carts[u] == old(carts[u]))
      ensures carts == if userId in old(carts) then old(carts)[userId := EmptyCart] else old(carts)
    {
      if userId in carts {
        carts := carts[userId := EmptyCart];
      }
    }

    /** `validate_cart_for_checkout`: the dishes are checked one by one in
        cart order and the first that cannot be ordered is named. */
    method ValidateCartForCheckout(db: Db, userId: Id) returns (r: Result<Cart>)
      ensures r == ValidateCart(Entry(userId), db.dishes, db.restaurants)
    {
      if userId !in carts || carts[userId].items == [] {
        return Failure(BadRequest(CartIsEmpty));
      }
      var cart := carts[userId];
      if !Truthy(cart.restaurantId) {
        return Failure(BadRequest(InvalidCartState));
      }
      var rid := cart.restaurantId.value;
      if rid !in db.restaurants {
        return Failure(NotFound(RestaurantNotFound));
      }
      if db.restaurants[rid].status != Active {
        return Failure(BadRequest(RestaurantInactive));
      }
      if !db.restaurants[rid].orderingEnabled {
        return Failure(BadRequest(RestaurantNotAcceptingOrders));
      }
      var i := 0;
      while i < |cart.items|
        invariant 0 <= i <= |cart.items|
        invariant forall j :: 0 <= j < i ==> !Unavailable(db.dishes, cart.items[j])
      {
        var dishId := cart.items[i].dishId;
        if dishId !in db.dishes || !db.dishes[dishId].available {
          assert FirstUnavailable(cart.items, db.dishes) == i by {
            FirstUnavailableUnique(cart.items, db.dishes, i);
          }
          return Failure(BadRequest(DishNoLongerAvailable(dishId)));
        }
        i := i + 1;
      }
      FirstUnavailableUnique(cart.items, db.dishes, i);
      r := Success(cart);
    }
  }

  lemma FirstUnavailableUnique(items: seq<Line>, dishes: map<Id, Dish>, k: nat)
    requires k <= |items|
    requires forall j :: 0 <= j < k ==> !Unavailable(dishes, items[j])
    requires k < |items| ==> Unavailable(dishes, items[k])
    ensures FirstUnavailable(items, dishes) == k
  {
  }
}
