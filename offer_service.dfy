/** Offer eligibility, best-offer choice and the discount formula. The
    offers table is a sequence in query order. */
module OfferService {
  import opened Common
  import opened Domain
  import opened Money

  /** The keys of the user's orders whose status is not `cancelled`. */
  function NonCancelledOrders(orders: map<Id, Order>, userId: Id): set<Id>
  {
    set k | k in orders && orders[k].customerId == userId && orders[k].status != Cancelled
  }

  /** A first-time user is one whose count of non-cancelled orders is zero:
      they have no order other than cancelled ones. */
  function IsFirstTime(orders: map<Id, Order>, userId: Id): (b: bool)
    ensures b <==> forall k :: k in orders ==> orders[k].customerId != userId || orders[k].status == Cancelled
  {
    NoNonCancelledOrders(orders, userId);
    |NonCancelledOrders(orders, userId)| == 0
  }

  lemma NoNonCancelledOrders(orders: map<Id, Order>, userId: Id)
    ensures NonCancelledOrders(orders, userId) == {} <==>
              forall k :: k in orders ==> orders[k].customerId != userId || orders[k].status == Cancelled
  {
    var s := NonCancelledOrders(orders, userId);
    if forall k :: k in orders ==> orders[k].customerId != userId || orders[k].status == Cancelled {
      assert forall k :: k !in s;
      assert s == {};
    } else {
      var k :| k in orders && orders[k].customerId == userId && orders[k].status != Cancelled;
      assert k in s;
    }
  }

  /** The offer belongs to this restaurant or is platform-wide. */
  predicate InScope(o: Offer, restaurantId: Id)
  {
    o.restaurantId == Some(restaurantId) || o.restaurantId.None?
  }

  /** The four conditions of eligibility. */
  predicate Eligible(o: Offer, restaurantId: Id, amount: int, firstTime: bool)
  {
    && o.active
    && o.minOrderValue <= amount
    && InScope(o, restaurantId)
    && (!o.firstTimeUserOnly || firstTime)
  }

  /** The applicable offers, in query order: the SQL filter on active,
      minimum order value and scope, then the first-time-user rule. An
      unknown user has none. */
  function ApplicableOffers(offers: seq<Offer>, users: map<Id, User>, orders: map<Id, Order>,
                            userId: Id, restaurantId: Id, amount: int): (r: seq<Offer>)
    ensures userId !in users ==> r == []
    ensures userId in users ==>
              forall o :: o in r <==> o in offers && Eligible(o, restaurantId, amount, IsFirstTime(orders, userId))
  {
    if userId !in users then []
    else
      var firstTime := IsFirstTime(orders, userId);
      var queried := Filter(offers, (o: Offer) => o.active && o.minOrderValue <= amount && InScope(o, restaurantId));
      Filter(queried, (o: Offer) => !(o.firstTimeUserOnly && !firstTime))
  }

  /** The first offer of largest percentage: Python's `max(s, key=pct)`
      keeps the earliest of equal keys. */
  function MaxDiscountIndex(s: seq<Offer>): (i: nat)
    requires |s| > 0
    ensures i < |s|
    ensures forall j :: 0 <= j < |s| ==> s[j].discountPercentage <= s[i].discountPercentage
    ensures forall j :: 0 <= j < i ==> s[j].discountPercentage < s[i].discountPercentage
  {
    if |s| == 1 then 0
    else
      var k := 1 + MaxDiscountIndex(s[1..]);
      if s[0].discountPercentage >= s[k].discountPercentage then 0 else k
  }

  /** The scope the best offer is chosen from: the restaurant's own offers
      when one applies, else the platform-wide ones. */
  function ChosenScope(applicable: seq<Offer>, restaurantId: Id): Option<Id>
  {
    if exists o :: o in applicable && o.restaurantId == Some(restaurantId) then Some(restaurantId) else None
  }

  /** The `k`-th offer of `t` sits at a position of `s` before which every
      offer of the scope is already earlier in `t`. */
  predicate PlacedInQueryOrder(t: seq<Offer>, s: seq<Offer>, scope: Option<Id>, k: nat)
    requires k < |t|
  {
    exists i :: 0 <= i < |s| && s[i] == t[k]
                && forall j :: 0 <= j < i && s[j].restaurantId == scope ==> s[j] in t[..k]
  }

  /** `t` lists the offers of `s` with this scope in the order of `s`. */
  predicate KeepsQueryOrder(t: seq<Offer>, s: seq<Offer>, scope: Option<Id>)
  {
    forall k :: 0 <= k < |t| ==> PlacedInQueryOrder(t, s, scope, k)
  }

  /** A list comprehension on the scope keeps the query order. */
  lemma ScopedInQueryOrder(s: seq<Offer>, p: Offer -> bool, scope: Option<Id>)
    requires forall o :: p(o) <==> o.restaurantId == scope
    ensures KeepsQueryOrder(Filter(s, p), s, scope)
  {
    var t := Filter(s, p);
    forall k | 0 <= k < |t|
      ensures PlacedInQueryOrder(t, s, scope, k)
    {
      FilterKeepsOrder(s, p, k);
      var i :| 0 <= i < |s| && s[i] == t[k] && Filter(s[..i], p) == t[..k];
      forall j | 0 <= j < i && s[j].restaurantId == scope
        ensures s[j] in t[..k]
      {
        assert s[j] in s[..i];
      }
    }
  }

  /** The tier the best offer is chosen from: the restaurant's own
      applicable offers when there is one, else the platform-wide ones,
      each in query order. */
  function Tier(applicable: seq<Offer>, restaurantId: Id): (t: seq<Offer>)
    ensures forall o :: o in t <==> o in applicable && o.restaurantId == ChosenScope(applicable, restaurantId)
    ensures KeepsQueryOrder(t, applicable, ChosenScope(applicable, restaurantId))
    ensures (exists o :: o in applicable && o.restaurantId == Some(restaurantId)) ==>
              t != [] && forall o :: o in t ==> o.restaurantId == Some(restaurantId)
    ensures (forall o :: o in applicable ==> InScope(o, restaurantId)) && applicable != [] ==> t != []
  {
    var isOwn := (o: Offer) => o.restaurantId == Some(restaurantId);
    var isPlatform := (o: Offer) => o.restaurantId.None?;
    var own := Filter(applicable, isOwn);
    var platform := Filter(applicable, isPlatform);
    assert (exists o :: o in applicable && o.restaurantId == Some(restaurantId)) <==> own != [] by {
      if o :| o in applicable && o.restaurantId == Some(restaurantId) {
        assert o in own;
      }
      if own != [] {
        assert own[0] in own;
      }
    }
    assert applicable != [] && InScope(applicable[0], restaurantId) ==> own != [] || platform != [] by {
      if applicable != [] && InScope(applicable[0], restaurantId) {
        assert applicable[0] in applicable;
        assert applicable[0] in own || applicable[0] in platform;
      }
    }
    ScopedInQueryOrder(applicable, isOwn, Some(restaurantId));
    ScopedInQueryOrder(applicable, isPlatform, None);
    if own != [] then own else platform
  }

  /** The best offer: the first of largest percentage in the tier. */
  function BestOffer(offers: seq<Offer>, users: map<Id, User>, orders: map<Id, Order>,
                     userId: Id, restaurantId: Id, amount: int): (r: Option<Offer>)
    ensures r.Some? ==> r.value in ApplicableOffers(offers, users, orders, userId, restaurantId, amount)
    ensures r.Some? ==>
              r.value.restaurantId == ChosenScope(ApplicableOffers(offers, users, orders, userId, restaurantId, amount), restaurantId)
    ensures r.Some? ==>
              forall o :: (o in ApplicableOffers(offers, users, orders, userId, restaurantId, amount)
                           && o.restaurantId == r.value.restaurantId) ==> o.discountPercentage <= r.value.discountPercentage
  {
    var app := ApplicableOffers(offers, users, orders, userId, restaurantId, amount);
    var t := Tier(app, restaurantId);
    if t == [] then None
    else
      var i := MaxDiscountIndex(t);
      assert t[i] in t;
      assert forall o :: o in app && o.restaurantId == t[i].restaurantId ==> o.discountPercentage <= t[i].discountPercentage by {
        forall o | o in app && o.restaurantId == t[i].restaurantId
          ensures o.discountPercentage <= t[i].discountPercentage
        {
          assert o in t;
          var j :| 0 <= j < |t| && t[j] == o;
        }
      }
      Some(t[i])
  }

  /** None exactly when nothing applies; a restaurant offer whenever one
      applies, whatever the platform percentages. */
  lemma BestOfferTiers(offers: seq<Offer>, users: map<Id, User>, orders: map<Id, Order>,
                       userId: Id, restaurantId: Id, amount: int)
    ensures var app := ApplicableOffers(offers, users, orders, userId, restaurantId, amount);
            var r := BestOffer(offers, users, orders, userId, restaurantId, amount);
            && (r.None? <==> app == [])
            && ((exists o :: o in app && o.restaurantId == Some(restaurantId)) ==>
                  r.Some? && r.value.restaurantId == Some(restaurantId))
  {
    var app := ApplicableOffers(offers, users, orders, userId, restaurantId, amount);
    if app != [] {
      assert app[0] in app;
      assert userId in users;
      assert forall o :: o in app ==> InScope(o, restaurantId);
    }
    var t := Tier(app, restaurantId);
    if t != [] {
      var i := MaxDiscountIndex(t);
      assert t[i] in t;
    }
  }

  /** The first maximum of the tier is, among the offers of `applicable`
      with its scope, one of largest percentage, and every one before it in
      query order has a smaller one. */
  predicate FirstMaximumOfScope(applicable: seq<Offer>, r: Offer)
  {
    exists i :: 0 <= i < |applicable| && applicable[i] == r
                && (forall j :: 0 <= j < |applicable| && applicable[j].restaurantId == r.restaurantId ==>
                      applicable[j].discountPercentage <= r.discountPercentage)
                && (forall j :: 0 <= j < i && applicable[j].restaurantId == r.restaurantId ==>
                      applicable[j].discountPercentage < r.discountPercentage)
  }

  /** The first maximum of any list of the scope's offers in query order. */
  lemma FirstMaximumInQueryOrder(applicable: seq<Offer>, t: seq<Offer>, scope: Option<Id>)
    requires t != []
    requires forall o :: o in t <==> o in applicable && o.restaurantId == scope
    requires KeepsQueryOrder(t, applicable, scope)
    ensures FirstMaximumOfScope(applicable, t[MaxDiscountIndex(t)])
  {
    var k := MaxDiscountIndex(t);
    var r := t[k];
    assert r in t;
    assert PlacedInQueryOrder(t, applicable, scope, k);
    var i :| 0 <= i < |applicable| && applicable[i] == t[k]
             && forall j :: 0 <= j < i && applicable[j].restaurantId == scope ==> applicable[j] in t[..k];
    forall j | 0 <= j < i && applicable[j].restaurantId == r.restaurantId
      ensures applicable[j].discountPercentage < r.discountPercentage
    {
      var m :| 0 <= m < k && t[..k][m] == applicable[j];
      assert t[m] == applicable[j];
    }
    forall j | 0 <= j < |applicable| && applicable[j].restaurantId == r.restaurantId
      ensures applicable[j].discountPercentage <= r.discountPercentage
    {
      assert applicable[j] in t;
      var m :| 0 <= m < |t| && t[m] == applicable[j];
    }
  }

  /** Python's `max` over the tier's list comprehension: among the
      applicable offers of the chosen scope the result has the largest
      percentage, and every one before it in query order a smaller one. */
  lemma BestOfferIsFirstMaximum(offers: seq<Offer>, users: map<Id, User>, orders: map<Id, Order>,
                                userId: Id, restaurantId: Id, amount: int)
    ensures var r := BestOffer(offers, users, orders, userId, restaurantId, amount);
            r.Some? ==> FirstMaximumOfScope(ApplicableOffers(offers, users, orders, userId, restaurantId, amount), r.value)
  {
    var app := ApplicableOffers(offers, users, orders, userId, restaurantId, amount);
    var t := Tier(app, restaurantId);
    if t != [] {
      FirstMaximumInQueryOrder(app, t, ChosenScope(app, restaurantId));
    }
  }

  /** A restaurant offer of 10 % is chosen over a platform offer of 20 %. */
  lemma RestaurantOfferBeatsPlatformOffer(u: User)
    ensures var offers := [Offer(1, None, 2000, 0, false, true), Offer(2, Some(7), 1000, 0, false, true)];
            BestOffer(offers, map[5 := u], map[], 5, 7, 20000) == Some(offers[1])
  {
    var offers := [Offer(1, None, 2000, 0, false, true), Offer(2, Some(7), 1000, 0, false, true)];
    var app := ApplicableOffers(offers, map[5 := u], map[], 5, 7, 20000);
    assert IsFirstTime(map[], 5);
    assert offers[1] in app;
    BestOfferTiers(offers, map[5 := u], map[], 5, 7, 20000);
  }

  /** A first-time-only offer is applicable to a user whose only orders are
      cancelled, and not to one with a placed order. */
  lemma FirstTimeOfferScenario(u: User, o: Order)
    requires o.customerId == 5
    ensures var offer := Offer(1, None, 1000, 0, true, true);
            && offer in ApplicableOffers([offer], map[5 := u], map[1 := o.(status := Cancelled)], 5, 7, 100)
            && offer !in ApplicableOffers([offer], map[5 := u], map[1 := o.(status := Placed)], 5, 7, 100)
  {
    assert !IsFirstTime(map[1 := o.(status := Placed)], 5) by {
      assert 1 in map[1 := o.(status := Placed)];
    }
  }

  /** `round(amount * pct / 100, 2)`: the product of a cent amount and a
      percentage in hundredths is a decimal with six places. The exact
      discount is `amount * pct / 10000` cents; the result is the nearest
      whole cent, ties going to the even one. */
  function CalculateDiscount(offer: Option<Offer>, amount: int): (d: int)
    ensures offer.None? ==> d == 0
    ensures offer.Some? ==> -10000 <= 2 * (amount * offer.value.discountPercentage - 10000 * d) <= 10000
    ensures offer.Some? ==>
              var twiceGap := 2 * (amount * offer.value.discountPercentage - 10000 * d);
              (twiceGap == 10000 || twiceGap == -10000) ==> d % 2 == 0
  {
    if offer.None? then 0
    else
      assert Pow10(4) == 10000;
      RoundCents(amount * offer.value.discountPercentage, 6)
  }

  /** With a percentage in [0, 100] % the discount never exceeds the amount
      it is taken from, and is never negative. */
  lemma DiscountWithinAmount(offer: Offer, amount: int)
    requires 0 <= offer.discountPercentage <= 10000
    requires amount >= 0
    ensures 0 <= CalculateDiscount(Some(offer), amount) <= amount
  {
    assert Pow10(4) == 10000;
    MulMonotone(amount, offer.discountPercentage, 10000);
    MulMonotone(amount, 0, offer.discountPercentage);
    RoundHalfEvenBetween(amount * offer.discountPercentage, 10000, 0, amount);
  }

  /** Half a cent is rounded to the even neighbour: 50 % of 0.01 is 0.00,
      50 % of 0.03 is 0.02, and 15 % of 200.00 is exactly 30.00. */
  lemma DiscountRoundsHalfEven(offer: Offer)
    requires offer.discountPercentage == 5000
    ensures CalculateDiscount(Some(offer), 1) == 0
    ensures CalculateDiscount(Some(offer), 3) == 2
    ensures CalculateDiscount(Some(offer.(discountPercentage := 1500)), 20000) == 3000
  {
    assert Pow10(4) == 10000;
    RoundHalfEvenUnique(5000, 10000, 0);
    RoundHalfEvenUnique(15000, 10000, 2);
    RoundHalfEvenExact(3000, 10000);
  }

  /** The first offer row with this key. */
  function FindOffer(offers: seq<Offer>, offerId: Id): (r: Option<Offer>)
    ensures r.Some? ==> r.value in offers && r.value.id == offerId
    ensures r.None? ==> forall o :: o in offers ==> o.id != offerId
  {
    var k := FirstIndex(offers, (o: Offer) => o.id == offerId);
    if k < |offers| then Some(offers[k]) else None
  }

  /** `apply_offer`: an explicit (truthy) offer id is used only when that
      offer exists, is active and is applicable here, and otherwise silently
      gives no offer; without one the best offer is used. Either way the
      discount is the one `calculate_discount` gives for the returned offer. */
  function ApplyOffer(offers: seq<Offer>, users: map<Id, User>, orders: map<Id, Order>,
                      userId: Id, restaurantId: Id, amount: int, offerId: Option<int>): (r: (Option<Offer>, int))
    ensures r.1 == CalculateDiscount(r.0, amount)
    ensures r.0.Some? ==> r.0.value in ApplicableOffers(offers, users, orders, userId, restaurantId, amount)
    ensures Truthy(offerId) ==>
              (r.0.Some? <==> FindOffer(offers, offerId.value).Some? && FindOffer(offers, offerId.value).value.active
                              && FindOffer(offers, offerId.value).value in ApplicableOffers(offers, users, orders, userId, restaurantId, amount))
    ensures Truthy(offerId) && r.0.Some? ==> r.0 == FindOffer(offers, offerId.value)
    ensures !Truthy(offerId) ==> r.0 == BestOffer(offers, users, orders, userId, restaurantId, amount)
  {
    if Truthy(offerId) then
      var found := FindOffer(offers, offerId.value);
      if found.None? || !found.value.active then (None, 0)
      else if found.value !in ApplicableOffers(offers, users, orders, userId, restaurantId, amount) then (None, 0)
      else (found, CalculateDiscount(found, amount))
    else
      var best := BestOffer(offers, users, orders, userId, restaurantId, amount);
      (best, CalculateDiscount(best, amount))
  }
}
