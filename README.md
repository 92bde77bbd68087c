# Food-delivery order fulfilment, modelled in Dafny

This project models the order-fulfilment engine of a FastAPI food-delivery
service. It covers:

- the per-customer cart, bound to one restaurant;
- the offer resolver (eligibility, the two-tier best offer, the half-even discount);
- fee lookup, totals, checkout and reorder;
- the order status machine shared by restaurant owners, delivery partners and customers;
- delivery-partner assignment and release;
- the notification log;
- complaint resolution;
- the admin panel's field validators.

The database is one class, `Database.Db`, whose tables are maps keyed by
auto-increment ids or sequences kept in query order. `.first()` is the first match.
The module-level cart dictionary is the class `CartService.CartStore`.
Every handler that changes state is a method on these objects. It is proved
against a pure step function (`AddStep`, `DeliveryStep`, `ResolveStep`, …), and the
lemmas state the source's promises about those functions.

Modelling conventions:

- Money is integer cents. A percentage is in hundredths of a percent (`15.00` is `1500`).
- `round(x, 2)` is half-to-even rounding (`Money.RoundHalfEven`).
- Python truthiness of an id is `Common.Truthy`: both `None` and `0` are false.
- An `HTTPException` is a `Failure` carrying `NotFound`, `BadRequest` or `Forbidden`, plus a structured detail.
- A request that raises commits nothing to the database, and its method leaves the database unchanged.
  The in-memory cart store is the one exception: `reorder` clears the cart before its last check,
  so its 400 leaves the cart cleared or partly rebuilt (`OrderService.Reorder`).
- The caller's id, and the clock reading that `resolve_complaint` stores, are parameters.

Points where the model records a reading of the code:

- The currency sign in the order-placed message is the three characters U+00E2 U+201A U+00B9, which is what the source file reads as: a mis-encoded rupee sign.
  The model writes exactly those three characters, and `Text.CentsToString` renders the amount after them.
- A cart's items are an ordered sequence of `(dish, quantity)` lines, not a map.
  A Python `dict` iterates in insertion order, so the order is kept. It decides which dish
  a failed checkout names and the order of the order items.
- `get_owner_restaurant` queries without an ordering. When an owner has several
  restaurants, `OwnerRouter.GetOwnerRestaurant` picks any one of them, and its callers'
  contracts hold for whichever one is picked.
- `update_delivery_status` sets the claimed partner's record to unavailable before the
  remaining checks. No check after a claim can fail, and a refused request is never
  committed, so the model applies the change only on success.
- `update_dish` accepts any price, because `DishUpdate` has no bound on it. Only
  `create_dish` requires a positive price.
- `DeliveryRouter.ForeignPartnerMovesAssignedOrder` records that any partner can take a
  `preparing` order assigned to someone else out for delivery. The assignment is kept.
- `CustomerRouter.CancelOrder` emits no notification, as the code does.
- `assign_delivery_partner` is modelled, though no request handler calls it.

## Model

| member | source | states |
|---|---|---|
| Money.RoundHalfEven | fastapi_core_service/app/services/offer_service.py:84 | the quotient rounded to nearest, off by at most half the divisor, a tie only on an even result (the `ROUND_HALF_EVEN` rounding of `round(Decimal, 2)`) |
| Money.RoundHalfEvenUnique | fastapi_core_service/app/services/offer_service.py:84 | exactly one integer meets that definition, so the rounding is determined |
| Money.RoundHalfEvenBetween | fastapi_core_service/app/services/offer_service.py:83-84 | rounding keeps any integer bounds of the exact quotient |
| Money.RoundCentsOfCents | fastapi_core_service/app/services/order_service.py:41 | `round(total, 2)` of an amount already in cents is the amount itself |
| Text.NatToStringRoundTrip | fastapi_core_service/app/utils/notifications.py:46 | the decimal rendering of an id in a message reads back as that id |
| Text.CentsToString | fastapi_core_service/app/utils/notifications.py:46 | `str()` of a two-place amount: digits, a point, then exactly two digits, with a leading `-` iff negative |
| Text.CentsToStringRoundTrip | fastapi_core_service/app/utils/notifications.py:46 | the rendered total reads back as the amount: whole units before the point, cents after it, the sign in front |
| Text.Upper | fastapi_core_service/app/utils/notifications.py:75 | `str.upper()` maps each ASCII letter to its capital and keeps the length |
| StatusMachine.OwnerTransition | fastapi_core_service/app/routers/restaurant_owner.py:171-181 | succeeds iff `placed` to `preparing`; a non-`placed` order is refused before the target is looked at |
| StatusMachine.PartnerTransition | fastapi_core_service/app/routers/delivery.py:98-113 | succeeds iff `preparing`→`out_for_delivery` or `out_for_delivery`→`delivered`; "cannot update from" for other current states, "invalid transition" for a wrong target |
| StatusMachine.CancelTransition | fastapi_core_service/app/routers/customer.py:157-163 | succeeds iff the order is exactly `placed`, giving `cancelled` |
| StatusMachine.TerminalStatesAreFinal | fastapi_core_service/app/routers/delivery.py:98-101 | no role moves an order out of `delivered` or `cancelled`, and none moves one back to `placed` |
| Database.Db.AddOrder | fastapi_core_service/app/services/order_service.py:100-101 | the order is stored under a fresh key it also carries; no other order changes |
| Database.Db.AddDish | fastapi_core_service/app/routers/restaurant_owner.py:55-57 | the dish is stored under a fresh key; no other dish changes |
| Database.Db.PutOrder | fastapi_core_service/app/routers/restaurant_owner.py:183-184 | the changed order row is written back under its key and no other order changes (also the writes at customer.py:163 and delivery.py:116) |
| Database.Db.AddComplaint | fastapi_core_service/app/routers/customer.py:211-213 | the complaint is stored under a fresh key; no other complaint changes |
| Notifications.SendNotification | fastapi_core_service/app/utils/notifications.py:12-35 | appends exactly one row with the given user, order, type and message; earlier rows stay |
| Notifications.OrderPlacedRecords | fastapi_core_service/app/utils/notifications.py:38-56 | two rows in order: `ORDER_PLACED_CUSTOMER` to the customer, then `ORDER_PLACED_RESTAURANT` to the owner |
| Notifications.NotifyOrderPlaced | fastapi_core_service/app/utils/notifications.py:38-56 | the log grows by exactly those two rows |
| Notifications.StatusMessage | fastapi_core_service/app/utils/notifications.py:61-68 | the generic "Order status updated to <status>" fallback is used exactly for the status the table lacks, `placed` |
| Notifications.StatusChangeRecords | fastapi_core_service/app/utils/notifications.py:59-87 | one row `ORDER_STATUS_<STATUS>` to the customer with the table message; a second `ORDER_ASSIGNED_DELIVERY` row to the partner iff the new status is `out_for_delivery` with a truthy partner id |
| Notifications.StatusKindNames | fastapi_core_service/app/utils/notifications.py:75 | the type names for the four statuses the table covers |
| Notifications.NotifyOrderStatusChange | fastapi_core_service/app/utils/notifications.py:59-87 | the log grows by exactly those rows; the old status has no influence |
| Notifications.ComplaintResolvedRecord | fastapi_core_service/app/utils/notifications.py:92-98 | the row goes to the complaint's customer, about its order, with type `COMPLAINT_RESOLVED` |
| Notifications.NotifyComplaintResolved | fastapi_core_service/app/utils/notifications.py:90-98 | the log grows by one `COMPLAINT_RESOLVED` row to the complaint's customer for its order |
| AdminValidators.ValidateOwner | django_auth_service/admin_panel/serializers.py:20-24 | accepts iff the role is exactly `Restaurant Owner`, returning the owner unchanged |
| AdminValidators.ValidateDiscountPercentage | django_auth_service/admin_panel/serializers.py:37-41 | accepts iff 0 ≤ pct ≤ 100 %, both ends included, returning the value unchanged |
| AdminValidators.ValidateFee | django_auth_service/admin_panel/serializers.py:54-60 | accepts iff neither submitted fee is negative (absent counts as 0); the delivery fee is reported first |
| OfferService.IsFirstTime | fastapi_core_service/app/services/offer_service.py:24-28 | true iff the user has no order whose status is not `cancelled` |
| OfferService.NoNonCancelledOrders | fastapi_core_service/app/services/offer_service.py:24-28 | the set of non-cancelled orders is empty iff every order of the user is cancelled |
| OfferService.ApplicableOffers | fastapi_core_service/app/services/offer_service.py:10-44 | an unknown user gets none; otherwise an offer is listed iff active, minimum met, in scope, and not first-time-only unless the user is first-time |
| OfferService.MaxDiscountIndex | fastapi_core_service/app/services/offer_service.py:68 | the first position of the largest percentage, as Python `max` picks it |
| Common.FilterKeepsOrder | fastapi_core_service/app/services/offer_service.py:63-64 | the k-th kept element sits at a position of the input before which exactly the first k kept elements occur |
| OfferService.ScopedInQueryOrder | fastapi_core_service/app/services/offer_service.py:63-64 | a list comprehension on one scope lists that scope's offers in query order |
| OfferService.Tier | fastapi_core_service/app/services/offer_service.py:63-71 | exactly the applicable offers of the chosen scope (the restaurant's when one applies, else platform-wide), in query order |
| OfferService.BestOffer | fastapi_core_service/app/services/offer_service.py:47-73 | a chosen offer is applicable, of the chosen scope, and no applicable offer of that scope has a larger percentage |
| OfferService.BestOfferTiers | fastapi_core_service/app/services/offer_service.py:59-68 | none iff nothing applies; restaurant-scoped whenever a restaurant offer applies, whatever the platform percentages |
| OfferService.FirstMaximumInQueryOrder | fastapi_core_service/app/services/offer_service.py:68-71 | the first maximum of a scope's offers in query order is, among the applicable offers of that scope, of largest percentage, with every earlier one smaller |
| OfferService.BestOfferIsFirstMaximum | fastapi_core_service/app/services/offer_service.py:56-71 | the result sits at a position of the applicable offers; no applicable offer of its scope has a larger percentage, and every one before it a smaller one |
| OfferService.RestaurantOfferBeatsPlatformOffer | fastapi_core_service/app/services/offer_service.py:63-68 | a 10 % restaurant offer is chosen over a 20 % platform offer |
| OfferService.FirstTimeOfferScenario | fastapi_core_service/app/services/offer_service.py:40-42 | a first-time-only offer applies when the user's only order is cancelled and not when it is placed |
| OfferService.CalculateDiscount | fastapi_core_service/app/services/offer_service.py:74-84 | 0 without an offer; otherwise the whole cent nearest to amount × pct / 100, ties to the even cent |
| OfferService.DiscountWithinAmount | fastapi_core_service/app/services/offer_service.py:76-84 | with a percentage in [0, 100] % and a non-negative amount, 0 ≤ discount ≤ amount |
| OfferService.DiscountRoundsHalfEven | fastapi_core_service/app/services/offer_service.py:83-84 | 50 % of 0.01 is 0.00 and of 0.03 is 0.02 (ties to even); 15 % of 200.00 is 30.00 |
| OfferService.FindOffer | fastapi_core_service/app/services/offer_service.py:100 | the offer with that id, or none when no offer has it |
| OfferService.ApplyOffer | fastapi_core_service/app/services/offer_service.py:87-112 | a truthy id yields that offer only if found, active and applicable, else no offer; no id yields the best offer; the discount is always that of the returned offer |
| CartService.IndexOf | fastapi_core_service/app/services/cart_service.py:109 | the first line of the dish, or the end when there is none |
| CartService.InCartIff | fastapi_core_service/app/services/cart_service.py:109 | a dish is in the cart iff some line carries it |
| CartService.BumpEffect | fastapi_core_service/app/services/cart_service.py:109-112 | the dish's quantity grows by exactly the amount, every other dish is unchanged, a new dish is appended at the end, and dishes stay distinct |
| CartService.DeleteEffect | fastapi_core_service/app/services/cart_service.py:134 | the dish's line goes and every other dish keeps its quantity |
| CartService.ItemViewsPriced | fastapi_core_service/app/services/cart_service.py:42-52 | every view prices a line of the cart at its dish's current price and name, and every line whose dish still exists has its view |
| CartService.ViewOfCases | fastapi_core_service/app/services/cart_service.py:16-61 | the empty view iff no entry or no items; otherwise the cart's restaurant, the count of all stored quantities, and a subtotal over the dishes that still exist |
| CartService.ItemCountAppend | fastapi_core_service/app/services/cart_service.py:60 | the item count adds up over concatenation |
| CartService.ItemCountBump | fastapi_core_service/app/services/cart_service.py:110-112 | adding k of a dish raises the item count by exactly k |
| CartService.AddStep | fastapi_core_service/app/services/cart_service.py:64-112 | the error order dish missing, unavailable, restaurant not accepting, other restaurant R (naming R); success iff none applies, bound to the dish's restaurant |
| CartService.AddKeepsCartBound | fastapi_core_service/app/services/cart_service.py:92-106 | after an add every dish in the cart belongs to the bound restaurant and the cart stays well formed |
| CartService.AddAccumulates | fastapi_core_service/app/services/cart_service.py:109-112 | adding a present dish increases exactly its quantity; other dishes and the binding stay |
| CartService.RemoveStep | fastapi_core_service/app/services/cart_service.py:117-140 | no entry, then dish not in cart, are 404s; otherwise only that line goes and the binding clears with the last line |
| CartService.RemoveKeepsCartBound | fastapi_core_service/app/services/cart_service.py:117-140 | a removal keeps a well-formed cart well formed and bound to its restaurant |
| CartService.RemoveEffect | fastapi_core_service/app/services/cart_service.py:133-138 | the result is well formed, lacks the dish, keeps every other dish, and is unbound iff it was the last line |
| CartService.ClearStep | fastapi_core_service/app/services/cart_service.py:143-146 | an existing entry becomes the empty unbound cart; a missing entry stays missing |
| CartService.ClearIdempotent | fastapi_core_service/app/services/cart_service.py:143-146 | clearing twice is clearing once, and a cleared cart has nothing to remove |
| CartService.FirstUnavailable | fastapi_core_service/app/services/cart_service.py:190-196 | the first line whose dish is missing or unavailable |
| CartService.ValidateCart | fastapi_core_service/app/services/cart_service.py:149-198 | the six checks in their order, each with its error; success iff all pass, returning the stored cart |
| CartService.StoreKeepsWellFormed | fastapi_core_service/app/services/cart_service.py:13 | storing a well-formed cart keeps every cart in the store well formed |
| CartService.CartStore.GetCart | fastapi_core_service/app/services/cart_service.py:16-61 | the loop builds exactly the specified view of the stored entry |
| CartService.CartStore.AddToCart | fastapi_core_service/app/services/cart_service.py:64-114 | the store changes iff the add succeeds, then only the caller's entry, to the added cart; the view of the new cart is returned |
| CartService.CartStore.AddedCart | fastapi_core_service/app/services/cart_service.py:64-112 | the handler's checks and accumulation give exactly the specified add step, before anything is stored |
| CartService.CartStore.RemoveFromCart | fastapi_core_service/app/services/cart_service.py:117-140 | the store changes iff the removal succeeds, then only the caller's entry |
| CartService.CartStore.ClearCart | fastapi_core_service/app/services/cart_service.py:143-146 | only the caller's existing entry is reset |
| CartService.CartStore.ValidateCartForCheckout | fastapi_core_service/app/services/cart_service.py:149-198 | the loop over the dishes gives exactly the specified verdict |
| CartService.FirstUnavailableUnique | fastapi_core_service/app/services/cart_service.py:190-196 | the first failing line is determined by its characterisation |
| OrderService.FeeRow | fastapi_core_service/app/services/order_service.py:20 | the first fee row with the given scope |
| OrderService.GetFees | fastapi_core_service/app/services/order_service.py:14-30 | the restaurant's own row if any, else the platform row if any, else 30.00 / 5.00 |
| OrderService.ScopedRowFound | fastapi_core_service/app/services/order_service.py:20-24 | a row is found iff one with that scope exists |
| OrderService.FeesNonNegative | fastapi_core_service/app/services/order_service.py:30 | fees that passed the admin fee validator give non-negative order fees |
| OrderService.SeededFees | fastapi_core_service/app/services/order_service.py:14-30 | with the seeded rows restaurant 1 pays 25.00 / 5.00 and any other 30.00 / 5.00; no rows give the default |
| OrderService.CalculateOrderTotal | fastapi_core_service/app/services/order_service.py:33-41 | items − discount + delivery + platform, the rounding being the identity on cents |
| OrderService.SnapshotItems | fastapi_core_service/app/services/order_service.py:60-75 | one order item per cart line, with its dish and quantity and the dish's current price |
| OrderService.ItemsTotalNonNegative | fastapi_core_service/app/services/order_service.py:68-69 | non-negative prices and quantities give a non-negative items total |
| OrderService.CheckoutOrder | fastapi_core_service/app/services/order_service.py:44-98 | the new order is `placed`, unassigned, for the cart's restaurant, with the snapshot items, the looked-up fees, the offer discount on the items total only, and the total formula |
| OrderService.TotalCoversFees | fastapi_core_service/app/services/order_service.py:78-86 | the discount lies between 0 and the items total, so the total is at least the fees |
| OrderService.CheckoutTotals | fastapi_core_service/app/services/order_service.py:86 | 200.00 of items with fees 30/5 and no offer totals 235.00; with a 15 % offer 205.00 |
| OrderService.PriceCart | fastapi_core_service/app/services/order_service.py:60-75 | the loop yields the snapshot items and their total |
| OrderService.BuildOrder | fastapi_core_service/app/services/order_service.py:57-98 | the order row built before it is added (no key yet) is the specified checkout order |
| OrderService.StoreOrder | fastapi_core_service/app/services/order_service.py:100-118 | the order is stored under a fresh key and the two order-placed rows appended, naming the restaurant's owner |
| OrderService.PlaceOrder | fastapi_core_service/app/services/order_service.py:77-118 | one order stored under a fresh key, the caller's cart cleared, the two order-placed rows appended |
| OrderService.CreateOrderFromCart | fastapi_core_service/app/services/order_service.py:44-120 | fails iff cart validation fails, with its error and no change; otherwise places the order built from the validated cart |
| OrderService.ValidatedCartPriced | fastapi_core_service/app/services/order_service.py:53-66 | a validated cart has a restaurant and every dish priced, so the "dish not found" branch cannot be reached |
| OrderService.CheckoutFailsOnlyOnValidation | fastapi_core_service/app/services/order_service.py:53-66 | a validated cart is the stored, non-empty cart of an accepting restaurant with all dishes present |
| OrderService.RefillOnlyOriginalDishes | fastapi_core_service/app/services/order_service.py:144-157 | the rebuilt cart holds only dishes of the old order and is well formed |
| OrderService.RefillCount | fastapi_core_service/app/services/order_service.py:160-166 | with positive old quantities, the item count is 0 iff nothing was re-added |
| OrderService.RefillKeepsCartBound | fastapi_core_service/app/services/order_service.py:144-157 | re-adding keeps a well-formed, bound cart well formed and bound to one restaurant |
| OrderService.ReorderKeepsCartBound | fastapi_core_service/app/services/order_service.py:141-157 | whatever cart reorder starts from, the rebuilt cart is well formed and bound to one restaurant |
| OrderService.RefillOnlyWellFormed | fastapi_core_service/app/services/order_service.py:144-157 | the rebuilt cart has distinct dishes |
| OrderService.ReorderOutcome | fastapi_core_service/app/services/order_service.py:141-166 | after clearing and re-adding, the cart holds only old dishes, and the view count is 0 iff the cart is empty |
| OrderService.ReAddItems | fastapi_core_service/app/services/order_service.py:144-157 | the loop leaves the caller's entry as specified and every other cart unchanged |
| OrderService.Reorder | fastapi_core_service/app/services/order_service.py:123-172 | another customer's or a missing order is a 404 with no change; otherwise the cart is rebuilt and the request fails iff its item count is 0, the cart staying cleared |
| DeliveryService.PartnerIndex | fastapi_core_service/app/services/delivery_service.py:40-42 | the first partner record of the user |
| DeliveryService.MatchIndex | fastapi_core_service/app/services/delivery_service.py:21-24 | the first available partner in the pin code |
| DeliveryService.SetAvailable | fastapi_core_service/app/services/delivery_service.py:30 | only that record's flag changes; user ids, and so their uniqueness, are kept |
| DeliveryService.AssignStep | fastapi_core_service/app/services/delivery_service.py:21-33 | none iff no partner is free in the pin code, then nothing changes; otherwise a free matching partner, now unavailable, and the only one changed |
| DeliveryService.Release | fastapi_core_service/app/services/delivery_service.py:36-46 | the user's record becomes available, every other record stays; a no-op for an unknown user |
| DeliveryService.ReleaseIdempotent | fastapi_core_service/app/services/delivery_service.py:36-46 | releasing twice is releasing once |
| DeliveryService.NoDoubleAssignment | fastapi_core_service/app/services/delivery_service.py:21-30 | with one record per user, a partner just assigned is not returned by a second assignment |
| DeliveryService.AssignDeliveryPartner | fastapi_core_service/app/services/delivery_service.py:9-33 | an unknown restaurant gives none with no change; otherwise the assignment step at its pin code |
| DeliveryService.ReleaseDeliveryPartner | fastapi_core_service/app/services/delivery_service.py:36-46 | the partner table becomes the released one |
| DeliveryRouter.GetDeliveryPartnerRecord | fastapi_core_service/app/routers/delivery.py:20-28 | 404 iff the user has no partner record, else that user's record |
| DeliveryRouter.ToggleStep | fastapi_core_service/app/routers/delivery.py:38-41 | 404 without a record; otherwise only the caller's flag is set |
| DeliveryRouter.ToggleSetsFlag | fastapi_core_service/app/routers/delivery.py:38-44 | the caller's record then carries the requested flag, and a repeat changes nothing |
| DeliveryRouter.ToggleAvailability | fastapi_core_service/app/routers/delivery.py:31-44 | the partner table becomes the toggled one and the updated record is returned |
| DeliveryRouter.AssignedOrders | fastapi_core_service/app/routers/delivery.py:47-58 | exactly the orders carrying the caller as partner in `preparing` or `out_for_delivery` |
| DeliveryRouter.DeliveryStep | fastapi_core_service/app/routers/delivery.py:80-116 | a claim without a record is a 404; success sets the target status and, for a claim, the caller as partner |
| DeliveryRouter.DeliveryStepSucceeds | fastapi_core_service/app/routers/delivery.py:81-113 | success iff the move is in the partner table, a claim has a record, and an order on its way is moved by its assignee |
| DeliveryRouter.ForbiddenBeforeTransition | fastapi_core_service/app/routers/delivery.py:90-95 | a non-assignee of an order on its way or delivered gets 403 whatever target is asked |
| DeliveryRouter.DeliveredIsFinal | fastapi_core_service/app/routers/delivery.py:103-107 | the assignee of a delivered order gets "cannot update from delivered" |
| DeliveryRouter.AssignmentKept | fastapi_core_service/app/routers/delivery.py:82 | a truthy partner id is never overwritten |
| DeliveryRouter.ForeignPartnerMovesAssignedOrder | fastapi_core_service/app/routers/delivery.py:81-95 | another partner may take an order assigned to someone else out for delivery; the original id stays |
| DeliveryRouter.PartnersAfter | fastapi_core_service/app/routers/delivery.py:84-120 | the partner table stays one record per user |
| DeliveryRouter.ClaimAndDelivery | fastapi_core_service/app/routers/delivery.py:81-120 | a claimed order appears in the caller's assigned orders and the caller is unavailable; a delivered order leaves the list and its assignee is available |
| DeliveryRouter.CheckDeliveryUpdate | fastapi_core_service/app/routers/delivery.py:80-116 | the handler's checks, in their order, give exactly the specified verdict |
| DeliveryRouter.CommitPartners | fastapi_core_service/app/routers/delivery.py:84-120 | the partner table becomes exactly the specified one, one record per user |
| DeliveryRouter.CommitDeliveryUpdate | fastapi_core_service/app/routers/delivery.py:115-126 | the order row is replaced, the partner table updated, and the status-change rows appended |
| DeliveryRouter.UpdateDeliveryStatus | fastapi_core_service/app/routers/delivery.py:61-128 | a missing order is a 404; refusals change nothing; success stores the new order, updates the partners as specified and appends the status-change rows |
| OwnerRouter.GetOwnerRestaurant | fastapi_core_service/app/routers/restaurant_owner.py:20-28 | 404 iff the caller owns no restaurant, else one the caller owns |
| OwnerRouter.CreateDish | fastapi_core_service/app/routers/restaurant_owner.py:31-59 | 404 without a restaurant; with one, success iff the dish names the caller's restaurant, else 403; nothing stored on refusal; on success one new dish in that restaurant |
| OwnerRouter.ListDishes | fastapi_core_service/app/routers/restaurant_owner.py:62-71 | exactly the dishes of one restaurant the caller owns |
| OwnerRouter.SetField | fastapi_core_service/app/routers/restaurant_owner.py:98 | `setattr` never changes the dish's restaurant |
| OwnerRouter.ApplyFields | fastapi_core_service/app/routers/restaurant_owner.py:97-98 | applying any fields keeps the dish's restaurant |
| OwnerRouter.SetFields | fastapi_core_service/app/routers/restaurant_owner.py:96 | at most the four updatable fields |
| OwnerRouter.ApplyFieldsAppend | fastapi_core_service/app/routers/restaurant_owner.py:97-98 | applying fields in two batches is applying them at once |
| OwnerRouter.PatchSetsSuppliedFields | fastapi_core_service/app/routers/restaurant_owner.py:96-98 | each supplied field takes the sent value and every other field keeps its old one |
| OwnerRouter.PatchIdempotent | fastapi_core_service/app/routers/restaurant_owner.py:96-98 | sending the same patch twice leaves the dish as after the first |
| OwnerRouter.UpdateDish | fastapi_core_service/app/routers/restaurant_owner.py:74-103 | 404 without a restaurant; with one, success iff the dish is in it, else 404 with nothing changed; on success the loop stores the patched dish |
| OwnerRouter.DeleteDish | fastapi_core_service/app/routers/restaurant_owner.py:106-129 | 404 without a restaurant; with one, success iff the dish is in it, else 404; on success exactly that dish is removed |
| OwnerRouter.ListRestaurantOrders | fastapi_core_service/app/routers/restaurant_owner.py:132-144 | exactly the orders of one restaurant the caller owns |
| OwnerRouter.OwnerOrderStep | fastapi_core_service/app/routers/restaurant_owner.py:157-184 | a 404 unless the order is the restaurant's; then the owner's transition decides |
| OwnerRouter.OwnerOrderStepSucceeds | fastapi_core_service/app/routers/restaurant_owner.py:159-184 | success iff the restaurant's order is `placed` and `preparing` is asked, and only the status changes |
| OwnerRouter.OwnerStatusCheckedFirst | fastapi_core_service/app/routers/restaurant_owner.py:171-175 | an order past `placed` gets the same refusal whatever target is asked |
| OwnerRouter.UpdateOrderStatus | fastapi_core_service/app/routers/restaurant_owner.py:147-191 | 404 without a restaurant; with one, the result is the owner's step on that restaurant's order; refusals change nothing; success stores the order and appends its status-change rows |
| OwnerRouter.ToggleOrdering | fastapi_core_service/app/routers/restaurant_owner.py:194-209 | 404 without a restaurant; otherwise only `is_ordering_enabled` of one owned restaurant changes, and the message names the new state |
| CustomerRouter.ListRestaurants | fastapi_core_service/app/routers/customer.py:20-36 | exactly the active restaurants with ordering enabled, in the pin code when a non-empty one is given |
| CustomerRouter.PinCodeNarrows | fastapi_core_service/app/routers/customer.py:32-33 | an empty pin code filters nothing, and a pin code only narrows |
| CustomerRouter.GetRestaurantMenu | fastapi_core_service/app/routers/customer.py:39-58 | 404 iff the restaurant is unknown, else exactly its available dishes |
| CustomerRouter.ListedMenuDishCanBeAdded | fastapi_core_service/app/routers/customer.py:27-56 | a menu dish of a listed restaurant is accepted by the cart when the caller has no cart, an unbound cart, or one bound to that restaurant |
| CustomerRouter.OrderHistory | fastapi_core_service/app/routers/customer.py:105-115 | exactly the caller's orders |
| CustomerRouter.GetOrder | fastapi_core_service/app/routers/customer.py:118-136 | the order iff it exists and is the caller's, else 404 |
| CustomerRouter.GetOrderMatchesHistory | fastapi_core_service/app/routers/customer.py:111-134 | the single-order view finds exactly the orders of the history |
| CustomerRouter.CancelStep | fastapi_core_service/app/routers/customer.py:146-163 | 404 unless the caller's; 400 unless `placed`; otherwise only the status becomes `cancelled` |
| CustomerRouter.CancelOnce | fastapi_core_service/app/routers/customer.py:157-163 | a cancelled order cannot be cancelled again |
| CustomerRouter.CancelOrder | fastapi_core_service/app/routers/customer.py:139-172 | the specified verdict; success stores the order and releases a truthy assigned partner; no notification |
| CustomerRouter.MyComplaints | fastapi_core_service/app/routers/customer.py:218-228 | exactly the complaints the caller filed |
| CustomerRouter.CreateComplaint | fastapi_core_service/app/routers/customer.py:185-215 | 404 iff the order is not the caller's; otherwise one new `open` complaint without resolution |
| SupportRouter.ListAllComplaints | fastapi_core_service/app/routers/support.py:17-30 | `open` or `resolved` narrows to that status; any other filter lists all |
| SupportRouter.ComplaintFiltersPartition | fastapi_core_service/app/routers/support.py:19-27 | the default lists exactly the open complaints, and the two filters split all complaints |
| SupportRouter.ResolveStep | fastapi_core_service/app/routers/support.py:41-57 | 404 for an unknown complaint, 400 for a resolved one; success iff open, setting status, notes and time |
| SupportRouter.ResolveAtMostOnce | fastapi_core_service/app/routers/support.py:49-53 | a second resolution is refused, so the first notes and time stay |
| SupportRouter.ResolveComplaint | fastapi_core_service/app/routers/support.py:33-65 | the specified verdict; success stores the complaint and appends one row to its customer |

## Left out

- Authentication and roles: the `Depends(get_*_user)` checks are part of the routing layer; the caller's id is an input.
- Request schemas: a body that fails its schema (a non-positive cart quantity, a short complaint text) is refused by the framework before the handler runs. Where a handler relies on such a bound it is a `requires`. `CartStore.AddToCart` takes any quantity.
- Result ordering: the lists that the code sorts by `created_at` descending (assigned orders, order history, restaurant orders, complaints) are returned as sets of ids, because creation timestamps are not modelled.
- Response shapes: the response models, `db.refresh`, and the formatted text of error details, which are structured constructors here.
- The `cart`, `checkout` and `reorder` routes of the customer router, which only forward to the cart and order services. Those services are modelled.
- `UpdateDish`: an explicit `null` for `name`, `price` or `available` is not modelled, because such a write breaks a column constraint or a type in the database. An explicit `null` photo path is modelled.
- Database integrity: foreign-key and cascade behaviour, for instance deleting a dish that old order items refer to.
- Concurrency: requests run one at a time. The code has no locking, and each notification commits separately.
- Logging: the `logger.info` and `print` calls beside each notification are output only.
