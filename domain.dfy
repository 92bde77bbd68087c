/** The records the order-fulfilment engine works on, and its error kinds.
    Money is in integer cents; an offer's percentage is in hundredths of a
    percent (`15.00` % is `1500`), as `Decimal(5,2)` stores it. Timestamps
    are left out except where a handler writes one (`resolved_at`). */
module Domain {
  import opened Common

  /** A database primary key. Keys are assigned by auto-increment and are
      positive, so a stored key is truthy exactly when it is present. */
  type Id = int

  datatype OrderStatus = Placed | Preparing | OutForDelivery | Delivered | Cancelled

  /** The string stored in `orders.status`. */
  function StatusValue(s: OrderStatus): string
  {
    match s
    case Placed => "placed"
    case Preparing => "preparing"
    case OutForDelivery => "out_for_delivery"
    case Delivered => "delivered"
    case Cancelled => "cancelled"
  }

  datatype PaymentMode = Cash | Card | Upi

  datatype RestaurantStatus = Active | Inactive

  datatype ComplaintStatus = Open | Resolved

  function ComplaintStatusValue(s: ComplaintStatus): string
  {
    match s
    case Open => "open"
    case Resolved => "resolved"
  }

  datatype User = User(name: string, role: string, pinCode: string)

  datatype Restaurant = Restaurant(
    name: string,
    ownerId: Id,
    pinCode: string,
    status: RestaurantStatus,
    orderingEnabled: bool)

  datatype Dish = Dish(
    restaurantId: Id,
    name: string,
    price: int,
    photoPath: Option<string>,
    available: bool)

  /** One line of a placed order; `priceSnapshot` is the dish price at checkout. */
  datatype OrderItem = OrderItem(dishId: Id, quantity: int, priceSnapshot: int)

  datatype Order = Order(
    id: Id,
    customerId: Id,
    restaurantId: Id,
    deliveryPartnerId: Option<Id>,
    status: OrderStatus,
    totalAmount: int,
    discountAmount: int,
    deliveryFee: int,
    platformFee: int,
    paymentMode: PaymentMode,
    items: seq<OrderItem>)

  datatype DeliveryPartner = DeliveryPartner(userId: Id, available: bool, pinCode: string)

  /** `resolvedAt` is the caller-supplied clock reading taken at resolution. */
  datatype Complaint = Complaint(
    orderId: Id,
    customerId: Id,
    description: string,
    status: ComplaintStatus,
    resolutionNotes: Option<string>,
    resolvedAt: Option<int>)

  /** `restaurantId == None` is a platform-wide offer. */
  datatype Offer = Offer(
    id: Id,
    restaurantId: Option<Id>,
    discountPercentage: int,
    minOrderValue: int,
    firstTimeUserOnly: bool,
    active: bool)

  /** `restaurantId == None` is the platform-wide fee row. */
  datatype Fee = Fee(restaurantId: Option<Id>, deliveryFee: int, platformFee: int)

  datatype Notification = Notification(userId: Id, orderId: Id, kind: string, message: string)

  /** The `detail` of each `HTTPException` (or `ValidationError`) the core raises. */
  datatype Detail =
    | DishNotFound                         // "Dish not found"
    | DishNotAvailable                     // "Dish is not available"
    | RestaurantNotAcceptingOrders         // "Restaurant is not accepting orders"
    | CartConflict(restaurantId: Id)       // "... remove items from restaurant {id} first."
    | CartIsEmpty                          // "Cart is empty"
    | ItemNotInCart                        // "Item not in cart"
    | InvalidCartState                     // "Invalid cart state"
    | RestaurantNotFound                   // "Restaurant not found"
    | RestaurantInactive                   // "Restaurant is inactive"
    | DishNoLongerAvailable(dishId: Id)    // "Dish {id} is no longer available"
    | DishIdNotFound(dishId: Id)           // "Dish {id} not found"
    | OrderNotFound                        // "Order not found"
    | CouldNotRecreateOrder                // "Could not recreate order. ..."
    | PartnerRecordNotFound                // "Delivery partner record not found"
    | NotAssignedToYou                     // "This order is not assigned to you"
    | CannotUpdateFrom(current: OrderStatus)
    | InvalidTransition(from: OrderStatus, to: OrderStatus)
    | NoRestaurantForOwner                 // "No restaurant found for this owner"
    | OnlyOwnRestaurant                    // "You can only add dishes to your own restaurant"
    | OnlyFromPlaced                       // "Order can only be moved to preparing from placed status"
    | OnlyToPreparing                      // "Restaurant owner can only move order to preparing status"
    | CancelOnlyWhenPlaced                 // "Order can only be cancelled when status is 'placed'"
    | ComplaintNotFound                    // "Complaint not found"
    | ComplaintAlreadyResolved             // "Complaint is already resolved"
    | OwnerRoleRequired                    // "Owner must have 'Restaurant Owner' role."
    | DiscountOutOfRange                   // "Discount percentage must be between 0 and 100."
    | NegativeDeliveryFee                  // "Delivery fee cannot be negative."
    | NegativePlatformFee                  // "Platform fee cannot be negative."

  /** HTTP 404, 400 and 403; a serializer `ValidationError` is a 400. */
  datatype Error = NotFound(detail: Detail) | BadRequest(detail: Detail) | Forbidden(detail: Detail)

  datatype Result<+T> = Success(value: T) | Failure(error: Error)
}
