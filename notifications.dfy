/** Notification fan-out. Sending a notification appends one row to the
    `notifications` table; each event appends a fixed sequence of rows.
    The console logging beside each append is output only and is left out. */
module Notifications {
  import opened Common
  import opened Domain
  import opened Text
  import opened Database

  function OrderRef(orderId: Id): string
  {
    "#" + IntToString(orderId)
  }

  /** The two rows for a placed order: the customer first, then the owner. */
  function OrderPlacedRecords(order: Order, ownerId: Id): (r: seq<Notification>)
    ensures |r| == 2
    ensures r[0].userId == order.customerId && r[0].kind == "ORDER_PLACED_CUSTOMER"
    ensures r[1].userId == ownerId && r[1].kind == "ORDER_PLACED_RESTAURANT"
    ensures r[0].orderId == order.id && r[1].orderId == order.id
  {
    [ Notification(order.customerId, order.id, "ORDER_PLACED_CUSTOMER",
        "Your order " + OrderRef(order.id) + " has been placed successfully! Total: \U{E2}\U{201A}\U{B9}"
        + CentsToString(order.totalAmount)),
      Notification(ownerId, order.id, "ORDER_PLACED_RESTAURANT",
        "New order " + OrderRef(order.id) + " received! Please start preparing.") ]
  }

  /** The fixed message table, with its generic fallback for other statuses. */
  function StatusMessage(s: OrderStatus): (m: string)
    ensures m == "Order status updated to " + StatusValue(s) <==> s == Placed
  {
    match s
    case Preparing => "Your order is being prepared"
    case OutForDelivery => "Your order is out for delivery"
    case Delivered => "Your order has been delivered!"
    case Cancelled => "Your order has been cancelled"
    case Placed => "Order status updated to " + StatusValue(s)
  }

  /** `f"ORDER_STATUS_{status.upper()}"`. */
  function StatusKind(s: OrderStatus): string
  {
    "ORDER_STATUS_" + Upper(StatusValue(s))
  }

  /** The rows for a status change, which depend only on the order's new
      state: one to the customer, and a second to the delivery partner
      exactly when the order went out for delivery with a (truthy) partner id. */
  function StatusChangeRecords(order: Order): (r: seq<Notification>)
    ensures 1 <= |r| <= 2
    ensures r[0].userId == order.customerId && r[0].orderId == order.id
    ensures r[0].kind == StatusKind(order.status)
    ensures r[0].message == "Order " + OrderRef(order.id) + ": " + StatusMessage(order.status)
    ensures |r| == 2 <==> order.status == OutForDelivery && Truthy(order.deliveryPartnerId)
    ensures |r| == 2 ==> r[1] == Notification(order.deliveryPartnerId.value, order.id,
                                              "ORDER_ASSIGNED_DELIVERY",
                                              "Order " + OrderRef(order.id) + " assigned to you for delivery")
  {
    var customer := Notification(order.customerId, order.id, StatusKind(order.status),
                                 "Order " + OrderRef(order.id) + ": " + StatusMessage(order.status));
    if order.status == OutForDelivery && Truthy(order.deliveryPartnerId) then
      [customer, Notification(order.deliveryPartnerId.value, order.id, "ORDER_ASSIGNED_DELIVERY",
                              "Order " + OrderRef(order.id) + " assigned to you for delivery")]
    else [customer]
  }

  /** The row for a resolved complaint goes to its customer, about its order. */
  function ComplaintResolvedRecord(complaintId: Id, customerId: Id, orderId: Id): (r: Notification)
    ensures r.userId == customerId && r.orderId == orderId && r.kind == "COMPLAINT_RESOLVED"
  {
    Notification(customerId, orderId, "COMPLAINT_RESOLVED",
                 "Your complaint " + OrderRef(complaintId) + " has been resolved")
  }

  /** The type names the status table produces. */
  lemma StatusKindNames()
    ensures StatusKind(Preparing) == "ORDER_STATUS_PREPARING"
    ensures StatusKind(OutForDelivery) == "ORDER_STATUS_OUT_FOR_DELIVERY"
    ensures StatusKind(Delivered) == "ORDER_STATUS_DELIVERED"
    ensures StatusKind(Cancelled) == "ORDER_STATUS_CANCELLED"
  {
    assert StatusValue(Preparing) == "preparing" && StatusValue(OutForDelivery) == "out_for_delivery";
    assert StatusValue(Delivered) == "delivered" && StatusValue(Cancelled) == "cancelled";
  }

  method SendNotification(db: Db, userId: Id, orderId: Id, kind: string, message: string)
    modifies db`notifications
    ensures old(db.Valid()) ==> db.Valid()
    ensures db.notifications == old(db.notifications) + [Notification(userId, orderId, kind, message)]
  {
    db.notifications := db.notifications + [Notification(userId, orderId, kind, message)];
  }

  /** The owner is read through the order's restaurant, which must exist. */
  method NotifyOrderPlaced(db: Db, order: Order)
    requires order.restaurantId in db.restaurants
    modifies db`notifications
    ensures old(db.Valid()) ==> db.Valid()
    ensures db.notifications == old(db.notifications)
                                + OrderPlacedRecords(order, db.restaurants[order.restaurantId].ownerId)
  {
    var recs := OrderPlacedRecords(order, db.restaurants[order.restaurantId].ownerId);
    SendNotification(db, recs[0].userId, recs[0].orderId, recs[0].kind, recs[0].message);
    SendNotification(db, recs[1].userId, recs[1].orderId, recs[1].kind, recs[1].message);
    assert db.notifications == old(db.notifications) + [recs[0]] + [recs[1]];
  }

  /** `oldStatus` is accepted and not used, as in the handler. */
  method NotifyOrderStatusChange(db: Db, order: Order, oldStatus: OrderStatus)
    modifies db`notifications
    ensures old(db.Valid()) ==> db.Valid()
    ensures db.notifications == old(db.notifications) + StatusChangeRecords(order)
  {
    var recs := StatusChangeRecords(order);
    SendNotification(db, recs[0].userId, recs[0].orderId, recs[0].kind, recs[0].message);
    if order.status == OutForDelivery && Truthy(order.deliveryPartnerId) {
      SendNotification(db, recs[1].userId, recs[1].orderId, recs[1].kind, recs[1].message);
      assert db.notifications == old(db.notifications) + [recs[0]] + [recs[1]];
    }
  }

  method NotifyComplaintResolved(db: Db, complaintId: Id, customerId: Id, orderId: Id)
    modifies db`notifications
    ensures old(db.Valid()) ==> db.Valid()
    ensures db.notifications == old(db.notifications) + [ComplaintResolvedRecord(complaintId, customerId, orderId)]
  {
    var rec := ComplaintResolvedRecord(complaintId, customerId, orderId);
    SendNotification(db, rec.userId, rec.orderId, rec.kind, rec.message);
  }
}
