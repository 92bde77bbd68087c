/** The delivery partner's requests: the partner record, the availability
    switch, the list of assigned orders and the status update that claims,
    carries and delivers an order. A request that raises commits nothing. */
module DeliveryRouter {
  import opened Common
  import opened Domain
  import opened Database
  import opened StatusMachine
  import opened Notifications
  import opened DeliveryService

  /** The partner record of the signed-in user, 404 when there is none. */
  function GetDeliveryPartnerRecord(partners: seq<DeliveryPartner>, userId: Id): (r: Result<DeliveryPartner>)
    ensures r.Failure? <==> forall p :: p in partners ==> p.userId != userId
    ensures r.Failure? ==> r == Failure(NotFound(PartnerRecordNotFound))
    ensures r.Success? ==> r.value in partners && r.value.userId == userId
  {
    var k := PartnerIndex(partners, userId);
    if k < |partners| then Success(partners[k])
    else
      assert forall p :: p in partners ==> p.userId != userId by {
        forall p | p in partners ensures p.userId != userId {
          var j :| 0 <= j < |partners| && partners[j] == p;
        }
      }
      Failure(NotFound(PartnerRecordNotFound))
  }

  /** `PUT /toggle-availability`: the switch sets exactly the caller's flag. */
  function ToggleStep(partners: seq<DeliveryPartner>, userId: Id, available: bool): (r: Result<seq<DeliveryPartner>>)
    ensures r.Failure? <==> GetDeliveryPartnerRecord(partners, userId).Failure?
    ensures r.Failure? ==> r == Failure(NotFound(PartnerRecordNotFound))
    ensures r.Success? ==>
              var k := PartnerIndex(partners, userId);
              k < |partners| && r.value == SetAvailable(partners, k, available)
  {
    var k := PartnerIndex(partners, userId);
    if k < |partners| then Success(SetAvailable(partners, k, available))
    else Failure(NotFound(PartnerRecordNotFound))
  }

  /** Toggling to the same value twice is toggling once, and the record
      afterwards carries the requested flag. */
  lemma ToggleSetsFlag(partners: seq<DeliveryPartner>, userId: Id, available: bool)
    requires ToggleStep(partners, userId, available).Success?
    ensures var after := ToggleStep(partners, userId, available).value;
            GetDeliveryPartnerRecord(after, userId) == Success(GetDeliveryPartnerRecord(partners, userId).value.(available := available))
            && ToggleStep(after, userId, available) == Success(after)
  {
    var k := PartnerIndex(partners, userId);
    var after := SetAvailable(partners, k, available);
    assert forall j :: 0 <= j < |after| ==> after[j].userId == partners[j].userId;
    PartnerIndexUnique(after, userId, k);
    assert SetAvailable(after, k, available) == after;
  }

  method ToggleAvailability(db: Db, userId: Id, available: bool) returns (r: Result<DeliveryPartner>)
    requires db.Valid()
    modifies db`partners
    ensures db.Valid()
    ensures ToggleStep(old(db.partners), userId, available).Failure? ==>
              r == Failure(NotFound(PartnerRecordNotFound)) && db.partners == old(db.partners)
    ensures ToggleStep(old(db.partners), userId, available).Success? ==>
              db.partners == ToggleStep(old(db.partners), userId, available).value
              && r == GetDeliveryPartnerRecord(db.partners, userId)
  {
    var k := PartnerIndex(db.partners, userId);
    if k == |db.partners| {
      return Failure(NotFound(PartnerRecordNotFound));
    }
    db.partners := SetAvailable(db.partners, k, available);
    PartnerIndexUnique(db.partners, userId, k);
    r := Success(db.partners[k]);
  }

  /** `GET /assigned-orders`: the orders carrying the partner's id that are
      still on their way. */
  function AssignedOrders(orders: map<Id, Order>, partnerId: Id): (r: set<Id>)
    ensures r <= orders.Keys
    ensures forall k :: k in r <==>
              k in orders && orders[k].deliveryPartnerId == Some(partnerId)
              && orders[k].status in {Preparing, OutForDelivery}
  {
    set k | k in orders && orders[k].deliveryPartnerId == Some(partnerId)
                        && orders[k].status in {Preparing, OutForDelivery}
  }

  /** An update that takes an unassigned `preparing` order out for delivery
      claims it for the caller. */
  predicate Claims(order: Order, target: OrderStatus)
  {
    target == OutForDelivery && order.status == Preparing && !Truthy(order.deliveryPartnerId)
  }

  /** `PUT /orders/{order_id}/status` on a found order, as a value: the claim,
      then the assignment check, then the partner's transition table.
      `hasRecord` says whether the caller has a partner record. */
  function DeliveryStep(order: Order, actor: Id, target: OrderStatus, hasRecord: bool): (r: Result<Order>)
    ensures Claims(order, target) && !hasRecord ==> r == Failure(NotFound(PartnerRecordNotFound))
    ensures r.Success? ==>
              r.value == order.(status := target,
                                deliveryPartnerId := if Claims(order, target) then Some(actor) else order.deliveryPartnerId)
  {
    var claimed := Claims(order, target);
    if claimed && !hasRecord then Failure(NotFound(PartnerRecordNotFound))
    else
      var o := if claimed then order.(deliveryPartnerId := Some(actor)) else order;
      if (o.status == OutForDelivery || o.status == Delivered) && o.deliveryPartnerId != Some(actor) then
        Failure(Forbidden(NotAssignedToYou))
      else
        match PartnerTransition(o.status, target)
        case Failure(e) => Failure(e)
        case Success(s) => Success(o.(status := s))
  }

  /** When the update goes through: a legal partner move, made by the
      assigned partner once the order is on its way, and by a caller with a
      record when it is a claim. */
  lemma DeliveryStepSucceeds(order: Order, actor: Id, target: OrderStatus, hasRecord: bool)
    ensures DeliveryStep(order, actor, target, hasRecord).Success? <==>
              Allowed(PartnerActor, order.status, target)
              && (Claims(order, target) ==> hasRecord)
              && (order.status == OutForDelivery ==> order.deliveryPartnerId == Some(actor))
  {
  }

  /** The assignment check comes before the transition table: a caller who
      is not the assignee of an order on its way or delivered is refused
      with 403, whatever status is asked for. */
  lemma ForbiddenBeforeTransition(order: Order, actor: Id, target: OrderStatus, hasRecord: bool)
    requires order.status == OutForDelivery || order.status == Delivered
    requires order.deliveryPartnerId != Some(actor)
    ensures DeliveryStep(order, actor, target, hasRecord) == Failure(Forbidden(NotAssignedToYou))
  {
  }

  /** The assignee of a delivered order is told that it cannot move on. */
  lemma DeliveredIsFinal(order: Order, actor: Id, target: OrderStatus, hasRecord: bool)
    requires order.status == Delivered && order.deliveryPartnerId == Some(actor)
    ensures DeliveryStep(order, actor, target, hasRecord) == Failure(BadRequest(CannotUpdateFrom(Delivered)))
  {
  }

  /** An assignment is never overwritten: an order that already carries a
      partner keeps it, even when another partner moves it from `preparing`
      to `out_for_delivery` (that move is not refused). */
  lemma AssignmentKept(order: Order, actor: Id, target: OrderStatus, hasRecord: bool)
    requires Truthy(order.deliveryPartnerId)
    requires DeliveryStep(order, actor, target, hasRecord).Success?
    ensures DeliveryStep(order, actor, target, hasRecord).value.deliveryPartnerId == order.deliveryPartnerId
  {
  }

  lemma ForeignPartnerMovesAssignedOrder(actor: Id, other: Id, order: Order)
    requires actor != other && other != 0
    requires order.status == Preparing && order.deliveryPartnerId == Some(other)
    ensures DeliveryStep(order, actor, OutForDelivery, false) == Success(order.(status := OutForDelivery))
  {
  }

  /** What the update does to the partner records when it goes through: a
      claim marks the caller unavailable, a delivery releases the assignee. */
  function PartnersAfter(partners: seq<DeliveryPartner>, order: Order, actor: Id, target: OrderStatus): (r: seq<DeliveryPartner>)
    ensures UniquePartners(partners) ==> UniquePartners(r)
  {
    var k := PartnerIndex(partners, actor);
    if Claims(order, target) && k < |partners| then SetAvailable(partners, k, false)
    else if target == Delivered && Truthy(order.deliveryPartnerId) then Release(partners, order.deliveryPartnerId.value)
    else partners
  }

  /** A claimed order shows up among the caller's assigned orders, and one
      delivered drops out of its assignee's list while the assignee becomes
      available again. The caller is a stored user, so its id is positive. */
  lemma ClaimAndDelivery(orders: map<Id, Order>, partners: seq<DeliveryPartner>, id: Id, actor: Id, target: OrderStatus)
    requires id in orders && actor >= 1
    requires DeliveryStep(orders[id], actor, target, PartnerIndex(partners, actor) < |partners|).Success?
    ensures var o := DeliveryStep(orders[id], actor, target, PartnerIndex(partners, actor) < |partners|).value;
            var after := PartnersAfter(partners, orders[id], actor, target);
            (Claims(orders[id], target) ==>
               id in AssignedOrders(orders[id := o], actor)
               && GetDeliveryPartnerRecord(after, actor).Success?
               && !GetDeliveryPartnerRecord(after, actor).value.available)
            && (target == Delivered ==>
                  id !in AssignedOrders(orders[id := o], actor)
                  && (GetDeliveryPartnerRecord(partners, actor).Success? ==>
                        GetDeliveryPartnerRecord(after, actor) == Success(GetDeliveryPartnerRecord(partners, actor).value.(available := true))))
  {
    var order := orders[id];
    var k := PartnerIndex(partners, actor);
    var after := PartnersAfter(partners, order, actor, target);
    if Claims(order, target) {
      assert forall j :: 0 <= j < |after| ==> after[j].userId == partners[j].userId;
      PartnerIndexUnique(after, actor, k);
    } else if target == Delivered {
      assert order.deliveryPartnerId == Some(actor);
      assert after == Release(partners, actor);
      assert forall j :: 0 <= j < |after| ==> after[j].userId == partners[j].userId;
      if k < |partners| {
        assert after[k] == partners[k].(available := true);
        PartnerIndexUnique(after, actor, k);
      }
    }
  }

  /** The checks of `PUT /orders/{order_id}/status` in the order the
      handler makes them, on the order as found. */
  method CheckDeliveryUpdate(found: Order, actor: Id, target: OrderStatus, hasRecord: bool) returns (r: Result<Order>)
    ensures r == DeliveryStep(found, actor, target, hasRecord)
  {
    var order := found;
    if target == OutForDelivery && order.status == Preparing && !Truthy(order.deliveryPartnerId) {
      if !hasRecord {
        return Failure(NotFound(PartnerRecordNotFound));
      }
      order := order.(deliveryPartnerId := Some(actor));
    }
    if (order.status == OutForDelivery || order.status == Delivered) && order.deliveryPartnerId != Some(actor) {
      return Failure(Forbidden(NotAssignedToYou));
    }
    var move := PartnerTransition(order.status, target);
    if move.Failure? {
      return Failure(move.error);
    }
    r := Success(order.(status := target));
  }

  /** The partner-table writes of an accepted update: the claiming caller
      becomes unavailable, or the assignee of a delivered order is released. */
  method CommitPartners(db: Db, found: Order, actor: Id, target: OrderStatus)
    requires db.Valid()
    modifies db`partners
    ensures db.Valid()
    ensures db.partners == PartnersAfter(old(db.partners), found, actor, target)
  {
    var k := PartnerIndex(db.partners, actor);
    if Claims(found, target) && k < |db.partners| {
      db.partners := SetAvailable(db.partners, k, false);
    } else if target == Delivered && Truthy(found.deliveryPartnerId) {
      ReleaseDeliveryPartner(db, found.deliveryPartnerId.value);
    }
  }

  /** The writes of an accepted update: the order row, the partner table and
      the status-change notifications. */
  method CommitDeliveryUpdate(db: Db, found: Order, order: Order, actor: Id, target: OrderStatus)
    requires db.Valid() && order.id in db.orders
    modifies db`orders, db`partners, db`notifications
    ensures db.Valid()
    ensures db.orders == old(db.orders)[order.id := order]
    ensures db.partners == PartnersAfter(old(db.partners), found, actor, target)
    ensures db.notifications == old(db.notifications) + StatusChangeRecords(order)
  {
    db.PutOrder(order);
    CommitPartners(db, found, actor, target);
    NotifyOrderStatusChange(db, order, found.status);
  }

  /** `PUT /orders/{order_id}/status`. */
  method UpdateDeliveryStatus(db: Db, orderId: Id, actor: Id, target: OrderStatus) returns (r: Result<Order>)
    requires db.Valid()
    modifies db`orders, db`partners, db`notifications
    ensures db.Valid()
    ensures orderId !in old(db.orders) ==>
              r == Failure(NotFound(OrderNotFound))
    ensures orderId in old(db.orders) ==>
              r == DeliveryStep(old(db.orders)[orderId], actor, target,
                                PartnerIndex(old(db.partners), actor) < |old(db.partners)|)
    ensures r.Failure? ==>
              db.orders == old(db.orders) && db.partners == old(db.partners)
              && db.notifications == old(db.notifications)
    ensures r.Success? ==>
              orderId in old(db.orders) && r.value.id == orderId
              && db.orders == old(db.orders)[orderId := r.value]
              && db.partners == PartnersAfter(old(db.partners), old(db.orders)[orderId], actor, target)
              && db.notifications == old(db.notifications) + StatusChangeRecords(r.value)
  {
    if orderId !in db.orders {
      return Failure(NotFound(OrderNotFound));
    }
    var found := db.orders[orderId];
    var k := PartnerIndex(db.partners, actor);
    r := CheckDeliveryUpdate(found, actor, target, k < |db.partners|);
    if r.Failure? {
      return;
    }
    var order := r.value;
    assert order.id == found.id == orderId;
    CommitDeliveryUpdate(db, found, order, actor, target);
  }
}
