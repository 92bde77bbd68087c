/** The order status state machine. Each role's router checks the transition
    on its own; this module states those three checks as functions and
    proves them against one transition table. */
module StatusMachine {
  import opened Domain

  datatype Actor = OwnerActor | PartnerActor | CustomerActor

  /** The transition table: the only moves, and who may make them. */
  predicate Allowed(actor: Actor, from: OrderStatus, to: OrderStatus)
  {
    match actor
    case OwnerActor => from == Placed && to == Preparing
    case PartnerActor => (from == Preparing && to == OutForDelivery) || (from == OutForDelivery && to == Delivered)
    case CustomerActor => from == Placed && to == Cancelled
  }

  predicate Terminal(s: OrderStatus)
  {
    s == Delivered || s == Cancelled
  }

  /** The restaurant owner's check: the current status is examined before the
      requested one, so an order that is not `placed` is refused whatever is asked. */
  function OwnerTransition(current: OrderStatus, target: OrderStatus): (r: Result<OrderStatus>)
    ensures r.Success? <==> Allowed(OwnerActor, current, target)
    ensures r.Success? ==> r.value == target
    ensures current != Placed ==> r == Failure(BadRequest(OnlyFromPlaced))
    ensures current == Placed && target != Preparing ==> r == Failure(BadRequest(OnlyToPreparing))
  {
    if current != Placed then Failure(BadRequest(OnlyFromPlaced))
    else if target != Preparing then Failure(BadRequest(OnlyToPreparing))
    else Success(target)
  }

  /** The delivery partner's table `{preparing: [out_for_delivery], out_for_delivery: [delivered]}`. */
  function PartnerTransition(current: OrderStatus, target: OrderStatus): (r: Result<OrderStatus>)
    ensures r.Success? <==> Allowed(PartnerActor, current, target)
    ensures r.Success? ==> r.value == target
    ensures current != Preparing && current != OutForDelivery ==> r == Failure(BadRequest(CannotUpdateFrom(current)))
    ensures (current == Preparing || current == OutForDelivery) && r.Failure? ==>
              r == Failure(BadRequest(InvalidTransition(current, target)))
  {
    if current == Preparing then
      if target == OutForDelivery then Success(target) else Failure(BadRequest(InvalidTransition(current, target)))
    else if current == OutForDelivery then
      if target == Delivered then Success(target) else Failure(BadRequest(InvalidTransition(current, target)))
    else Failure(BadRequest(CannotUpdateFrom(current)))
  }

  /** The customer's cancellation: only from exactly `placed`. */
  function CancelTransition(current: OrderStatus): (r: Result<OrderStatus>)
    ensures r.Success? <==> Allowed(CustomerActor, current, Cancelled)
    ensures r.Success? ==> r.value == Cancelled
    ensures r.Failure? ==> r == Failure(BadRequest(CancelOnlyWhenPlaced))
  {
    if current == Placed then Success(Cancelled) else Failure(BadRequest(CancelOnlyWhenPlaced))
  }

  /** No role can move an order out of `delivered` or `cancelled`, and no move
      returns to `placed`. */
  lemma TerminalStatesAreFinal(actor: Actor, from: OrderStatus, to: OrderStatus)
    ensures Terminal(from) ==> !Allowed(actor, from, to)
    ensures !Allowed(actor, from, Placed)
  {
  }
}
