/** The admin panel's field validators. Each returns its input unchanged or
    raises a `ValidationError`, which the framework answers with HTTP 400. */
module AdminValidators {
  import opened Common
  import opened Domain

  const RestaurantOwnerRole: string := "Restaurant Owner"

  /** A restaurant's owner must hold exactly the restaurant-owner role. */
  function ValidateOwner(owner: User): (r: Result<User>)
    ensures r.Success? <==> owner.role == RestaurantOwnerRole
    ensures r.Success? ==> r.value == owner
    ensures r.Failure? ==> r.error == BadRequest(OwnerRoleRequired)
  {
    if owner.role != RestaurantOwnerRole then Failure(BadRequest(OwnerRoleRequired)) else Success(owner)
  }

  /** The percentage, in hundredths of a percent, lies in [0, 100] % inclusive. */
  function ValidateDiscountPercentage(value: int): (r: Result<int>)
    ensures r.Success? <==> 0 <= value <= 10000
    ensures r.Success? ==> r.value == value
    ensures r.Failure? ==> r.error == BadRequest(DiscountOutOfRange)
  {
    if value < 0 || value > 10000 then Failure(BadRequest(DiscountOutOfRange)) else Success(value)
  }

  /** The submitted fee attributes; a key that was not submitted is `None`. */
  datatype FeeAttrs = FeeAttrs(deliveryFee: Option<int>, platformFee: Option<int>)

  /** `attrs.get(key, 0)`. */
  function GetOrZero(x: Option<int>): int
  {
    if x.Some? then x.value else 0
  }

  /** Neither fee may be negative; an absent fee counts as 0, and the
      delivery fee is checked first. */
  function ValidateFee(attrs: FeeAttrs): (r: Result<FeeAttrs>)
    ensures r.Success? <==> (attrs.deliveryFee.None? || attrs.deliveryFee.value >= 0)
                            && (attrs.platformFee.None? || attrs.platformFee.value >= 0)
    ensures r.Success? ==> r.value == attrs
    ensures attrs.deliveryFee.Some? && attrs.deliveryFee.value < 0 ==> r == Failure(BadRequest(NegativeDeliveryFee))
    ensures r.Failure? && r.error != BadRequest(NegativeDeliveryFee) ==>
              r.error == BadRequest(NegativePlatformFee) && attrs.platformFee.Some? && attrs.platformFee.value < 0
  {
    if GetOrZero(attrs.deliveryFee) < 0 then Failure(BadRequest(NegativeDeliveryFee))
    else if GetOrZero(attrs.platformFee) < 0 then Failure(BadRequest(NegativePlatformFee))
    else Success(attrs)
  }
}
