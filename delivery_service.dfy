/** Delivery-partner records: lookup by user, assignment by pin code and
    release. The table is a sequence in query order, so `.first()` is the
    first matching row. */
module DeliveryService {
  import opened Common
  import opened Domain
  import opened Database

  /** Position of the user's partner record, or `|partners|` when there is none. */
  function PartnerIndex(partners: seq<DeliveryPartner>, userId: Id): (k: nat)
    ensures k <= |partners|
    ensures forall j :: 0 <= j < k ==> partners[j].userId != userId
    ensures k < |partners| ==> partners[k].userId == userId
  {
    FirstIndex(partners, (p: DeliveryPartner) => p.userId == userId)
  }

  /** A partner that is free in the restaurant's pin code. */
  predicate Matches(p: DeliveryPartner, pinCode: string)
  {
    p.available && p.pinCode == pinCode
  }

  /** Position of the first available partner in the pin code, or `|partners|`. */
  function MatchIndex(partners: seq<DeliveryPartner>, pinCode: string): (k: nat)
    ensures k <= |partners|
    ensures forall j :: 0 <= j < k ==> !Matches(partners[j], pinCode)
    ensures k < |partners| ==> Matches(partners[k], pinCode)
  {
    FirstIndex(partners, (p: DeliveryPartner) => Matches(p, pinCode))
  }

  /** The record at `k` with its availability flag set to `available`. */
  function SetAvailable(partners: seq<DeliveryPartner>, k: nat, available: bool): (r: seq<DeliveryPartner>)
    requires k < |partners|
    ensures |r| == |partners| && r[k].available == available
    ensures r[k].userId == partners[k].userId && r[k].pinCode == partners[k].pinCode
    ensures forall i :: 0 <= i < |partners| && i != k ==> r[i] == partners[i]
    ensures UniquePartners(partners) ==> UniquePartners(r)
  {
    partners[k := partners[k].(available := available)]
  }

  /** `assign_delivery_partner` once the restaurant's pin code is known:
      the first free partner there is taken and marked unavailable, and
      nothing changes when there is none. */
  function AssignStep(partners: seq<DeliveryPartner>, pinCode: string): (r: (Option<Id>, seq<DeliveryPartner>))
    ensures r.0.None? <==> forall p :: p in partners ==> !Matches(p, pinCode)
    ensures r.0.None? ==> r.1 == partners
    ensures r.0.Some? ==>
              exists k :: 0 <= k < |partners| && Matches(partners[k], pinCode) && partners[k].userId == r.0.value
                          && r.1 == SetAvailable(partners, k, false)
  {
    var k := MatchIndex(partners, pinCode);
    if k < |partners| then
      assert partners[k] in partners;
      (Some(partners[k].userId), SetAvailable(partners, k, false))
    else
      assert forall p :: p in partners ==> !Matches(p, pinCode) by {
        forall p | p in partners ensures !Matches(p, pinCode) {
          var j :| 0 <= j < |partners| && partners[j] == p;
        }
      }
      (None, partners)
  }

  /** `release_delivery_partner`: the user's record becomes available; an
      unknown user changes nothing. */
  function Release(partners: seq<DeliveryPartner>, userId: Id): (r: seq<DeliveryPartner>)
    ensures |r| == |partners|
    ensures (forall p :: p in partners ==> p.userId != userId) ==> r == partners
    ensures forall i :: 0 <= i < |partners| ==>
              if partners[i].userId == userId && i == PartnerIndex(partners, userId)
              then r[i] == partners[i].(available := true)
              else r[i] == partners[i]
    ensures UniquePartners(partners) ==> UniquePartners(r)
  {
    var k := PartnerIndex(partners, userId);
    if k < |partners| then SetAvailable(partners, k, true)
    else
      assert forall p :: p in partners ==> p.userId != userId by {
        forall p | p in partners ensures p.userId != userId {
          var j :| 0 <= j < |partners| && partners[j] == p;
        }
      }
      partners
  }

  /** Releasing twice is releasing once. */
  lemma ReleaseIdempotent(partners: seq<DeliveryPartner>, userId: Id)
    ensures Release(Release(partners, userId), userId) == Release(partners, userId)
  {
    var r := Release(partners, userId);
    var k := PartnerIndex(partners, userId);
    assert forall j :: 0 <= j < |r| ==> r[j].userId == partners[j].userId;
    assert PartnerIndex(r, userId) == k by {
      PartnerIndexUnique(r, userId, k);
    }
    if k < |partners| {
      assert Release(r, userId) == SetAvailable(r, k, true);
    }
  }

  lemma PartnerIndexUnique(partners: seq<DeliveryPartner>, userId: Id, k: nat)
    requires k <= |partners|
    requires forall j :: 0 <= j < k ==> partners[j].userId != userId
    requires k < |partners| ==> partners[k].userId == userId
    ensures PartnerIndex(partners, userId) == k
  {
  }

  /** With one record per user, a partner just assigned is not assigned
      again by a second assignment, whatever restaurant asks, until released. */
  lemma NoDoubleAssignment(partners: seq<DeliveryPartner>, pin1: string, pin2: string)
    requires UniquePartners(partners)
    requires AssignStep(partners, pin1).0.Some?
    ensures var (u, after) := AssignStep(partners, pin1);
            AssignStep(after, pin2).0 != u
  {
    var (u, after) := AssignStep(partners, pin1);
    var k :| 0 <= k < |partners| && Matches(partners[k], pin1) && partners[k].userId == u.value
             && after == SetAvailable(partners, k, false);
    var second := AssignStep(after, pin2).0;
    if second.Some? {
      var k2 :| 0 <= k2 < |after| && Matches(after[k2], pin2) && after[k2].userId == second.value
                && AssignStep(after, pin2).1 == SetAvailable(after, k2, false);
      assert k2 != k;
      assert after[k2] == partners[k2];
    }
  }

  /** `assign_delivery_partner`. It is not called by any request handler of
      the service. */
  method AssignDeliveryPartner(db: Db, restaurantId: Id) returns (r: Option<Id>)
    requires db.Valid()
    modifies db`partners
    ensures db.Valid()
    ensures restaurantId !in db.restaurants ==> r.None? && db.partners == old(db.partners)
    ensures restaurantId in db.restaurants ==>
              (r, db.partners) == AssignStep(old(db.partners), db.restaurants[restaurantId].pinCode)
  {
    if restaurantId !in db.restaurants {
      return None;
    }
    var pinCode := db.restaurants[restaurantId].pinCode;
    var k := MatchIndex(db.partners, pinCode);
    if k == |db.partners| {
      return None;
    }
    db.partners := SetAvailable(db.partners, k, false);
    r := Some(db.partners[k].userId);
  }

  method ReleaseDeliveryPartner(db: Db, userId: Id)
    requires db.Valid()
    modifies db`partners
    ensures db.Valid()
    ensures db.partners == Release(old(db.partners), userId)
  {
    var k := PartnerIndex(db.partners, userId);
    if k < |db.partners| {
      db.partners := SetAvailable(db.partners, k, true);
    }
  }
}
