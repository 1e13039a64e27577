/** The billing service's entities, with the constructors and status changes that validate them. */
module BillingDomain {
  import opened Common
  import opened Text

  datatype Error =
    | Validation | InvalidTransition | PaymentNotSucceeded | NotFound | Conflict | ArchivedAnimal | PaymentFailure
    | StorageFailure | PublishFailure

  datatype Money = Money(currency: string, units: int, nanos: int)

  datatype Status = Pending | Succeeded | Failed | Cancelled | Refunded

  datatype TargetType = TargetUnspecified | Shelter | Animal

  datatype Donation = Donation(
    id: string,
    payer: string,
    targetType: TargetType,
    targetId: string,
    amount: Money,
    status: Status,
    provider: string,
    paymentId: string,
    failureReason: string,
    createdAt: Time,
    updatedAt: Time)

  datatype Boost = Boost(
    id: string,
    animalId: string,
    owner: string,
    donationId: string,
    startsAt: Time,
    expiresAt: Time,
    active: bool,
    cancelReason: string,
    cancelledAt: Time)

  datatype EntitlementType = AdvancedFilters | ExtendedAnimalStats | AnimalBoost | UnknownEntitlement(name: string)

  datatype Entitlement = Entitlement(
    id: string,
    owner: string,
    kind: EntitlementType,
    resourceId: string,
    startsAt: Time,
    expiresAt: Time,
    active: bool)

  datatype Reason = DonationSucceeded | EntitlementPurchased

  datatype Entry = Entry(id: string, profile: string, amount: Money, reason: Reason, reference: string, createdAt: Time)

  /** The table constraints on an amount. */
  predicate AmountOk(m: Money) {
    m.units >= 0 && 0 <= m.nanos < 1_000_000_000 && (m.units > 0 || m.nanos > 0)
  }

  function NewDonation(id: string, payer: string, targetType: TargetType, targetId: string, amount: Money,
                       provider: string, now: Time): (r: Result<Donation, Error>)
    ensures r.Ok? ==> r.value.status == Pending && r.value.createdAt != ZERO_TIME && TrimSpace(r.value.id) != ""
    ensures r.Ok? ==> r.value.payer == payer && r.value.amount == amount && r.value.targetId == targetId
    ensures r.Ok? ==> r.value.paymentId == "" && r.value.failureReason == "" && r.value.updatedAt == now
  {
    if || TrimSpace(id) == "" || TrimSpace(payer) == "" || targetType == TargetUnspecified
       || TrimSpace(targetId) == "" || TrimSpace(provider) == "" || now == ZERO_TIME
    then Err(Validation)
    else Ok(Donation(id, payer, targetType, targetId, amount, Pending, provider, "", "", now, now))
  }

  /** Only a pending donation changes; marking one that has succeeded already is not an error. */
  function MarkSucceeded(d: Donation, paymentId: string, at: Time): Result<Donation, Error> {
    if d.status == Succeeded then Ok(d)
    else if d.status != Pending then Err(InvalidTransition)
    else if TrimSpace(paymentId) == "" then Err(Validation)
    else Ok(d.(status := Succeeded, paymentId := paymentId, updatedAt := at))
  }

  function MarkFailed(d: Donation, reason: string, at: Time): Result<Donation, Error> {
    if d.status == Failed then Ok(d)
    else if d.status != Pending then Err(InvalidTransition)
    else if TrimSpace(reason) == "" then Err(Validation)
    else Ok(d.(status := Failed, failureReason := reason, updatedAt := at))
  }

  /** 90 days in nanoseconds. */
  const MAX_BOOST: int := 7_776_000_000_000_000

  function NewBoost(id: string, animalId: string, owner: string, donationId: string, donationStatus: Status,
                    duration: int, now: Time): (r: Result<Boost, Error>)
    ensures r.Ok? ==> donationStatus == Succeeded && 0 < r.value.expiresAt - r.value.startsAt == duration <= MAX_BOOST
    ensures r.Ok? ==> r.value.animalId == animalId && r.value.owner == owner && r.value.donationId == donationId
  {
    if donationStatus != Succeeded then Err(PaymentNotSucceeded)
    else if TrimSpace(id) == "" || TrimSpace(animalId) == "" || TrimSpace(owner) == "" || TrimSpace(donationId) == ""
    then Err(Validation)
    else if duration <= 0 || duration > MAX_BOOST || now == ZERO_TIME then Err(Validation)
    else Ok(Boost(id, animalId, owner, donationId, now, now + duration, true, "", ZERO_TIME))
  }

  function Cancel(b: Boost, reason: string, at: Time): Boost {
    if b.active then b.(active := false, cancelReason := reason, cancelledAt := at) else b
  }

  function NewEntitlement(id: string, owner: string, kind: EntitlementType, resourceId: string, duration: int,
                          now: Time)
    : (r: Result<Entitlement, Error>)
    ensures r.Ok? ==> r.value.active && 0 < r.value.expiresAt - r.value.startsAt == duration
    ensures r.Ok? ==> r.value.owner == owner && r.value.kind == kind && r.value.resourceId == resourceId
  {
    if TrimSpace(id) == "" || TrimSpace(owner) == "" || kind.UnknownEntitlement? || duration <= 0 || now == ZERO_TIME
    then Err(Validation)
    else Ok(Entitlement(id, owner, kind, resourceId, now, now + duration, true))
  }
}
