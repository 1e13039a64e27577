/**
 What each billing call does to the tables and answers, as a function of the tables before it. A call is one atomic
 step; the payment provider's answers, the commit and the event publication may each fail.
 */
module Billing {
  import opened Common
  import opened Text
  import opened BillingDomain

  datatype Scope = IntentScope | ConfirmScope | BoostScope | PurchaseScope

  /** The hash of scope and trimmed key is injective, so the pair stands for it. */
  datatype KeyId = KeyId(scope: Scope, key: string)

  datatype Record = Record(resourceId: string, relatedId: string)

  type Donations = map<string, Donation>

  type Boosts = map<string, Boost>

  type Entitlements = map<string, Entitlement>

  type Ledger = map<string, Entry>

  type Keys = map<KeyId, Record>

  datatype Tables = Tables(
    donations: Donations,
    boosts: Boosts,
    entitlements: Entitlements,
    ledger: Ledger,
    keys: Keys,
    archived: set<string>)

  const EMPTY := Tables(map[], map[], map[], map[], map[], {})

  datatype Body =
    | DonationBody(donation: Donation)
    | NoBody
    | BoostBody(boost: Boost)
    | EntitlementBody(entitlement: Entitlement, paidBy: Donation)

  type Reply = Result<Body, Error>

  // ---------- Statements ----------

  /** The unique index on provider and payment id, which leaves out empty payment ids. */
  predicate PaymentTaken(donations: Donations, d: Donation) {
    d.paymentId != ""
    && exists id :: id in donations && id != d.id && donations[id].provider == d.provider
                    && donations[id].paymentId == d.paymentId
  }

  function InsertDonation(t: Tables, d: Donation): Result<Tables, Error> {
    if !AmountOk(d.amount) then Err(StorageFailure)
    else if d.id in t.donations || PaymentTaken(t.donations, d) then Err(Conflict)
    else Ok(t.(donations := t.donations[d.id := d]))
  }

  /** The update writes four columns of the row and no others. */
  function UpdateDonation(t: Tables, d: Donation): Result<Tables, Error> {
    if d.id !in t.donations then Err(NotFound)
    else
      var row := t.donations[d.id].(status := d.status, paymentId := d.paymentId, failureReason := d.failureReason,
                                    updatedAt := d.updatedAt);
      if PaymentTaken(t.donations, row.(id := d.id)) then Err(Conflict)
      else Ok(t.(donations := t.donations[d.id := row]))
  }

  function AddEntry(t: Tables, e: Entry): Result<Tables, Error> {
    if !AmountOk(e.amount) then Err(StorageFailure)
    else if e.id in t.ledger then Ok(t)
    else Ok(t.(ledger := t.ledger[e.id := e]))
  }

  function SaveKey(t: Tables, id: KeyId, record: Record): Tables {
    if id in t.keys then t else t.(keys := t.keys[id := record])
  }

  /** What a transaction leaves behind, and the error it reports. */
  function Commit(t: Tables, tx: Result<Tables, Error>, commit: Outcome): (Tables, Option<Error>) {
    match tx
    case Err(e) => (t, Some(e))
    case Ok(t') => (if commit.Applied() then t' else t, if commit.Reported() then None else Some(StorageFailure))
  }

  // ---------- CreateDonationIntent ----------

  datatype IntentInput = IntentInput(payer: string, targetType: TargetType, targetId: string, amount: Money,
                                     provider: string, key: string)

  /** `found` says whether the provider still knows the intent of a replayed call; `intent` is its new payment id. */
  datatype IntentDraw = IntentDraw(id: string, now: Time, found: bool, intent: Option<string>, commit: Outcome)

  function CreateDonationIntent(t: Tables, input: IntentInput, draw: IntentDraw): (Tables, Reply) {
    var key := KeyId(IntentScope, TrimSpace(input.key));
    if key.key == "" then (t, Err(Validation))
    else if key in t.keys then
      if t.keys[key].resourceId !in t.donations then (t, Err(NotFound))
      else if !draw.found then (t, Err(PaymentFailure))
      else (t, Ok(DonationBody(t.donations[t.keys[key].resourceId])))
    else
      match NewDonation(draw.id, TrimSpace(input.payer), input.targetType, TrimSpace(input.targetId), input.amount,
                        TrimSpace(input.provider), draw.now)
      case Err(e) => (t, Err(e))
      case Ok(d) =>
        if draw.intent.None? then (t, Err(PaymentFailure))
        else
          var donation := d.(paymentId := draw.intent.value);
          var (t', error) := Commit(t, IntentTx(t, donation, key), draw.commit);
          (t', if error.Some? then Err(error.value) else Ok(DonationBody(donation)))
  }

  function IntentTx(t: Tables, d: Donation, key: KeyId): Result<Tables, Error> {
    match InsertDonation(t, d)
    case Err(e) => Err(e)
    case Ok(t1) => Ok(SaveKey(t1, key, Record(d.id, "")))
  }

  // ---------- ConfirmDonation ----------

  datatype ConfirmInput = ConfirmInput(donationId: string, paymentId: string, key: string)

  datatype Confirmation = Confirmation(paymentId: string, succeeded: bool, failureReason: string)

  datatype ConfirmDraw = ConfirmDraw(ledgerId: string, now: Time, answer: Option<Confirmation>, commit: Outcome,
                                     published: bool)

  function ConfirmDonation(t: Tables, input: ConfirmInput, draw: ConfirmDraw): (Tables, Reply) {
    var key := KeyId(ConfirmScope, TrimSpace(input.key));
    if key.key == "" then (t, Err(Validation))
    else if key in t.keys then
      (t, if t.keys[key].resourceId in t.donations then Ok(DonationBody(t.donations[t.keys[key].resourceId]))
          else Err(NotFound))
    else if input.donationId !in t.donations then (t, Err(NotFound))
    else ConfirmWrite(t, t.donations[input.donationId], key, draw)
  }

  /** The rest of the call, once it has read the donation and found its key unused. */
  function ConfirmWrite(t: Tables, d: Donation, key: KeyId, draw: ConfirmDraw): (Tables, Reply) {
    if draw.answer.None? then (t, Err(PaymentFailure))
    else if !draw.answer.value.succeeded then
      match MarkFailed(d, draw.answer.value.failureReason, draw.now)
      case Err(e) => (t, Err(e))
      case Ok(failed) =>
        var (t', error) := Commit(t, FailTx(t, failed, draw.published), draw.commit);
        (t', if error.Some? then Err(error.value) else Ok(NoBody))
    else
      match MarkSucceeded(d, draw.answer.value.paymentId, draw.now)
      case Err(e) => (t, Err(e))
      case Ok(paid) =>
        var (t', error) := Commit(t, ConfirmTx(t, paid, key, draw.ledgerId, draw.now), draw.commit);
        (t', if error.Some? then Err(error.value)
             else if !draw.published then Err(PublishFailure)
             else Ok(DonationBody(paid)))
  }

  /**
   `persistFailedDonation`: the event is published inside the transaction, so a failed publication undoes the update.
   */
  function FailTx(t: Tables, d: Donation, published: bool): Result<Tables, Error> {
    var updated := UpdateDonation(t, d);
    if updated.Ok? && !published then Err(PublishFailure) else updated
  }

  function ConfirmTx(t: Tables, d: Donation, key: KeyId, ledgerId: string, now: Time): Result<Tables, Error> {
    match UpdateDonation(t, d)
    case Err(e) => Err(e)
    case Ok(t1) =>
      match AddEntry(t1, Entry(ledgerId, d.payer, d.amount, DonationSucceeded, d.id, now))
      case Err(e) => Err(e)
      case Ok(t2) => Ok(SaveKey(t2, key, Record(d.id, "")))
  }

  // ---------- CreateBoost and CancelBoost ----------

  datatype BoostInput = BoostInput(animalId: string, owner: string, donationId: string, duration: int, key: string)

  datatype BoostDraw = BoostDraw(id: string, now: Time, commit: Outcome, published: bool)

  function CreateBoost(t: Tables, input: BoostInput, draw: BoostDraw): (Tables, Reply) {
    var key := KeyId(BoostScope, TrimSpace(input.key));
    if key.key == "" then (t, Err(Validation))
    else if key in t.keys then
      (t, if t.keys[key].resourceId in t.boosts then Ok(BoostBody(t.boosts[t.keys[key].resourceId])) else Err(NotFound))
    else if input.animalId in t.archived then (t, Err(ArchivedAnimal))
    else if input.donationId !in t.donations then (t, Err(NotFound))
    else
      match NewBoost(draw.id, input.animalId, input.owner, input.donationId, t.donations[input.donationId].status,
                     input.duration, draw.now)
      case Err(e) => (t, Err(e))
      case Ok(boost) =>
        var tx := if boost.id in t.boosts then Err(Conflict)
                  else Ok(SaveKey(t.(boosts := t.boosts[boost.id := boost]), key, Record(boost.id, "")));
        var (t', error) := Commit(t, tx, draw.commit);
        (t', if error.Some? then Err(error.value)
             else if !draw.published then Err(PublishFailure)
             else Ok(BoostBody(boost)))
  }

  function CancelBoost(t: Tables, id: string, reason: string, now: Time, saved: Outcome): (Tables, Reply) {
    if id !in t.boosts then (t, Err(NotFound))
    else
      var boost := Cancel(t.boosts[id], reason, now);
      (if saved.Applied() then t.(boosts := t.boosts[id := boost]) else t,
       if saved.Reported() then Ok(BoostBody(boost)) else Err(StorageFailure))
  }

  // ---------- PurchaseEntitlement ----------

  datatype PurchaseInput = PurchaseInput(owner: string, kind: EntitlementType, resourceId: string, amount: Money,
                                         duration: int, key: string)

  /** `intent` and `confirmed` are the provider's two answers, `dbNow` the database's clock during a replay. */
  datatype PurchaseDraw = PurchaseDraw(donationId: string, entitlementId: string, ledgerId: string, now: Time,
                                       intent: Option<string>, confirmed: Option<bool>, dbNow: Time, commit: Outcome,
                                       published: bool)

  /** The replay of a purchase finds its entitlement only while it is active and unexpired and the owner is the same. */
  predicate Listed(e: Entitlement, owner: string, now: Time) {
    e.owner == owner && e.active && e.expiresAt > now
  }

  function PurchaseEntitlement(t: Tables, input: PurchaseInput, draw: PurchaseDraw): (Tables, Reply) {
    var key := KeyId(PurchaseScope, TrimSpace(input.key));
    if key.key == "" then (t, Err(Validation))
    else if key in t.keys then
      var record := t.keys[key];
      (t, if record.resourceId in t.entitlements && Listed(t.entitlements[record.resourceId], input.owner, draw.dbNow)
             && record.relatedId in t.donations
          then Ok(EntitlementBody(t.entitlements[record.resourceId], t.donations[record.relatedId])) else Err(NotFound))
    else
      match NewDonation(draw.donationId, input.owner, Shelter, input.owner, input.amount, "mock", draw.now)
      case Err(e) => (t, Err(e))
      case Ok(d) =>
        if draw.intent.None? || draw.confirmed.None? then (t, Err(PaymentFailure))
        else if !draw.confirmed.value then (t, Err(Validation))
        else
          match MarkSucceeded(d, draw.intent.value, draw.now)
          case Err(e) => (t, Err(e))
          case Ok(paid) =>
            match NewEntitlement(draw.entitlementId, input.owner, input.kind, input.resourceId, input.duration,
                                 draw.now)
            case Err(e) => (t, Err(e))
            case Ok(entitlement) =>
              var (t', error) := Commit(t, PurchaseTx(t, paid, entitlement, key, draw.ledgerId, draw.now), draw.commit);
              (t', if error.Some? then Err(error.value)
                   else if !draw.published then Err(PublishFailure)
                   else Ok(EntitlementBody(entitlement, paid)))
  }

  function PurchaseTx(t: Tables, d: Donation, e: Entitlement, key: KeyId, ledgerId: string, now: Time)
    : Result<Tables, Error>
  {
    match InsertDonation(t, d)
    case Err(error) => Err(error)
    case Ok(t1) =>
      if e.id in t1.entitlements then Err(Conflict)
      else
        var t2 := t1.(entitlements := t1.entitlements[e.id := e]);
        match AddEntry(t2, Entry(ledgerId, e.owner, d.amount, EntitlementPurchased, e.id, now))
        case Err(error) => Err(error)
        case Ok(t3) => Ok(SaveKey(t3, key, Record(e.id, d.id)))
  }

  // ---------- Runs ----------

  datatype Step =
    | Intent(intent: IntentInput, intentDraw: IntentDraw)
    | Confirm(confirm: ConfirmInput, confirmDraw: ConfirmDraw)
    | NewBoostStep(boost: BoostInput, boostDraw: BoostDraw)
    | CancelStep(boostId: string, reason: string, now: Time, saved: Outcome)
    | Purchase(purchase: PurchaseInput, purchaseDraw: PurchaseDraw)
    | ArchiveAnimal(animalId: string)

  /** The ledger insert ignores a conflict, so the two calls that book an entry need a fresh entry id. */
  predicate Enabled(t: Tables, step: Step) {
    match step
    case Confirm(_, draw) => draw.ledgerId !in t.ledger
    case Purchase(_, draw) => draw.ledgerId !in t.ledger
    case _ => true
  }

  function Apply(t: Tables, step: Step): Tables {
    match step
    case Intent(input, draw) => CreateDonationIntent(t, input, draw).0
    case Confirm(input, draw) => ConfirmDonation(t, input, draw).0
    case NewBoostStep(input, draw) => CreateBoost(t, input, draw).0
    case CancelStep(id, reason, now, saved) => CancelBoost(t, id, reason, now, saved).0
    case Purchase(input, draw) => PurchaseEntitlement(t, input, draw).0
    case ArchiveAnimal(id) => t.(archived := t.archived + {id})
  }

  predicate IsRun(t: Tables, steps: seq<Step>)
    decreases |steps|
  {
    steps == [] || (Enabled(t, steps[0]) && IsRun(Apply(t, steps[0]), steps[1..]))
  }

  function Run(t: Tables, steps: seq<Step>): Tables
    requires IsRun(t, steps)
    decreases |steps|
  {
    if steps == [] then t else Run(Apply(t, steps[0]), steps[1..])
  }
}
