/** When each billing call is accepted, and what an accepted call leaves behind, in the terms of its input. */
module BillingOutcomes {
  import opened Common
  import opened Text
  import opened BillingDomain
  import opened Billing
  import opened BillingRuns

  predicate Filled(s: string) {
    TrimSpace(s) != ""
  }

  /** An amount that the tables take: not negative, with less than a whole unit in nanos, and not nothing. */
  predicate Positive(m: Money) {
    m.units >= 0 && 0 <= m.nanos < 1_000_000_000 && m.units * 1_000_000_000 + m.nanos > 0
  }

  /** No other donation has this payment of the provider; payments without a name do not clash. */
  predicate Unpaid(ds: Donations, id: string, provider: string, paymentId: string) {
    paymentId == "" || forall other :: other in ds && other != id ==> !(ds[other].provider == provider
                                                                       && ds[other].paymentId == paymentId)
  }

  predicate Unused(t: Tables, key: KeyId) {
    key.key != "" && key !in t.keys
  }

  lemma UnpaidIsFree(ds: Donations, d: Donation)
    ensures PaymentTaken(ds, d) <==> !Unpaid(ds, d.id, d.provider, d.paymentId)
  {
  }

  // ---------- Intents ----------

  predicate IntentFits(t: Tables, input: IntentInput, draw: IntentDraw) {
    && Filled(input.payer) && input.targetType != TargetUnspecified && Filled(input.targetId) && Filled(input.provider)
    && Positive(input.amount) && Filled(draw.id) && draw.now != ZERO_TIME && draw.id !in t.donations
    && draw.intent.Some? && Unpaid(t.donations, draw.id, TrimSpace(input.provider), draw.intent.value)
  }

  function IntendedDonation(input: IntentInput, draw: IntentDraw): Donation
    requires draw.intent.Some?
  {
    Donation(draw.id, TrimSpace(input.payer), input.targetType, TrimSpace(input.targetId), input.amount, Pending,
             TrimSpace(input.provider), draw.intent.value, "", draw.now, draw.now)
  }

  /**
   Under an unused key an intent is answered exactly when it fits and commits, with the pending donation asked for.
   */
  lemma IntendedExactly(t: Tables, input: IntentInput, draw: IntentDraw)
    requires Unused(t, KeyId(IntentScope, TrimSpace(input.key)))
    ensures var (t', reply) := CreateDonationIntent(t, input, draw);
      && (reply.Ok? <==> IntentFits(t, input, draw) && draw.commit == Done)
      && (reply.Ok? ==> reply.value == DonationBody(IntendedDonation(input, draw)))
      && t' == if IntentFits(t, input, draw) && draw.commit.Applied()
               then t.(donations := t.donations[draw.id := IntendedDonation(input, draw)],
                       keys := t.keys[KeyId(IntentScope, TrimSpace(input.key)) := Record(draw.id, "")])
               else t
  {
    TrimSpaceFixed(TrimSpace(input.payer));
    TrimSpaceFixed(TrimSpace(input.targetId));
    TrimSpaceFixed(TrimSpace(input.provider));
    if draw.intent.Some? {
      UnpaidIsFree(t.donations, IntendedDonation(input, draw));
    }
  }

  /** Why an intent under an unused key is refused. */
  lemma IntentRefusal(t: Tables, input: IntentInput, draw: IntentDraw)
    requires Unused(t, KeyId(IntentScope, TrimSpace(input.key))) && CreateDonationIntent(t, input, draw).1.Err?
    ensures var error := CreateDonationIntent(t, input, draw).1.error;
      var valid := && Filled(input.payer) && input.targetType != TargetUnspecified && Filled(input.targetId)
                   && Filled(input.provider) && Filled(draw.id) && draw.now != ZERO_TIME;
      error == if !valid then Validation
               else if draw.intent.None? then PaymentFailure
               else if Positive(input.amount) && !IntentFits(t, input, draw) then Conflict
               else StorageFailure
  {
    TrimSpaceFixed(TrimSpace(input.payer));
    TrimSpaceFixed(TrimSpace(input.targetId));
    TrimSpaceFixed(TrimSpace(input.provider));
    if draw.intent.Some? {
      UnpaidIsFree(t.donations, IntendedDonation(input, draw));
    }
  }

  // ---------- Confirmations ----------

  /** The provider has accepted the payment, and the donation can take it. */
  predicate ConfirmFits(t: Tables, input: ConfirmInput, draw: ConfirmDraw) {
    && input.donationId in t.donations && draw.answer.Some? && draw.answer.value.succeeded
    && var d := t.donations[input.donationId];
    || d.status == Succeeded
    || (d.status == Pending && Filled(draw.answer.value.paymentId)
        && Unpaid(t.donations, d.id, d.provider, draw.answer.value.paymentId))
  }

  function PaidDonation(d: Donation, draw: ConfirmDraw): Donation
    requires draw.answer.Some?
  {
    if d.status == Succeeded then d
    else d.(status := Succeeded, paymentId := draw.answer.value.paymentId, updatedAt := draw.now)
  }

  /** Under an unused key a confirmation is answered with a donation exactly when it fits, commits and is published. */
  lemma ConfirmedExactly(t: Tables, input: ConfirmInput, draw: ConfirmDraw)
    requires Inv(t) && draw.ledgerId !in t.ledger && Unused(t, KeyId(ConfirmScope, TrimSpace(input.key)))
    ensures var (t', reply) := ConfirmDonation(t, input, draw);
      && (reply.Ok? && reply.value.DonationBody? <==>
            ConfirmFits(t, input, draw) && draw.commit == Done && draw.published)
      && (ConfirmFits(t, input, draw) ==>
            var d := PaidDonation(t.donations[input.donationId], draw);
            && (reply.Ok? ==> reply.value == DonationBody(d))
            && (draw.commit.Applied() ==>
                  t' == t.(donations := t.donations[d.id := d],
                           ledger := t.ledger[draw.ledgerId :=
                             Entry(draw.ledgerId, d.payer, d.amount, DonationSucceeded, d.id, draw.now)],
                           keys := t.keys[KeyId(ConfirmScope, TrimSpace(input.key)) := Record(d.id, "")])))
      && (!ConfirmFits(t, input, draw) ==> t'.ledger == t.ledger && t'.keys == t.keys)
  {
    if input.donationId in t.donations && draw.answer.Some? {
      var d, k := t.donations[input.donationId], KeyId(ConfirmScope, TrimSpace(input.key));
      assert RowOk(d);
      if draw.answer.value.succeeded {
        if d.status == Succeeded {
          OwnPayment(t.donations, d);
        }
        PaymentMarked(d, draw);
        PaymentStored(t, d, PaidDonation(d, draw), k, draw.ledgerId, draw.now);
      } else {
        RefusalBooksNothing(t, d, k, draw);
      }
    }
  }

  lemma PaymentMarked(d: Donation, draw: ConfirmDraw)
    requires draw.answer.Some?
    ensures var marked := MarkSucceeded(d, draw.answer.value.paymentId, draw.now);
      && (marked.Ok? <==> d.status == Succeeded || (d.status == Pending && Filled(draw.answer.value.paymentId)))
      && (marked.Ok? ==> marked.value == PaidDonation(d, draw))
  {
  }

  lemma RefusalBooksNothing(t: Tables, d: Donation, k: KeyId, draw: ConfirmDraw)
    requires draw.answer.Some? && !draw.answer.value.succeeded
    ensures var (t', reply) := ConfirmWrite(t, d, k, draw);
      t'.ledger == t.ledger && t'.keys == t.keys && !(reply.Ok? && reply.value.DonationBody?)
  {
  }

  lemma PaymentStored(t: Tables, d: Donation, paid: Donation, k: KeyId, ledgerId: string, now: Time)
    requires k !in t.keys && ledgerId !in t.ledger && d.id in t.donations && t.donations[d.id] == d
        && AmountOk(d.amount)
    requires paid == d.(status := paid.status, paymentId := paid.paymentId, updatedAt := paid.updatedAt)
    ensures var tx := ConfirmTx(t, paid, k, ledgerId, now);
      && (tx.Ok? <==> Unpaid(t.donations, d.id, d.provider, paid.paymentId))
      && (tx.Ok? ==> tx.value == t.(donations := t.donations[d.id := paid], keys := t.keys[k := Record(d.id, "")],
            ledger := t.ledger[ledgerId := Entry(ledgerId, d.payer, d.amount, DonationSucceeded, d.id, now)]))
  {
    UnpaidIsFree(t.donations, paid);
    assert t.donations[d.id].(status := paid.status, paymentId := paid.paymentId, failureReason := paid.failureReason,
                              updatedAt := paid.updatedAt).(id := paid.id) == paid;
  }

  /** The provider has refused the payment, and the donation can be marked failed. */
  predicate RefusalFits(t: Tables, input: ConfirmInput, draw: ConfirmDraw) {
    && input.donationId in t.donations && draw.answer.Some? && !draw.answer.value.succeeded && draw.published
    && var d := t.donations[input.donationId];
       d.status == Failed || (d.status == Pending && Filled(draw.answer.value.failureReason))
  }

  /** A refused payment marks its donation failed, with the provider's reason and the time, and touches nothing else. */
  lemma RefusedExactly(t: Tables, input: ConfirmInput, draw: ConfirmDraw)
    requires Inv(t) && Unused(t, KeyId(ConfirmScope, TrimSpace(input.key)))
    requires draw.answer.Some? && !draw.answer.value.succeeded
    ensures var (t', reply) := ConfirmDonation(t, input, draw);
      && (reply == Ok(NoBody) <==> RefusalFits(t, input, draw) && draw.commit == Done)
      && t' == if RefusalFits(t, input, draw) && draw.commit.Applied()
               then t.(donations :=
                       t.donations[input.donationId := FailedDonation(t.donations[input.donationId], draw)])
               else t
  {
    if input.donationId in t.donations {
      var d := t.donations[input.donationId];
      assert RowOk(d);
      OwnPayment(t.donations, d);
      RefusalStored(t, d, draw);
    }
  }

  function FailedDonation(d: Donation, draw: ConfirmDraw): Donation
    requires draw.answer.Some?
  {
    if d.status == Failed then d
    else d.(status := Failed, failureReason := draw.answer.value.failureReason, updatedAt := draw.now)
  }

  lemma RefusalStored(t: Tables, d: Donation, draw: ConfirmDraw)
    requires d.id in t.donations && t.donations[d.id] == d && Unpaid(t.donations, d.id, d.provider, d.paymentId)
    requires draw.answer.Some?
    ensures UpdateDonation(t, FailedDonation(d, draw))
        == Ok(t.(donations := t.donations[d.id := FailedDonation(d, draw)]))
  {
    var failed := FailedDonation(d, draw);
    UnpaidIsFree(t.donations, failed);
    assert t.donations[d.id].(status := failed.status, paymentId := failed.paymentId,
                              failureReason := failed.failureReason,
                              updatedAt := failed.updatedAt).(id := failed.id) == failed;
  }

  /** Why a confirmation under an unused key is an error. */
  lemma ConfirmRefusal(t: Tables, input: ConfirmInput, draw: ConfirmDraw)
    requires Inv(t) && draw.ledgerId !in t.ledger && Unused(t, KeyId(ConfirmScope, TrimSpace(input.key)))
    requires ConfirmDonation(t, input, draw).1.Err?
    ensures var error := ConfirmDonation(t, input, draw).1.error;
      if input.donationId !in t.donations then error == NotFound
      else if draw.answer.None? then error == PaymentFailure
      else
        var status, answer := t.donations[input.donationId].status, draw.answer.value;
        if status != Pending && (status == Succeeded) != answer.succeeded then error == InvalidTransition
        else if status == Pending && !Filled(if answer.succeeded then answer.paymentId else answer.failureReason)
        then error == Validation
        else if answer.succeeded && !ConfirmFits(t, input, draw) then error == Conflict
        else if !answer.succeeded && !draw.published then error == PublishFailure
        else error == if draw.commit != Done then StorageFailure else PublishFailure
  {
    if input.donationId in t.donations && draw.answer.Some? {
      var d, k := t.donations[input.donationId], KeyId(ConfirmScope, TrimSpace(input.key));
      assert RowOk(d);
      OwnPayment(t.donations, d);
      if draw.answer.value.succeeded {
        PaymentMarked(d, draw);
        PaymentStored(t, d, PaidDonation(d, draw), k, draw.ledgerId, draw.now);
        OnlyConflicts(t, d, PaidDonation(d, draw), k, draw.ledgerId, draw.now);
      } else {
        RefusalStored(t, d, draw);
      }
    }
  }

  lemma OnlyConflicts(t: Tables, d: Donation, paid: Donation, k: KeyId, ledgerId: string, now: Time)
    requires d.id in t.donations && t.donations[d.id] == d && AmountOk(d.amount) && paid.id == d.id
    requires paid.amount == d.amount
    ensures ConfirmTx(t, paid, k, ledgerId, now).Err? ==> ConfirmTx(t, paid, k, ledgerId, now).error == Conflict
  {
  }

  lemma OwnPayment(ds: Donations, d: Donation)
    requires DonationRows(ds) && UniquePayments(ds) && d.id in ds && ds[d.id] == d
    ensures Unpaid(ds, d.id, d.provider, d.paymentId)
  {
    forall other | other in ds && SamePayment(ds[other], ds[d.id]) ensures other == d.id {
    }
  }

  // ---------- Boosts ----------

  predicate BoostFits(t: Tables, input: BoostInput, draw: BoostDraw) {
    && input.animalId !in t.archived && input.donationId in t.donations
    && t.donations[input.donationId].status == Succeeded
    && Filled(input.animalId) && Filled(input.owner) && Filled(input.donationId)
    && 0 < input.duration <= 90 * 24 * 3_600_000_000_000
    && Filled(draw.id) && draw.now != ZERO_TIME && draw.id !in t.boosts
  }

  function BoostAsked(input: BoostInput, draw: BoostDraw): Boost {
    Boost(draw.id, input.animalId, input.owner, input.donationId, draw.now, draw.now + input.duration, true, "",
          ZERO_TIME)
  }

  /**
   Under an unused key a boost is granted exactly when it fits, commits and is published: active for the time asked.
   */
  lemma BoostedExactly(t: Tables, input: BoostInput, draw: BoostDraw)
    requires Unused(t, KeyId(BoostScope, TrimSpace(input.key)))
    ensures var (t', reply) := CreateBoost(t, input, draw);
      && (reply.Ok? <==> BoostFits(t, input, draw) && draw.commit == Done && draw.published)
      && (reply.Ok? ==> reply.value == BoostBody(BoostAsked(input, draw)))
      && (reply == Err(ArchivedAnimal) <==> input.animalId in t.archived)
      && (reply == Err(PaymentNotSucceeded) <==>
            && input.animalId !in t.archived && input.donationId in t.donations
            && t.donations[input.donationId].status != Succeeded)
      && t' == if BoostFits(t, input, draw) && draw.commit.Applied()
               then t.(boosts := t.boosts[draw.id := BoostAsked(input, draw)],
                       keys := t.keys[KeyId(BoostScope, TrimSpace(input.key)) := Record(draw.id, "")])
               else t
  {
    if input.donationId in t.donations {
      BoostBuilt(input, draw, t.donations[input.donationId].status);
    }
  }

  lemma BoostBuilt(input: BoostInput, draw: BoostDraw, status: Status)
    ensures var boost :=
        NewBoost(draw.id, input.animalId, input.owner, input.donationId, status, input.duration, draw.now);
      && (boost.Ok? <==> && status == Succeeded && Filled(input.animalId) && Filled(input.owner)
                         && Filled(input.donationId) && 0 < input.duration <= 90 * 24 * 3_600_000_000_000
                         && Filled(draw.id) && draw.now != ZERO_TIME)
      && (boost.Ok? ==> boost.value == BoostAsked(input, draw))
      && (boost == Err(PaymentNotSucceeded) <==> status != Succeeded)
      && (boost.Err? ==> boost.error in {PaymentNotSucceeded, Validation})
  {
  }

  lemma StepArchives(t: Tables, step: Step)
    ensures Apply(t, step).archived == t.archived + if step.ArchiveAnimal? then {step.animalId} else {}
  {
    match step
    case Intent(input, draw) => var d := IntentWrites(t, input, draw);
    case NewBoostStep(input, draw) => var made := BoostWrites(t, input, draw);
    case Purchase(input, draw) => PurchaseArchivesNothing(t, input, draw);
    case Confirm(input, draw) => ConfirmArchivesNothing(t, input, draw);
    case _ =>
  }

  lemma PurchaseArchivesNothing(t: Tables, input: PurchaseInput, draw: PurchaseDraw)
    ensures PurchaseEntitlement(t, input, draw).0.archived == t.archived
  {
    var r := PurchaseMakes(t, input, draw);
  }

  lemma ConfirmArchivesNothing(t: Tables, input: ConfirmInput, draw: ConfirmDraw)
    ensures ConfirmDonation(t, input, draw).0.archived == t.archived
  {
  }

  /**
   Over every run the archived animals are those archived before and those of its archivings, so none is boosted again.
   */
  lemma {:induction false} ArchivedExactly(t: Tables, steps: seq<Step>, animalId: string)
    requires IsRun(t, steps)
    ensures animalId in Run(t, steps).archived <==>
      animalId in t.archived || exists i :: 0 <= i < |steps| && steps[i] == ArchiveAnimal(animalId)
    decreases |steps|
  {
    if steps != [] {
      StepArchives(t, steps[0]);
      ArchivedExactly(Apply(t, steps[0]), steps[1..], animalId);
      if i :| 0 <= i < |steps| && steps[i] == ArchiveAnimal(animalId) {
        assert i > 0 ==> steps[1..][i - 1] == steps[i];
      }
      if j :| 0 <= j < |steps[1..]| && steps[1..][j] == ArchiveAnimal(animalId) {
        assert steps[j + 1] == steps[1..][j];
      }
    }
  }

  /** Why else a boost under an unused key is refused. */
  lemma BoostRefusal(t: Tables, input: BoostInput, draw: BoostDraw)
    requires Unused(t, KeyId(BoostScope, TrimSpace(input.key))) && CreateBoost(t, input, draw).1.Err?
    ensures var error := CreateBoost(t, input, draw).1.error;
      error == if input.animalId in t.archived then ArchivedAnimal
               else if input.donationId !in t.donations then NotFound
               else if t.donations[input.donationId].status != Succeeded then PaymentNotSucceeded
               else if BoostFits(t, input, draw) then (if draw.commit != Done then StorageFailure else PublishFailure)
               else if draw.id in t.boosts && BoostFits(t.(boosts := map[]), input, draw) then Conflict
               else Validation
  {
    if input.donationId in t.donations {
      BoostBuilt(input, draw, t.donations[input.donationId].status);
    }
  }

  /**
   A cancellation is answered exactly for a stored boost when the statement is; an active one it ends, with its reason.
   */
  lemma CancelledExactly(t: Tables, id: string, reason: string, now: Time, saved: Outcome)
    ensures var (t', reply) := CancelBoost(t, id, reason, now, saved);
      && (reply.Ok? <==> id in t.boosts && saved == Done)
      && (reply == Err(NotFound) <==> id !in t.boosts)
      && (id in t.boosts ==>
            var b := if t.boosts[id].active
                     then t.boosts[id].(active := false, cancelReason := reason, cancelledAt := now) else t.boosts[id];
            && (reply.Ok? ==> reply.value == BoostBody(b))
            && t' == if saved.Applied() then t.(boosts := t.boosts[id := b]) else t)
      && (id !in t.boosts ==> t' == t)
  {
  }

  // ---------- Purchases ----------

  /** The provider has both taken the payment and confirmed it, and everything can be stored. */
  predicate PurchaseFits(t: Tables, input: PurchaseInput, draw: PurchaseDraw) {
    && Filled(input.owner) && !input.kind.UnknownEntitlement? && input.duration > 0 && Positive(input.amount)
    && Filled(draw.donationId) && Filled(draw.entitlementId) && draw.now != ZERO_TIME
    && draw.intent.Some? && Filled(draw.intent.value) && draw.confirmed == Some(true)
    && draw.donationId !in t.donations && draw.entitlementId !in t.entitlements
    && Unpaid(t.donations, draw.donationId, "mock", draw.intent.value)
  }

  function PurchaseDonation(input: PurchaseInput, draw: PurchaseDraw): Donation
    requires draw.intent.Some?
  {
    Donation(draw.donationId, input.owner, Shelter, input.owner, input.amount, Succeeded, "mock", draw.intent.value, "",
             draw.now, draw.now)
  }

  function EntitlementAsked(input: PurchaseInput, draw: PurchaseDraw): Entitlement {
    Entitlement(draw.entitlementId, input.owner, input.kind, input.resourceId, draw.now, draw.now + input.duration,
                true)
  }

  function TablesWithPurchase(t: Tables, input: PurchaseInput, draw: PurchaseDraw): Tables
    requires draw.intent.Some?
  {
    t.(donations := t.donations[draw.donationId := PurchaseDonation(input, draw)],
       entitlements := t.entitlements[draw.entitlementId := EntitlementAsked(input, draw)],
       ledger := t.ledger[draw.ledgerId := Entry(draw.ledgerId, input.owner, input.amount, EntitlementPurchased,
                                                draw.entitlementId, draw.now)],
       keys := t.keys[KeyId(PurchaseScope, TrimSpace(input.key)) := Record(draw.entitlementId, draw.donationId)])
  }

  /**
   Under an unused key a purchase is answered with its entitlement exactly when the provider confirmed the payment, the
   input is valid, the rows fit, and commit and publication succeed; and it changes the tables only then.
   */
  lemma PurchasedExactly(t: Tables, input: PurchaseInput, draw: PurchaseDraw)
    requires draw.ledgerId !in t.ledger && Unused(t, KeyId(PurchaseScope, TrimSpace(input.key)))
    ensures var (t', reply) := PurchaseEntitlement(t, input, draw);
      && (reply.Ok? <==> PurchaseFits(t, input, draw) && draw.commit == Done && draw.published)
      && (reply.Ok? ==> reply.value == EntitlementBody(EntitlementAsked(input, draw), PurchaseDonation(input, draw)))
      && t' == if PurchaseFits(t, input, draw) && draw.commit.Applied() then TablesWithPurchase(t, input, draw) else t
  {
    if PurchaseValid(input, draw) {
      PurchaseStored(t, input, draw);
      PurchaseCommits(t, input, draw);
    } else {
      PurchaseInvalid(t, input, draw);
    }
  }

  /** All that a purchase checks before its transaction. */
  predicate PurchaseValid(input: PurchaseInput, draw: PurchaseDraw) {
    && Filled(input.owner) && !input.kind.UnknownEntitlement? && input.duration > 0
    && Filled(draw.donationId) && Filled(draw.entitlementId) && draw.now != ZERO_TIME
    && draw.intent.Some? && Filled(draw.intent.value) && draw.confirmed == Some(true)
  }

  /** The payment and the entitlement that the call builds before its transaction. */
  lemma PurchaseBuilt(input: PurchaseInput, draw: PurchaseDraw)
    ensures var made := NewDonation(draw.donationId, input.owner, Shelter, input.owner, input.amount, "mock", draw.now);
      var x := NewEntitlement(draw.entitlementId, input.owner, input.kind, input.resourceId, input.duration, draw.now);
      && (made.Ok? <==> Filled(draw.donationId) && Filled(input.owner) && draw.now != ZERO_TIME)
      && (made.Ok? && draw.intent.Some? ==>
            var paid := MarkSucceeded(made.value, draw.intent.value, draw.now);
            && (paid.Ok? <==> Filled(draw.intent.value))
            && (paid.Ok? ==> paid.value == PurchaseDonation(input, draw)))
      && (x.Ok? <==> && Filled(draw.entitlementId) && Filled(input.owner) && !input.kind.UnknownEntitlement?
                     && input.duration > 0 && draw.now != ZERO_TIME)
      && (x.Ok? ==> x.value == EntitlementAsked(input, draw))
  {
  }

  lemma PurchaseInvalid(t: Tables, input: PurchaseInput, draw: PurchaseDraw)
    requires Unused(t, KeyId(PurchaseScope, TrimSpace(input.key))) && !PurchaseValid(input, draw)
    ensures PurchaseEntitlement(t, input, draw).0 == t && PurchaseEntitlement(t, input, draw).1.Err?
  {
    PurchaseBuilt(input, draw);
  }

  lemma PurchaseCommits(t: Tables, input: PurchaseInput, draw: PurchaseDraw)
    requires Unused(t, KeyId(PurchaseScope, TrimSpace(input.key))) && PurchaseValid(input, draw)
    ensures var (t', reply) := PurchaseEntitlement(t, input, draw);
      var (tx, error) := Commit(t, PurchaseTx(t, PurchaseDonation(input, draw), EntitlementAsked(input, draw),
                                              KeyId(PurchaseScope, TrimSpace(input.key)), draw.ledgerId, draw.now),
                                draw.commit);
      && t' == tx && (reply.Ok? <==> error.None? && draw.published)
      && (reply.Ok? ==> reply.value == EntitlementBody(EntitlementAsked(input, draw), PurchaseDonation(input, draw)))
  {
    PurchaseBuilt(input, draw);
  }

  lemma PurchaseStored(t: Tables, input: PurchaseInput, draw: PurchaseDraw)
    requires draw.ledgerId !in t.ledger && Unused(t, KeyId(PurchaseScope, TrimSpace(input.key))) && draw.intent.Some?
    ensures var tx := PurchaseTx(t, PurchaseDonation(input, draw), EntitlementAsked(input, draw),
                                 KeyId(PurchaseScope, TrimSpace(input.key)), draw.ledgerId, draw.now);
      && (tx.Ok? <==> && Positive(input.amount) && draw.donationId !in t.donations
                      && Unpaid(t.donations, draw.donationId, "mock", draw.intent.value)
                      && draw.entitlementId !in t.entitlements)
      && (tx.Ok? ==> tx.value == TablesWithPurchase(t, input, draw))
  {
    UnpaidIsFree(t.donations, PurchaseDonation(input, draw));
  }

  /** Why a purchase under an unused key is refused. */
  lemma PurchaseRefusal(t: Tables, input: PurchaseInput, draw: PurchaseDraw)
    requires draw.ledgerId !in t.ledger && Unused(t, KeyId(PurchaseScope, TrimSpace(input.key)))
    requires PurchaseEntitlement(t, input, draw).1.Err?
    ensures var error := PurchaseEntitlement(t, input, draw).1.error;
      error == if !Filled(draw.donationId) || !Filled(input.owner) || draw.now == ZERO_TIME then Validation
               else if draw.intent.None? || draw.confirmed.None? then PaymentFailure
               else if !PurchaseValid(input, draw) then Validation
               else if PurchaseFits(t, input, draw)
                 then (if draw.commit != Done then StorageFailure else PublishFailure)
               else if Positive(input.amount) then Conflict
               else StorageFailure
  {
    PurchaseBuilt(input, draw);
    if draw.intent.Some? {
      PurchaseStored(t, input, draw);
      PurchaseConflicts(t, input, draw);
    }
  }

  lemma PurchaseConflicts(t: Tables, input: PurchaseInput, draw: PurchaseDraw)
    requires draw.intent.Some?
    ensures var tx := PurchaseTx(t, PurchaseDonation(input, draw), EntitlementAsked(input, draw),
                                 KeyId(PurchaseScope, TrimSpace(input.key)), draw.ledgerId, draw.now);
      tx.Err? ==> tx.error == if Positive(input.amount) then Conflict else StorageFailure
  {
  }

  /** A payment that the provider refuses buys nothing. */
  lemma RefusedPurchase(t: Tables, input: PurchaseInput, draw: PurchaseDraw)
    requires draw.ledgerId !in t.ledger && Unused(t, KeyId(PurchaseScope, TrimSpace(input.key)))
    requires draw.confirmed != Some(true)
    ensures PurchaseEntitlement(t, input, draw).0 == t && PurchaseEntitlement(t, input, draw).1.Err?
  {
    PurchasedExactly(t, input, draw);
  }

  // ---------- Blank and repeated keys ----------

  /** Without a key every call is refused, and changes nothing. */
  lemma KeylessRefused(t: Tables, intent: IntentInput, i: IntentDraw, confirm: ConfirmInput, c: ConfirmDraw,
                       boost: BoostInput, b: BoostDraw, purchase: PurchaseInput, p: PurchaseDraw)
    ensures TrimSpace(intent.key) == "" ==> CreateDonationIntent(t, intent, i) == (t, Err(Validation))
    ensures TrimSpace(confirm.key) == "" ==> ConfirmDonation(t, confirm, c) == (t, Err(Validation))
    ensures TrimSpace(boost.key) == "" ==> CreateBoost(t, boost, b) == (t, Err(Validation))
    ensures TrimSpace(purchase.key) == "" ==> PurchaseEntitlement(t, purchase, p) == (t, Err(Validation))
  {
  }

  /** A repeated intent is answered with the key's donation exactly while the provider knows the payment. */
  lemma IntentRepeated(t: Tables, input: IntentInput, draw: IntentDraw)
    requires Inv(t) && TrimSpace(input.key) != "" && KeyId(IntentScope, TrimSpace(input.key)) in t.keys
    ensures var id := t.keys[KeyId(IntentScope, TrimSpace(input.key))].resourceId;
      && id in t.donations
      && CreateDonationIntent(t, input, draw)
         == (t, if draw.found then Ok(DonationBody(t.donations[id])) else Err(PaymentFailure))
  {
    KeyNames(t, KeyId(IntentScope, TrimSpace(input.key)));
  }

  lemma KeyNames(t: Tables, k: KeyId)
    requires Inv(t) && k in t.keys
    ensures KeyOk(t.donations, t.boosts, t.entitlements, k.scope, t.keys[k])
  {
  }

  /** A repeated confirmation is answered with the key's donation, a repeated boost with the key's boost. */
  lemma ConfirmAndBoostRepeated(t: Tables, confirm: ConfirmInput, c: ConfirmDraw, boost: BoostInput, b: BoostDraw)
    requires Inv(t)
    ensures var key := KeyId(ConfirmScope, TrimSpace(confirm.key));
      key.key != "" && key in t.keys ==>
        && t.keys[key].resourceId in t.donations
        && ConfirmDonation(t, confirm, c) == (t, Ok(DonationBody(t.donations[t.keys[key].resourceId])))
    ensures var key := KeyId(BoostScope, TrimSpace(boost.key));
      key.key != "" && key in t.keys ==>
        && t.keys[key].resourceId in t.boosts
        && CreateBoost(t, boost, b) == (t, Ok(BoostBody(t.boosts[t.keys[key].resourceId])))
  {
    var confirmKey := KeyId(ConfirmScope, TrimSpace(confirm.key));
    var boostKey := KeyId(BoostScope, TrimSpace(boost.key));
    if confirmKey in t.keys {
      KeyNames(t, confirmKey);
    }
    if boostKey in t.keys {
      KeyNames(t, boostKey);
    }
  }

  /** A repeated purchase is answered exactly while its entitlement is the caller's, active and not expired. */
  lemma PurchaseRepeated(t: Tables, input: PurchaseInput, draw: PurchaseDraw)
    requires Inv(t) && TrimSpace(input.key) != "" && KeyId(PurchaseScope, TrimSpace(input.key)) in t.keys
    ensures var record := t.keys[KeyId(PurchaseScope, TrimSpace(input.key))];
      && record.resourceId in t.entitlements && record.relatedId in t.donations
      && var x := t.entitlements[record.resourceId];
         PurchaseEntitlement(t, input, draw)
         == (t, if x.owner == input.owner && x.active && draw.dbNow < x.expiresAt
                then Ok(EntitlementBody(x, t.donations[record.relatedId])) else Err(NotFound))
  {
    KeyNames(t, KeyId(PurchaseScope, TrimSpace(input.key)));
  }

  // ---------- Where paid donations and entitlements come from ----------

  /** The step is a purchase, confirmed by the provider, of this very entitlement. */
  predicate Buys(step: Step, x: Entitlement) {
    && step.Purchase? && step.purchaseDraw.confirmed == Some(true) && step.purchaseDraw.commit.Applied()
    && x == EntitlementAsked(step.purchase, step.purchaseDraw)
  }

  /** The step is one in which the provider accepted a payment for the donation. */
  predicate PaysFor(step: Step, id: string) {
    || (&& step.Confirm? && step.confirm.donationId == id && step.confirmDraw.answer.Some?
        && step.confirmDraw.answer.value.succeeded && step.confirmDraw.commit.Applied())
    || (&& step.Purchase? && step.purchaseDraw.donationId == id && step.purchaseDraw.confirmed == Some(true)
        && step.purchaseDraw.commit.Applied())
  }

  predicate HadBefore(t: Tables, id: string, x: Entitlement) {
    id in t.entitlements && t.entitlements[id] == x
  }

  lemma StepBuys(t: Tables, step: Step, id: string)
    requires Enabled(t, step) && id in Apply(t, step).entitlements
    ensures HadBefore(t, id, Apply(t, step).entitlements[id]) || Buys(step, Apply(t, step).entitlements[id])
  {
    match step
    case Purchase(input, draw) =>
      if Unused(t, KeyId(PurchaseScope, TrimSpace(input.key))) {
        PurchasedExactly(t, input, draw);
      }
    case _ => OthersGrantNothing(t, step);
  }

  lemma OthersGrantNothing(t: Tables, step: Step)
    requires !step.Purchase?
    ensures Apply(t, step).entitlements == t.entitlements
  {
    match step
    case Intent(input, draw) => IntentGrantsNothing(t, input, draw);
    case Confirm(input, draw) => ConfirmGrantsNothing(t, input, draw);
    case NewBoostStep(input, draw) => BoostGrantsNothing(t, input, draw);
    case _ =>
  }

  lemma IntentGrantsNothing(t: Tables, input: IntentInput, draw: IntentDraw)
    ensures CreateDonationIntent(t, input, draw).0.entitlements == t.entitlements
  {
    var d := IntentWrites(t, input, draw);
  }

  lemma ConfirmGrantsNothing(t: Tables, input: ConfirmInput, draw: ConfirmDraw)
    ensures ConfirmDonation(t, input, draw).0.entitlements == t.entitlements
  {
  }

  lemma BoostGrantsNothing(t: Tables, input: BoostInput, draw: BoostDraw)
    ensures CreateBoost(t, input, draw).0.entitlements == t.entitlements
  {
    var made := BoostWrites(t, input, draw);
  }

  /** Over every run, each entitlement there is was there before, or is that of a purchase the provider confirmed. */
  lemma {:induction false} EntitlementsWereConfirmed(t: Tables, steps: seq<Step>, id: string)
    requires IsRun(t, steps) && id in Run(t, steps).entitlements
    ensures HadBefore(t, id, Run(t, steps).entitlements[id])
         || exists i :: 0 <= i < |steps| && Buys(steps[i], Run(t, steps).entitlements[id])
    decreases |steps|
  {
    if steps != [] {
      var t1, x := Apply(t, steps[0]), Run(t, steps).entitlements[id];
      EntitlementsWereConfirmed(t1, steps[1..], id);
      if HadBefore(t1, id, x) {
        StepBuys(t, steps[0], id);
      } else {
        var i :| 0 <= i < |steps[1..]| && Buys(steps[1..][i], x);
        assert steps[i + 1] == steps[1..][i];
      }
    }
  }

  lemma StepPays(t: Tables, step: Step, id: string)
    requires Inv(t) && Enabled(t, step) && Paid(Apply(t, step).donations, id)
    ensures Paid(t.donations, id) || PaysFor(step, id)
  {
    match step
    case Purchase(input, draw) => PurchasePays(t, input, draw, id);
    case Intent(input, draw) => var d := IntentWrites(t, input, draw);
    case NewBoostStep(input, draw) => var made := BoostWrites(t, input, draw);
    case Confirm(input, draw) => ConfirmPays(t, input, draw, id);
    case _ =>
  }

  lemma PurchasePays(t: Tables, input: PurchaseInput, draw: PurchaseDraw, id: string)
    requires draw.ledgerId !in t.ledger && Paid(PurchaseEntitlement(t, input, draw).0.donations, id)
    ensures Paid(t.donations, id) || PaysFor(Purchase(input, draw), id)
  {
    if Unused(t, KeyId(PurchaseScope, TrimSpace(input.key))) {
      PurchasedExactly(t, input, draw);
    }
  }

  lemma ConfirmPays(t: Tables, input: ConfirmInput, draw: ConfirmDraw, id: string)
    requires Inv(t) && draw.ledgerId !in t.ledger && Paid(ConfirmDonation(t, input, draw).0.donations, id)
    ensures Paid(t.donations, id) || PaysFor(Confirm(input, draw), id)
  {
    var marked := ConfirmWrites(t, input, draw);
    if ConfirmDonation(t, input, draw).0 != t {
      assert RowOk(t.donations[input.donationId]);
    }
  }

  /**
   And each succeeded donation had succeeded before, or owes it to a step in which the provider accepted a payment.
   */
  lemma {:induction false} PaidWasAccepted(t: Tables, steps: seq<Step>, id: string)
    requires Inv(t) && IsRun(t, steps) && Paid(Run(t, steps).donations, id)
    ensures Paid(t.donations, id) || exists i :: 0 <= i < |steps| && PaysFor(steps[i], id)
    decreases |steps|
  {
    if steps != [] {
      StepKeeps(t, steps[0]);
      PaidWasAccepted(Apply(t, steps[0]), steps[1..], id);
      if Paid(Apply(t, steps[0]).donations, id) {
        StepPays(t, steps[0], id);
      } else {
        var i :| 0 <= i < |steps[1..]| && PaysFor(steps[1..][i], id);
        assert steps[i + 1] == steps[1..][i];
      }
    }
  }
}
