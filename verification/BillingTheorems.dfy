/** What holds of every run of the billing service. */
module BillingTheorems {
  import opened Common
  import opened Text
  import opened BillingDomain
  import opened Billing
  import opened BillingRuns

  ghost predicate Reachable(t: Tables) {
    exists steps :: IsRun(EMPTY, steps) && Run(EMPTY, steps) == t
  }

  lemma ReachableInv(t: Tables)
    requires Reachable(t)
    ensures Inv(t)
  {
    EmptyInv();
    var steps :| IsRun(EMPTY, steps) && Run(EMPTY, steps) == t;
    RunKeeps(EMPTY, steps);
  }

  // ---------- Donations and the ledger ----------

  /** Over any run a donation keeps payer, amount and target, and its status moves at most from pending to an end. */
  lemma DonationsOnlyMoveForward(t: Tables, steps: seq<Step>, id: string)
    requires Reachable(t) && IsRun(t, steps) && id in t.donations
    ensures id in Run(t, steps).donations
    ensures var d, d' := t.donations[id], Run(t, steps).donations[id];
      && d'.payer == d.payer && d'.amount == d.amount && d'.targetId == d.targetId
      && d.status in {Pending, Succeeded, Failed} && d'.status in {Pending, Succeeded, Failed}
      && (d.status != Pending ==> d'.status == d.status)
  {
    ReachableInv(t);
    RunKeeps(t, steps);
    var t' := Run(t, steps);
    assert id in t'.donations && DonationEvolves(t.donations[id], t'.donations[id]);
    assert RowOk(t.donations[id]);
  }

  /** Over any run ledger entries, idempotency records and entitlements are only added. */
  lemma LedgerOnlyGrows(t: Tables, steps: seq<Step>)
    requires Reachable(t) && IsRun(t, steps)
    ensures var t' := Run(t, steps);
      Keeps(t.ledger, t'.ledger) && Keeps(t.keys, t'.keys) && Keeps(t.entitlements, t'.entitlements)
  {
    ReachableInv(t);
    RunKeeps(t, steps);
  }

  /** Every entry for a donation is backed by that donation, succeeded, with the entry's payer and amount. */
  lemma EntriesAreBacked(t: Tables, id: string)
    requires Reachable(t) && id in t.ledger
    ensures var e := t.ledger[id];
      && (e.reason == DonationSucceeded ==>
            && Paid(t.donations, e.reference)
            && t.donations[e.reference].payer == e.profile && t.donations[e.reference].amount == e.amount)
      && (e.reason == EntitlementPurchased ==>
          e.reference in t.entitlements && t.entitlements[e.reference].owner == e.profile)
  {
    ReachableInv(t);
    assert EntryOk(t.donations, t.entitlements, t.ledger[id]);
  }

  /** No money is lost: every succeeded donation is in the ledger, by its own entry or by its entitlement's. */
  lemma SucceededIsBooked(t: Tables, id: string)
    requires Reachable(t) && Paid(t.donations, id)
    ensures OwnEntry(t.ledger, t.donations[id]) || PurchaseEntry(t.ledger, t.keys, t.donations[id])
  {
    ReachableInv(t);
    assert Booked(t.ledger, t.keys, t.donations[id]);
  }

  /** Entries and idempotency records correspond in number, in all and for each donation or entitlement. */
  lemma EntriesMatchRecords(t: Tables, ref: Option<string>)
    requires Reachable(t)
    ensures |Entries(t.ledger, DonationSucceeded, ref)| == |Records(t.keys, ConfirmScope, ref)|
    ensures |Entries(t.ledger, EntitlementPurchased, ref)| == |Records(t.keys, PurchaseScope, ref)|
    ensures |Entries(t.ledger, EntitlementPurchased, None)| == |t.entitlements|
    ensures forall x :: x in t.entitlements ==> |Entries(t.ledger, EntitlementPurchased, Some(x))| == 1
  {
    ReachableInv(t);
  }

  /** Every boost was paid for. */
  lemma BoostsArePaid(t: Tables, id: string)
    requires Reachable(t) && id in t.boosts
    ensures Paid(t.donations, t.boosts[id].donationId)
  {
    ReachableInv(t);
  }

  /** One payment of a provider makes at most one donation succeed. */
  lemma OneDonationPerPayment(t: Tables, a: string, b: string)
    requires Reachable(t) && Paid(t.donations, a) && Paid(t.donations, b)
    requires t.donations[a].provider == t.donations[b].provider && t.donations[a].paymentId == t.donations[b].paymentId
    ensures a == b
  {
    ReachableInv(t);
    assert RowOk(t.donations[a]);
    assert SamePayment(t.donations[a], t.donations[b]);
  }

  /** A cancelled boost stays cancelled, with its first reason and time. */
  lemma CancelIsFinal(t: Tables, steps: seq<Step>, id: string)
    requires Reachable(t) && IsRun(t, steps) && id in t.boosts && !t.boosts[id].active
    ensures id in Run(t, steps).boosts && Run(t, steps).boosts[id] == t.boosts[id]
  {
    ReachableInv(t);
    RunKeeps(t, steps);
    assert id in Run(t, steps).boosts && BoostEvolves(t.boosts[id], Run(t, steps).boosts[id]);
  }

  // ---------- What a successful call leaves behind ----------

  /** A confirmation answered with a donation has stored it as paid, booked it under its payer and recorded its key. */
  lemma ConfirmRecords(t: Tables, input: ConfirmInput, draw: ConfirmDraw)
    requires Inv(t) && draw.ledgerId !in t.ledger && KeyId(ConfirmScope, TrimSpace(input.key)) !in t.keys
    requires ConfirmDonation(t, input, draw).1.Ok? && ConfirmDonation(t, input, draw).1.value.DonationBody?
    ensures var (t', reply) := ConfirmDonation(t, input, draw);
      var d := reply.value.donation;
      && ConfirmedBy(t', input.key, input.donationId)
      && Paid(t'.donations, input.donationId) && t'.donations[input.donationId] == d
      && t'.ledger == t.ledger[draw.ledgerId :=
           Entry(draw.ledgerId, d.payer, d.amount, DonationSucceeded, input.donationId, draw.now)]
  {
    var d := MarkSucceeded(t.donations[input.donationId], draw.answer.value.paymentId, draw.now).value;
    ConfirmTxRecords(t, d, KeyId(ConfirmScope, TrimSpace(input.key)), draw.ledgerId, draw.now);
  }

  lemma ConfirmTxRecords(t: Tables, d: Donation, k: KeyId, ledgerId: string, now: Time)
    requires DonationRows(t.donations) && UniquePayments(t.donations) && k !in t.keys && ledgerId !in t.ledger
    requires ConfirmTx(t, d, k, ledgerId, now).Ok? && DonationEvolves(t.donations[d.id], d) && RowOk(d)
    ensures ConfirmTx(t, d, k, ledgerId, now).value == t.(
      donations := t.donations[d.id := d],
      ledger := t.ledger[ledgerId := Entry(ledgerId, d.payer, d.amount, DonationSucceeded, d.id, now)],
      keys := t.keys[k := Record(d.id, "")])
  {
    UpdateWrites(t, d);
  }

  /** A purchase answered with an entitlement has stored it with its paid donation, one entry and one record. */
  lemma PurchaseRecords(t: Tables, input: PurchaseInput, draw: PurchaseDraw)
    requires Inv(t) && draw.ledgerId !in t.ledger && KeyId(PurchaseScope, TrimSpace(input.key)) !in t.keys
    requires PurchaseEntitlement(t, input, draw).1.Ok?
    ensures var (t', reply) := PurchaseEntitlement(t, input, draw);
      && reply.value.EntitlementBody?
      && var (x, d) := (reply.value.entitlement, reply.value.paidBy);
      && x.id !in t.entitlements && d.id !in t.donations && x.owner == d.payer == input.owner
      && d.status == Succeeded && d.amount == input.amount
      && t' == PurchaseRows(t, d, x, KeyId(PurchaseScope, TrimSpace(input.key)),
                            Entry(draw.ledgerId, input.owner, input.amount, EntitlementPurchased, x.id, draw.now))
  {
    var made := NewDonation(draw.donationId, input.owner, Shelter, input.owner, input.amount, "mock", draw.now).value;
    var d := MarkSucceeded(made, draw.intent.value, draw.now).value;
    var x :=
      NewEntitlement(draw.entitlementId, input.owner, input.kind, input.resourceId, input.duration, draw.now).value;
    PurchaseWrites(t, d, x, KeyId(PurchaseScope, TrimSpace(input.key)), draw.ledgerId, draw.now);
  }

  // ---------- Replays ----------

  /** A confirmation that was committed, even if publishing its event then failed. */
  predicate ConfirmedBy(t: Tables, key: string, donationId: string) {
    KeyId(ConfirmScope, TrimSpace(key)) in t.keys
    && t.keys[KeyId(ConfirmScope, TrimSpace(key))].resourceId == donationId
  }

  /** Whatever has happened since, a repeated confirmation changes nothing and answers with the same paid donation. */
  lemma ConfirmReplay(t: Tables, key: string, donationId: string, between: seq<Step>, input: ConfirmInput,
                      draw: ConfirmDraw)
    requires Reachable(t) && TrimSpace(key) != "" && ConfirmedBy(t, key, donationId)
    requires IsRun(t, between) && TrimSpace(input.key) == TrimSpace(key)
    ensures Paid(t.donations, donationId)
    ensures var t' := Run(t, between);
      var (after, reply) := ConfirmDonation(t', input, draw);
      && after == t' && reply.Ok? && reply.value.DonationBody?
      && reply.value.donation.id == donationId && reply.value.donation.status == Succeeded
      && reply.value.donation.payer == t.donations[donationId].payer
      && reply.value.donation.amount == t.donations[donationId].amount
  {
    ReachableInv(t);
    var k := KeyId(ConfirmScope, TrimSpace(key));
    assert KeyOk(t.donations, t.boosts, t.entitlements, k.scope, t.keys[k]);
    RunKeeps(t, between);
    var t' := Run(t, between);
    assert k in t'.keys && t'.keys[k] == t.keys[k];
    PaidStays(t.donations, t'.donations, donationId);
    assert t'.donations[donationId].id == donationId;
  }

  /** A repeated boost changes nothing and answers with the boost of the first call, cancelled or not. */
  lemma BoostReplay(t: Tables, key: string, between: seq<Step>, input: BoostInput, draw: BoostDraw)
    requires Reachable(t) && TrimSpace(key) != "" && KeyId(BoostScope, TrimSpace(key)) in t.keys
    requires IsRun(t, between) && TrimSpace(input.key) == TrimSpace(key)
    ensures var id := t.keys[KeyId(BoostScope, TrimSpace(key))].resourceId;
      var (after, reply) := CreateBoost(Run(t, between), input, draw);
      && id in t.boosts && after == Run(t, between)
      && reply.Ok? && reply.value.BoostBody? && BoostEvolves(t.boosts[id], reply.value.boost)
  {
    ReachableInv(t);
    var k := KeyId(BoostScope, TrimSpace(key));
    assert KeyOk(t.donations, t.boosts, t.entitlements, k.scope, t.keys[k]);
    RunKeeps(t, between);
    var t' := Run(t, between);
    assert k in t'.keys && t'.keys[k] == t.keys[k];
    var id := t.keys[k].resourceId;
    assert id in t'.boosts && BoostEvolves(t.boosts[id], t'.boosts[id]);
  }

  /**
   A repeated intent changes nothing; while the provider knows the payment it answers with the donation of the first
   call, whatever has become of it.
   */
  lemma IntentReplayExactly(t: Tables, key: string, between: seq<Step>, input: IntentInput, draw: IntentDraw)
    requires Reachable(t) && TrimSpace(key) != "" && KeyId(IntentScope, TrimSpace(key)) in t.keys
    requires IsRun(t, between) && TrimSpace(input.key) == TrimSpace(key)
    ensures var id := t.keys[KeyId(IntentScope, TrimSpace(key))].resourceId;
      var (after, reply) := CreateDonationIntent(Run(t, between), input, draw);
      && id in t.donations && after == Run(t, between)
      && (reply.Ok? <==> draw.found)
      && (reply.Ok? ==> reply.value.DonationBody? && DonationEvolves(t.donations[id], reply.value.donation))
  {
    ReachableInv(t);
    var k := KeyId(IntentScope, TrimSpace(key));
    assert KeyOk(t.donations, t.boosts, t.entitlements, k.scope, t.keys[k]);
    RunKeeps(t, between);
    var t' := Run(t, between);
    assert k in t'.keys && t'.keys[k] == t.keys[k];
    var id := t.keys[k].resourceId;
    assert id in t'.donations && DonationEvolves(t.donations[id], t'.donations[id]);
  }

  /**
   A repeated purchase changes nothing; it answers with the entitlement exactly while the caller is its owner and it has
   not expired, and with "not found" afterwards.
   */
  lemma PurchaseReplayExactly(t: Tables, key: string, between: seq<Step>, input: PurchaseInput, draw: PurchaseDraw)
    requires Reachable(t) && TrimSpace(key) != "" && KeyId(PurchaseScope, TrimSpace(key)) in t.keys
    requires IsRun(t, between) && TrimSpace(input.key) == TrimSpace(key)
    ensures var record := t.keys[KeyId(PurchaseScope, TrimSpace(key))];
      && record.resourceId in t.entitlements && Paid(t.donations, record.relatedId)
      && var x := t.entitlements[record.resourceId];
      var (after, reply) := PurchaseEntitlement(Run(t, between), input, draw);
      && after == Run(t, between)
      && (reply.Ok? <==> x.owner == input.owner && x.active && draw.dbNow < x.expiresAt)
      && (reply.Ok? ==> reply.value.EntitlementBody? && reply.value.entitlement == x
                        && reply.value.paidBy.id == record.relatedId && reply.value.paidBy.status == Succeeded)
      && (reply.Err? ==> reply.error == NotFound)
  {
    ReachableInv(t);
    var k := KeyId(PurchaseScope, TrimSpace(key));
    assert KeyOk(t.donations, t.boosts, t.entitlements, k.scope, t.keys[k]);
    RunKeeps(t, between);
    var t' := Run(t, between);
    assert k in t'.keys && t'.keys[k] == t.keys[k];
    var x := t.keys[k].resourceId;
    assert x in t'.entitlements && t'.entitlements[x] == t.entitlements[x];
    PaidStays(t.donations, t'.donations, t.keys[k].relatedId);
    assert t'.donations[t.keys[k].relatedId].id == t.keys[k].relatedId;
  }

  // ---------- Refused payments ----------

  /**
   A payment that the provider refuses is answered without an error and without a donation, exactly when the refusal
   could be stored and published; the donation is then failed.
   */
  lemma RefusalAnsweredExactly(t: Tables, input: ConfirmInput, draw: ConfirmDraw)
    requires Inv(t)
    ensures var key := KeyId(ConfirmScope, TrimSpace(input.key));
      ConfirmDonation(t, input, draw).1 == Ok(NoBody)
      <==> && key.key != "" && key !in t.keys && input.donationId in t.donations
           && draw.answer.Some? && !draw.answer.value.succeeded
           && Refusable(t.donations[input.donationId], draw.answer.value.failureReason)
           && draw.published && draw.commit == Done
  {
    if input.donationId in t.donations && draw.answer.Some? {
      var d := t.donations[input.donationId];
      var failed := MarkFailed(d, draw.answer.value.failureReason, draw.now);
      OwnPaymentFree(t.donations, d.id);
      if failed.Ok? {
        assert UpdateDonation(t, failed.value).Ok? by { FailedPaymentFree(t.donations, d.id, failed.value); }
      }
    }
  }

  predicate Refusable(d: Donation, reason: string) {
    d.status == Failed || (d.status == Pending && TrimSpace(reason) != "")
  }

  lemma OwnPaymentFree(ds: Donations, id: string)
    requires DonationRows(ds) && UniquePayments(ds) && id in ds
    ensures !PaymentTaken(ds, ds[id])
  {
    forall other | other in ds && SamePayment(ds[other], ds[id]) ensures other == id {
    }
  }

  lemma FailedPaymentFree(ds: Donations, id: string, failed: Donation)
    requires DonationRows(ds) && id in ds && !PaymentTaken(ds, ds[id])
    requires failed.id == id && failed.provider == ds[id].provider && failed.paymentId == ds[id].paymentId
    ensures !PaymentTaken(ds, failed)
  {
  }

  /** It books nothing and records nothing, so that the key stays free for another attempt. */
  lemma RefusalRecordsNothing(t: Tables, input: ConfirmInput, draw: ConfirmDraw)
    requires Inv(t) && ConfirmDonation(t, input, draw).1 == Ok(NoBody)
    ensures var t' := ConfirmDonation(t, input, draw).0;
      && t'.keys == t.keys && t'.ledger == t.ledger && t'.boosts == t.boosts && t'.entitlements == t.entitlements
      && input.donationId in t'.donations && t'.donations[input.donationId].status == Failed
  {
    RefusalAnsweredExactly(t, input, draw);
    var d := t.donations[input.donationId];
    var failed := MarkFailed(d, draw.answer.value.failureReason, draw.now).value;
    assert UpdateDonation(t, failed).Ok?;
  }

  predicate PaidAnswer(answer: Option<Confirmation>) {
    answer.Some? && answer.value.succeeded
  }

  /** A confirmation's record is made by a confirmation with its key, and by no other call. */
  lemma {:induction false} RecordComesFromItsCall(t: Tables, steps: seq<Step>, key: string)
    requires IsRun(t, steps) && KeyId(ConfirmScope, key) !in t.keys && KeyId(ConfirmScope, key) in Run(t, steps).keys
    ensures exists i :: 0 <= i < |steps| && steps[i].Confirm? && TrimSpace(steps[i].confirm.key) == key
                        && PaidAnswer(steps[i].confirmDraw.answer)
    decreases |steps|
  {
    var t1 := Apply(t, steps[0]);
    if KeyId(ConfirmScope, key) in t1.keys {
      RecordedAtOnce(t, steps[0], key);
    } else {
      RecordComesFromItsCall(t1, steps[1..], key);
      var i :| 0 <= i < |steps[1..]| && steps[1..][i].Confirm? && TrimSpace(steps[1..][i].confirm.key) == key
               && PaidAnswer(steps[1..][i].confirmDraw.answer);
      assert steps[i + 1] == steps[1..][i];
    }
  }

  /** So after a refusal the key stays unrecorded until another confirmation with it is paid. */
  lemma RefusalStaysUnrecorded(t: Tables, input: ConfirmInput, draw: ConfirmDraw, steps: seq<Step>)
    requires Inv(t) && ConfirmDonation(t, input, draw).1 == Ok(NoBody)
    requires IsRun(ConfirmDonation(t, input, draw).0, steps)
    requires forall i :: 0 <= i < |steps| && steps[i].Confirm? ==>
      TrimSpace(steps[i].confirm.key) != TrimSpace(input.key) || !PaidAnswer(steps[i].confirmDraw.answer)
    ensures KeyId(ConfirmScope, TrimSpace(input.key)) !in Run(ConfirmDonation(t, input, draw).0, steps).keys
  {
    var t1 := ConfirmDonation(t, input, draw).0;
    RefusalAnsweredExactly(t, input, draw);
    RefusalRecordsNothing(t, input, draw);
    if KeyId(ConfirmScope, TrimSpace(input.key)) in Run(t1, steps).keys {
      RecordComesFromItsCall(t1, steps, TrimSpace(input.key));
    }
  }

  lemma RecordedAtOnce(t: Tables, step: Step, key: string)
    requires KeyId(ConfirmScope, key) !in t.keys && KeyId(ConfirmScope, key) in Apply(t, step).keys
    ensures step.Confirm? && TrimSpace(step.confirm.key) == key
    ensures PaidAnswer(step.confirmDraw.answer)
  {
    var k := KeyId(ConfirmScope, key);
    match step
    case Confirm(input, draw) => ConfirmKey(t, input, draw, k);
    case Intent(input, draw) => IntentKey(t, input, draw, k);
    case NewBoostStep(input, draw) => BoostKey(t, input, draw, k);
    case Purchase(input, draw) => PurchaseKey(t, input, draw, k);
    case _ =>
  }

  lemma ConfirmKey(t: Tables, input: ConfirmInput, draw: ConfirmDraw, k: KeyId)
    ensures k in ConfirmDonation(t, input, draw).0.keys && k !in t.keys ==>
      k == KeyId(ConfirmScope, TrimSpace(input.key)) && PaidAnswer(draw.answer)
  {
  }

  lemma IntentKey(t: Tables, input: IntentInput, draw: IntentDraw, k: KeyId)
    ensures k in CreateDonationIntent(t, input, draw).0.keys && k !in t.keys ==> k.scope == IntentScope
  {
    var d := IntentWrites(t, input, draw);
  }

  lemma BoostKey(t: Tables, input: BoostInput, draw: BoostDraw, k: KeyId)
    ensures k in CreateBoost(t, input, draw).0.keys && k !in t.keys ==> k.scope == BoostScope
  {
    var made := BoostWrites(t, input, draw);
  }

  lemma PurchaseKey(t: Tables, input: PurchaseInput, draw: PurchaseDraw, k: KeyId)
    ensures k in PurchaseEntitlement(t, input, draw).0.keys && k !in t.keys ==> k.scope == PurchaseScope
  {
    var r := PurchaseMakes(t, input, draw);
    if PurchaseEntitlement(t, input, draw).0 != t {
      var (d, x) := r.value;
      PurchaseTxKey(t, d, x, KeyId(PurchaseScope, TrimSpace(input.key)), draw.ledgerId, draw.now);
    }
  }

  lemma PurchaseTxKey(t: Tables, d: Donation, x: Entitlement, k: KeyId, ledgerId: string, now: Time)
    requires PurchaseTx(t, d, x, k, ledgerId, now).Ok? && k !in t.keys
    ensures PurchaseTx(t, d, x, k, ledgerId, now).value.keys == t.keys[k := Record(x.id, d.id)]
  {
  }
}
