/**
 What overlapping confirmations do to donations. A confirmation writes the donation as it read it, marked; if the row
 has changed since, the write can take a payment back. This is the only way in which a donation's status moves
 backwards.
 */
module BillingOverwrites {
  import opened Common
  import opened Text
  import opened BillingDomain
  import Billing
  import opened BillingRuns
  import opened BillingRaces

  /** A row and a donation read from it earlier agree on the columns that no update writes. */
  predicate SameOrigin(row: Donation, d: Donation) {
    d.id == row.id && d.payer == row.payer && d.amount == row.amount && d.provider == row.provider
  }

  predicate RowFits(id: string, d: Donation) {
    d.id == id && AmountOk(d.amount) && d.status in {Pending, Succeeded, Failed}
  }

  ghost predicate RowsFit(ds: Billing.Donations) {
    forall id {:trigger ds[id]} {:trigger id in ds} :: id in ds ==> RowFits(id, ds[id])
  }

  predicate CallRead(ds: Billing.Donations, call: Call) {
    call.HasRead? ==> call.donation.id in ds && SameOrigin(ds[call.donation.id], call.donation)
  }

  ghost predicate OriginsStay(ds: Billing.Donations, ds': Billing.Donations) {
    forall id {:trigger ds[id]} {:trigger ds'[id]} {:trigger id in ds} ::
      id in ds ==> id in ds' && SameOrigin(ds[id], ds'[id])
  }

  /** Rows lie under their identifiers, and what calls have read was a row. */
  ghost predicate Fits(w: World) {
    && RowsFit(w.tables.donations)
    && forall i {:trigger CallRead(w.tables.donations, w.calls[i])} ::
         i in w.calls ==> CallRead(w.tables.donations, w.calls[i])
  }

  // ---------- The condition ----------

  /** The payment that a donation names once it has succeeded. */
  function PaymentAfter(d: Donation, answer: Billing.Confirmation): string {
    if d.status == Succeeded then d.paymentId else answer.paymentId
  }

  predicate Markable(d: Donation, answer: Billing.Confirmation) {
    if answer.succeeded then d.status == Succeeded || (d.status == Pending && TrimSpace(answer.paymentId) != "")
    else d.status == Failed || (d.status == Pending && TrimSpace(answer.failureReason) != "")
  }

  /** What the row has come to contradicts what the call is about to write. */
  predicate Contradicts(row: Donation, d: Donation, answer: Billing.Confirmation) {
    if answer.succeeded
    then row.status == Failed || (row.status == Succeeded && row.paymentId != PaymentAfter(d, answer))
    else row.status == Succeeded
  }

  /** The unique index lets the row have the payment. */
  predicate PaymentFree(ds: Billing.Donations, row: Donation, d: Donation, answer: Billing.Confirmation) {
    !Billing.PaymentTaken(ds, row.(paymentId := if answer.succeeded then PaymentAfter(d, answer) else d.paymentId))
  }

  /**
   A write that takes effect although the row, since the call read it, has succeeded and the call's payment was refused,
   has failed and it was accepted, or has succeeded with another payment.
   */
  predicate Overwrites(w: World, act: Act)
    requires Enabled(w, act)
  {
    && act.Write? && act.draw.answer.Some? && act.draw.commit.Applied()
    && var d, answer := w.calls[act.i].donation, act.draw.answer.value;
    && Markable(d, answer) && (answer.succeeded || act.draw.published)
    && d.id in w.tables.donations && Contradicts(w.tables.donations[d.id], d, answer)
    && PaymentFree(w.tables.donations, w.tables.donations[d.id], d, answer)
  }

  // ---------- Only such writes move a donation backwards ----------

  function MarkedAs(d: Donation, answer: Billing.Confirmation, now: Time): (m: Donation)
    requires Markable(d, answer)
    ensures m.id == d.id && m.amount == d.amount
  {
    (if answer.succeeded then MarkSucceeded(d, answer.paymentId, now)
     else MarkFailed(d, answer.failureReason, now)).value
  }

  /** The row after a write that takes effect. */
  function Written(row: Donation, d: Donation, answer: Billing.Confirmation, now: Time): Donation
    requires Markable(d, answer)
  {
    var m := MarkedAs(d, answer, now);
    row.(status := m.status, paymentId := m.paymentId, failureReason := m.failureReason, updatedAt := m.updatedAt)
  }

  predicate TakesEffect(ds: Billing.Donations, d: Donation, draw: Billing.ConfirmDraw) {
    && draw.answer.Some? && draw.commit.Applied() && d.id in ds && Markable(d, draw.answer.value)
    && (draw.answer.value.succeeded || draw.published) && PaymentFree(ds, ds[d.id], d, draw.answer.value)
  }

  lemma WriteEffect(t: Billing.Tables, d: Donation, k: Billing.KeyId, draw: Billing.ConfirmDraw)
    requires RowsFit(t.donations) && AmountOk(d.amount) && draw.ledgerId !in t.ledger
    ensures Billing.ConfirmWrite(t, d, k, draw).0.donations
         == if TakesEffect(t.donations, d, draw)
            then t.donations[d.id := Written(t.donations[d.id], d, draw.answer.value, draw.now)] else t.donations
  {
    if draw.answer.Some? && Markable(d, draw.answer.value) {
      var m := MarkedAs(d, draw.answer.value, draw.now);
      UpdateEffect(t, d, draw.answer.value, draw.now);
      if draw.answer.value.succeeded {
        PaidTxEffect(t, m, k, draw.ledgerId, draw.now);
      }
    }
  }

  lemma PaidTxEffect(t: Billing.Tables, m: Donation, k: Billing.KeyId, ledgerId: string, now: Time)
    requires AmountOk(m.amount) && ledgerId !in t.ledger
    ensures var tx, updated := Billing.ConfirmTx(t, m, k, ledgerId, now), Billing.UpdateDonation(t, m);
      && (tx.Ok? <==> updated.Ok?) && (tx.Ok? ==> tx.value.donations == updated.value.donations)
  {
  }

  lemma UpdateEffect(t: Billing.Tables, d: Donation, answer: Billing.Confirmation, now: Time)
    requires RowsFit(t.donations) && Markable(d, answer)
    ensures var updated := Billing.UpdateDonation(t, MarkedAs(d, answer, now));
      && (updated.Ok? <==> d.id in t.donations && PaymentFree(t.donations, t.donations[d.id], d, answer))
      && (updated.Ok? ==>
            updated.value == t.(donations := t.donations[d.id := Written(t.donations[d.id], d, answer, now)]))
  {
    if d.id in t.donations {
      SamePaymentTaken(t.donations, Written(t.donations[d.id], d, answer, now),
                       t.donations[d.id].(paymentId := MarkedAs(d, answer, now).paymentId));
    }
  }

  lemma SamePaymentTaken(ds: Billing.Donations, a: Donation, b: Donation)
    requires a.id == b.id && a.provider == b.provider && a.paymentId == b.paymentId
    ensures Billing.PaymentTaken(ds, a) <==> Billing.PaymentTaken(ds, b)
  {
  }

  lemma WrittenEvolvesExactly(row: Donation, d: Donation, answer: Billing.Confirmation, now: Time)
    requires Markable(d, answer) && RowFits(row.id, row)
    ensures DonationEvolves(row, Written(row, d, answer, now)) <==> !Contradicts(row, d, answer)
  {
  }

  lemma OneRowWritten(ds: Billing.Donations, id: string, row: Donation)
    requires RowsFit(ds) && id in ds && RowFits(id, row) && SameOrigin(ds[id], row)
    ensures RowsFit(ds[id := row]) && OriginsStay(ds, ds[id := row])
    ensures DonationsEvolve(ds, ds[id := row]) <==> DonationEvolves(ds[id], row)
  {
    assert ds[id := row][id] == row;
  }

  lemma WriteEvolvesExactly(w: World, i: int, draw: Billing.ConfirmDraw)
    requires Fits(w) && Enabled(w, Write(i, draw))
    ensures DonationsEvolve(w.tables.donations, Apply(w, Write(i, draw)).tables.donations)
       <==> !Overwrites(w, Write(i, draw))
    ensures RowsFit(Apply(w, Write(i, draw)).tables.donations)
    ensures OriginsStay(w.tables.donations, Apply(w, Write(i, draw)).tables.donations)
  {
    var ds, d := w.tables.donations, w.calls[i].donation;
    assert CallRead(ds, w.calls[i]);
    WriteEffect(w.tables, d, w.calls[i].key, draw);
    if TakesEffect(ds, d, draw) {
      WrittenEvolvesExactly(ds[d.id], d, draw.answer.value, draw.now);
      OneRowWritten(ds, d.id, Written(ds[d.id], d, draw.answer.value, draw.now));
    } else {
      KeptEvolve(ds, ds);
    }
  }

  /** The other calls only add donations. */
  lemma OtherAdds(t: Billing.Tables, step: Billing.Step)
    requires !step.Confirm? && Billing.Enabled(t, step) && RowsFit(t.donations)
    ensures RowsFit(Billing.Apply(t, step).donations) && Keeps(t.donations, Billing.Apply(t, step).donations)
  {
    match step
    case Intent(input, draw) => IntentAdds(t, input, draw);
    case NewBoostStep(input, draw) =>
      var made := BoostWrites(t, input, draw);
    case Purchase(input, draw) => PurchaseAdds(t, input, draw);
    case _ =>
  }

  /** `ds'` is `ds` with at most one more donation. */
  ghost predicate AddsOne(ds: Billing.Donations, ds': Billing.Donations) {
    ds' == ds || exists d: Donation :: d.id !in ds && RowFits(d.id, d) && ds' == ds[d.id := d]
  }

  lemma IntentAdds(t: Billing.Tables, input: Billing.IntentInput, draw: Billing.IntentDraw)
    ensures AddsOne(t.donations, Billing.CreateDonationIntent(t, input, draw).0.donations)
  {
    var d := IntentWrites(t, input, draw);
    if Billing.CreateDonationIntent(t, input, draw).0 != t {
      var t' := Billing.CreateDonationIntent(t, input, draw).0;
      assert RowFits(d.value.id, d.value) && t'.donations == t.donations[d.value.id := d.value];
    }
  }

  lemma PurchaseAdds(t: Billing.Tables, input: Billing.PurchaseInput, draw: Billing.PurchaseDraw)
    requires draw.ledgerId !in t.ledger
    ensures AddsOne(t.donations, Billing.PurchaseEntitlement(t, input, draw).0.donations)
  {
    var r := PurchaseMakes(t, input, draw);
    var t' := Billing.PurchaseEntitlement(t, input, draw).0;
    if t' != t {
      var (d, x) := r.value;
      PurchaseWrites(t, d, x, Billing.KeyId(Billing.PurchaseScope, TrimSpace(input.key)), draw.ledgerId, draw.now);
      assert RowFits(d.id, d) && t'.donations == t.donations[d.id := d];
    }
  }

  lemma TablesAfter(w: World, act: Act)
    requires Fits(w) && Enabled(w, act)
    ensures var ds, ds' := w.tables.donations, Apply(w, act).tables.donations;
      RowsFit(ds') && OriginsStay(ds, ds') && (DonationsEvolve(ds, ds') <==> !Overwrites(w, act))
  {
    match act
    case Write(i, draw) => WriteEvolvesExactly(w, i, draw);
    case Other(step) =>
      OtherAdds(w.tables, step);
      KeptEvolve(w.tables.donations, Billing.Apply(w.tables, step).donations);
    case _ => KeptEvolve(w.tables.donations, w.tables.donations);
  }

  lemma KeptEvolve(ds: Billing.Donations, ds': Billing.Donations)
    requires Keeps(ds, ds')
    ensures OriginsStay(ds, ds') && DonationsEvolve(ds, ds')
  {
  }

  lemma ReadStaysFit(w: World, act: Act, i: int)
    requires Fits(w) && Enabled(w, act) && OriginsStay(w.tables.donations, Apply(w, act).tables.donations)
    requires i in Apply(w, act).calls
    ensures CallRead(Apply(w, act).tables.donations, Apply(w, act).calls[i])
  {
    if i in w.calls {
      assert CallRead(w.tables.donations, w.calls[i]);
    }
  }

  /** Of all steps of any interleaving, exactly these writes do not let the donations evolve. */
  lemma ActEvolvesExactly(w: World, act: Act)
    requires Fits(w) && Enabled(w, act)
    ensures DonationsEvolve(w.tables.donations, Apply(w, act).tables.donations) <==> !Overwrites(w, act)
    ensures Fits(Apply(w, act))
  {
    TablesAfter(w, act);
    forall i | i in Apply(w, act).calls ensures CallRead(Apply(w, act).tables.donations, Apply(w, act).calls[i]) {
      ReadStaysFit(w, act, i);
    }
  }

  /** And such a write always finds another row than its call has read. */
  lemma OverwritesOnlyChanged(w: World, act: Act)
    requires Fits(w) && Enabled(w, act) && Overwrites(w, act)
    ensures act.Write? && w.tables.donations[w.calls[act.i].donation.id] != w.calls[act.i].donation
  {
  }

  predicate NeverOverwrites(w: World, acts: seq<Act>)
    requires IsRun(w, acts)
    decreases |acts|
  {
    acts == [] || (!Overwrites(w, acts[0]) && NeverOverwrites(Apply(w, acts[0]), acts[1..]))
  }

  /** At every step of the run the donations evolve. */
  ghost predicate AlwaysEvolves(w: World, acts: seq<Act>)
    requires IsRun(w, acts)
    decreases |acts|
  {
    acts == [] || (DonationsEvolve(w.tables.donations, Apply(w, acts[0]).tables.donations)
                   && AlwaysEvolves(Apply(w, acts[0]), acts[1..]))
  }

  lemma EvolveOn(a: Billing.Donations, b: Billing.Donations, c: Billing.Donations)
    requires DonationsEvolve(a, b) && DonationsEvolve(b, c)
    ensures DonationsEvolve(a, c)
  {
    forall id | id in a ensures id in c && DonationEvolves(a[id], c[id]) {
      assert id in b && DonationEvolves(a[id], b[id]);
    }
  }

  /**
   Over every interleaving of any number of confirmations with any other calls: donations only move forward, at every
   step and so from start to end, if and only if no write overwrites.
   */
  lemma {:induction false} DonationsEvolveExactly(w: World, acts: seq<Act>)
    requires Fits(w) && IsRun(w, acts)
    ensures Fits(Run(w, acts))
    ensures AlwaysEvolves(w, acts) <==> NeverOverwrites(w, acts)
    ensures NeverOverwrites(w, acts) ==> DonationsEvolve(w.tables.donations, Run(w, acts).tables.donations)
    decreases |acts|
  {
    if acts != [] {
      var w1 := Apply(w, acts[0]);
      ActEvolvesExactly(w, acts[0]);
      DonationsEvolveExactly(w1, acts[1..]);
      if NeverOverwrites(w, acts) {
        EvolveOn(w.tables.donations, w1.tables.donations, Run(w, acts).tables.donations);
      }
    }
  }

  /** Every reachable state is a start. */
  lemma FitsAtStart(t: Billing.Tables)
    requires Inv(t)
    ensures Fits(World(t, map[]))
  {
    forall id | id in t.donations ensures RowFits(id, t.donations[id]) {
      assert RowOk(t.donations[id]);
    }
  }

  // ---------- How a payment is taken back ----------

  lemma PaymentStaysFree(ds: Billing.Donations, d: Donation, paymentId: string)
    requires DonationRows(ds) && UniquePayments(ds) && d.id in ds && ds[d.id] == d && Free(ds, d.id, paymentId)
    ensures !Billing.PaymentTaken(ds, d) && !Billing.PaymentTaken(ds, d.(paymentId := paymentId))
  {
    forall other | other in ds && SamePayment(ds[other], d) ensures other == d.id {
      assert SamePayment(ds[other], ds[d.id]);
    }
  }

  lemma EntryStays(t: Billing.Tables, d: Donation, k: Billing.KeyId, draw: Billing.ConfirmDraw)
    requires RowsFit(t.donations) && AmountOk(d.amount) && draw.ledgerId !in t.ledger
    requires TakesEffect(t.donations, d, draw) && draw.answer.value.succeeded
    ensures var ledger := Billing.ConfirmWrite(t, d, k, draw).0.ledger;
      draw.ledgerId in ledger
      && ledger[draw.ledgerId] == Entry(draw.ledgerId, d.payer, d.amount, DonationSucceeded, d.id, draw.now)
      && forall id :: id in ledger ==> id in t.ledger || id == draw.ledgerId
  {
    var m := MarkedAs(d, draw.answer.value, draw.now);
    UpdateEffect(t, d, draw.answer.value, draw.now);
    PaidTxEffect(t, m, k, draw.ledgerId, draw.now);
  }

  /**
   Two confirmations have read one pending donation; one is accepted and commits, then the refusal of the other does.
   The donation ends as failed while the ledger keeps the entry for its payment.
   */
  lemma RefusalTakesPaymentBack(w: World, i: int, j: int, paid: Billing.ConfirmDraw, refused: Billing.ConfirmDraw)
    requires Inv(w.tables) && i != j && Enabled(w, Write(i, paid)) && Enabled(w, Write(j, refused))
    requires w.calls[i].donation == w.calls[j].donation && paid.ledgerId != refused.ledgerId
    requires var d := w.calls[i].donation;
      d.status == Pending && d.id in w.tables.donations && w.tables.donations[d.id] == d
    requires Pays(w.tables.donations, w.calls[i].donation.id, paid)
    requires refused.answer.Some? && !refused.answer.value.succeeded && refused.published && refused.commit.Applied()
    requires TrimSpace(refused.answer.value.failureReason) != ""
    ensures var d, w1 := w.calls[i].donation, Apply(w, Write(i, paid));
      && d.id in w1.tables.donations && w1.tables.donations[d.id].status == Succeeded
      && Enabled(w1, Write(j, refused)) && Overwrites(w1, Write(j, refused))
      && var t := Apply(w1, Write(j, refused)).tables;
      && d.id in t.donations && t.donations[d.id].status == Failed
      && paid.ledgerId in t.ledger && t.ledger[paid.ledgerId].reason == DonationSucceeded
      && t.ledger[paid.ledgerId].reference == d.id && !LedgerOk(t.donations, t.entitlements, t.ledger)
  {
    var d, w1 := w.calls[i].donation, Apply(w, Write(i, paid));
    FirstIsPaid(w.tables, d, w.calls[i].key, paid);
    assert Enabled(w1, Write(j, refused)) && w1.calls[j] == w.calls[j];
    ThenFails(w1.tables, d, w.calls[j].key, refused, paid.ledgerId);
  }

  lemma FirstIsPaid(t: Billing.Tables, d: Donation, k: Billing.KeyId, paid: Billing.ConfirmDraw)
    requires Inv(t) && d.status == Pending && d.id in t.donations && t.donations[d.id] == d
    requires Pays(t.donations, d.id, paid) && paid.ledgerId !in t.ledger
    ensures var t1 := Billing.ConfirmWrite(t, d, k, paid).0;
      && RowsFit(t1.donations) && d.id in t1.donations && t1.donations[d.id].status == Succeeded
      && !Billing.PaymentTaken(t1.donations, t1.donations[d.id].(paymentId := d.paymentId))
      && paid.ledgerId in t1.ledger && (forall id :: id in t1.ledger ==> id in t.ledger || id == paid.ledgerId)
      && t1.ledger[paid.ledgerId].reason == DonationSucceeded && t1.ledger[paid.ledgerId].reference == d.id
  {
    FitsAtStart(t);
    PaymentStaysFree(t.donations, d, paid.answer.value.paymentId);
    WriteEffect(t, d, k, paid);
    EntryStays(t, d, k, paid);
    var row := Written(d, d, paid.answer.value, paid.now);
    OneRowWritten(t.donations, d.id, row);
    assert Billing.PaymentTaken(t.donations[d.id := row], row.(paymentId := d.paymentId))
      ==> Billing.PaymentTaken(t.donations, d);
  }

  lemma ThenFails(t: Billing.Tables, d: Donation, k: Billing.KeyId, refused: Billing.ConfirmDraw, entry: string)
    requires RowsFit(t.donations) && AmountOk(d.amount) && refused.ledgerId !in t.ledger
    requires d.status == Pending && d.id in t.donations && t.donations[d.id].status == Succeeded
    requires !Billing.PaymentTaken(t.donations, t.donations[d.id].(paymentId := d.paymentId))
    requires refused.answer.Some? && !refused.answer.value.succeeded && refused.published && refused.commit.Applied()
    requires TrimSpace(refused.answer.value.failureReason) != ""
    requires entry in t.ledger && t.ledger[entry].reason == DonationSucceeded && t.ledger[entry].reference == d.id
    ensures TakesEffect(t.donations, d, refused)
    ensures var t' := Billing.ConfirmWrite(t, d, k, refused).0;
      && d.id in t'.donations && t'.donations[d.id].status == Failed
      && t'.ledger == t.ledger && !LedgerOk(t'.donations, t'.entitlements, t'.ledger)
  {
    WriteEffect(t, d, k, refused);
    var t' := Billing.ConfirmWrite(t, d, k, refused).0;
    assert t'.ledger == t.ledger;
    assert !EntryOk(t'.donations, t'.entitlements, t'.ledger[entry]);
  }
}
