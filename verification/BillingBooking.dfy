/** How often a donation is booked, and exactly which step books it a second time. */
module BillingBooking {
  import opened Common
  import opened Text
  import opened BillingDomain
  import opened Billing
  import opened BillingRuns
  import opened BillingTheorems

  // ---------- The bookings of a donation ----------

  /** A purchase of the referenced entitlement was paid with the donation. */
  ghost predicate PaysFor(keys: Keys, reference: string, donationId: string) {
    exists k :: k in keys && k.scope == PurchaseScope && keys[k] == Record(reference, donationId)
  }

  ghost predicate BooksFor(keys: Keys, e: Entry, donationId: string) {
    match e.reason
    case DonationSucceeded => e.reference == donationId
    case EntitlementPurchased => PaysFor(keys, e.reference, donationId)
  }

  /** The ledger entries of a donation: its own and those of the entitlements it paid for. */
  ghost function Bookings(ledger: Ledger, keys: Keys, donationId: string): set<string> {
    set id | id in ledger && BooksFor(keys, ledger[id], donationId)
  }

  /** In every reachable state the booked donations are exactly the succeeded ones. */
  lemma BookedExactlyWhenPaid(t: Tables, id: string)
    requires Inv(t)
    ensures Bookings(t.ledger, t.keys, id) != {} <==> Paid(t.donations, id)
  {
    if Paid(t.donations, id) {
      PaidHasBooking(t, id);
    } else if e :| e in Bookings(t.ledger, t.keys, id) {
      BookingIsPaid(t, e, id);
    }
  }

  lemma BookingIsPaid(t: Tables, e: string, id: string)
    requires Inv(t) && e in t.ledger && BooksFor(t.keys, t.ledger[e], id)
    ensures Paid(t.donations, id)
  {
    assert EntryOk(t.donations, t.entitlements, t.ledger[e]);
    if t.ledger[e].reason == EntitlementPurchased {
      var k :| k in t.keys && k.scope == PurchaseScope && t.keys[k] == Record(t.ledger[e].reference, id);
      assert KeyOk(t.donations, t.boosts, t.entitlements, k.scope, t.keys[k]);
    }
  }

  lemma PaidHasBooking(t: Tables, id: string)
    requires Inv(t) && Paid(t.donations, id)
    ensures Bookings(t.ledger, t.keys, id) != {}
  {
    var d := t.donations[id];
    assert Booked(t.ledger, t.keys, d);
    if OwnEntry(t.ledger, d) {
      var e :| e in t.ledger && t.ledger[e].reason == DonationSucceeded && t.ledger[e].reference == d.id;
      assert e in Bookings(t.ledger, t.keys, id);
    } else {
      var k, e :| k in t.keys && e in t.ledger && k.scope == PurchaseScope && t.keys[k].relatedId == d.id
        && t.ledger[e].reason == EntitlementPurchased && t.ledger[e].reference == t.keys[k].resourceId
        && t.ledger[e].profile == d.payer && t.ledger[e].amount == d.amount;
      assert PaysFor(t.keys, t.ledger[e].reference, id);
      assert e in Bookings(t.ledger, t.keys, id);
    }
  }

  /** Entries and records are never taken away, so neither are bookings. */
  lemma BookingsStay(t: Tables, t': Tables, id: string)
    requires Evolves(t, t')
    ensures Bookings(t.ledger, t.keys, id) <= Bookings(t'.ledger, t'.keys, id)
  {
    forall e | e in Bookings(t.ledger, t.keys, id) ensures e in Bookings(t'.ledger, t'.keys, id) {
      assert e in t'.ledger && t'.ledger[e] == t.ledger[e];
      if t.ledger[e].reason == EntitlementPurchased {
        var k :| k in t.keys && k.scope == PurchaseScope && t.keys[k] == Record(t.ledger[e].reference, id);
        assert k in t'.keys && t'.keys[k] == t.keys[k];
      }
    }
  }

  // ---------- What each step books ----------

  /** A record of another call, or of a reference that no entry has, books nothing. */
  lemma RecordBooksNothing(ledger: Ledger, keys: Keys, k: KeyId, record: Record, id: string)
    requires k !in keys
    requires k.scope == PurchaseScope ==>
      forall e :: e in ledger && ledger[e].reason == EntitlementPurchased ==> ledger[e].reference != record.resourceId
    ensures Bookings(ledger, keys[k := record], id) == Bookings(ledger, keys, id)
  {
    forall e | e in ledger && ledger[e].reason == EntitlementPurchased
      ensures PaysFor(keys[k := record], ledger[e].reference, id) <==> PaysFor(keys, ledger[e].reference, id)
    {
      if PaysFor(keys, ledger[e].reference, id) {
        var k' :| k' in keys && k'.scope == PurchaseScope && keys[k'] == Record(ledger[e].reference, id);
        assert keys[k := record][k'] == keys[k'];
      }
    }
  }

  lemma EntryBooks(ledger: Ledger, keys: Keys, e: Entry, id: string)
    requires e.id !in ledger
    ensures Bookings(ledger[e.id := e], keys, id)
         == Bookings(ledger, keys, id) + if BooksFor(keys, e, id) then {e.id} else {}
  {
  }

  /** A confirmation that books adds its one entry, and only to its donation. */
  lemma ConfirmBooks(t: Tables, input: ConfirmInput, draw: ConfirmDraw, id: string)
    requires Inv(t) && draw.ledgerId !in t.ledger
    ensures var t' := ConfirmDonation(t, input, draw).0;
      Bookings(t'.ledger, t'.keys, id)
      == Bookings(t.ledger, t.keys, id)
         + if t'.ledger != t.ledger && id == input.donationId then {draw.ledgerId} else {}
  {
    var marked := ConfirmWrites(t, input, draw);
    var t' := ConfirmDonation(t, input, draw).0;
    if t' != t {
      MarkedBooks(t, t', marked.value, KeyId(ConfirmScope, TrimSpace(input.key)), draw, id);
    }
  }

  lemma MarkedBooks(t: Tables, t': Tables, d: Donation, k: KeyId, draw: ConfirmDraw, id: string)
    requires Inv(t) && k !in t.keys && k.scope == ConfirmScope && draw.ledgerId !in t.ledger && d.id in t.donations
    requires DonationEvolves(t.donations[d.id], d) && RowOk(d)
    requires if d.status == Succeeded then ConfirmTx(t, d, k, draw.ledgerId, draw.now) == Ok(t')
             else d.status == Failed && FailTx(t, d, draw.published) == Ok(t')
    ensures Bookings(t'.ledger, t'.keys, id)
         == Bookings(t.ledger, t.keys, id) + if t'.ledger != t.ledger && id == d.id then {draw.ledgerId} else {}
  {
    if d.status == Succeeded {
      ConfirmTxBooks(t, d, k, draw.ledgerId, draw.now, id);
    } else {
      FailBooksNothing(t, d, draw.published);
    }
  }

  lemma ConfirmTxBooks(t: Tables, d: Donation, k: KeyId, ledgerId: string, now: Time, id: string)
    requires Inv(t) && k !in t.keys && k.scope == ConfirmScope && ledgerId !in t.ledger && d.id in t.donations
    requires ConfirmTx(t, d, k, ledgerId, now).Ok? && DonationEvolves(t.donations[d.id], d) && RowOk(d)
    ensures var t' := ConfirmTx(t, d, k, ledgerId, now).value;
      && ledgerId in t'.ledger
      && Bookings(t'.ledger, t'.keys, id)
         == Bookings(t.ledger, t.keys, id) + if id == d.id then {ledgerId} else {}
  {
    ConfirmTxRecords(t, d, k, ledgerId, now);
    var e := Entry(ledgerId, d.payer, d.amount, DonationSucceeded, d.id, now);
    EntryBooks(t.ledger, t.keys, e, id);
    RecordBooksNothing(t.ledger[e.id := e], t.keys, k, Record(d.id, ""), id);
  }

  lemma FailBooksNothing(t: Tables, d: Donation, published: bool)
    requires FailTx(t, d, published).Ok?
    ensures var t' := FailTx(t, d, published).value; t'.ledger == t.ledger && t'.keys == t.keys
  {
  }

  /** A purchase books its new donation once, and nothing else. */
  lemma PurchaseBooks(t: Tables, d: Donation, x: Entitlement, k: KeyId, e: Entry, id: string)
    requires Inv(t) && d.id !in t.donations && x.id !in t.entitlements && e.id !in t.ledger && k !in t.keys
    requires k.scope == PurchaseScope && e.reason == EntitlementPurchased && e.reference == x.id
    ensures var t' := PurchaseRows(t, d, x, k, e);
      Bookings(t'.ledger, t'.keys, id) == Bookings(t.ledger, t.keys, id) + if id == d.id then {e.id} else {}
  {
    var keys' := t.keys[k := Record(x.id, d.id)];
    forall i | i in t.ledger && t.ledger[i].reason == EntitlementPurchased ensures t.ledger[i].reference != x.id {
      assert EntryOk(t.donations, t.entitlements, t.ledger[i]);
    }
    RecordBooksNothing(t.ledger, t.keys, k, Record(x.id, d.id), id);
    EntryBooks(t.ledger, keys', e, id);
    NewRecordPays(t, d.id, x.id, k, id);
  }

  lemma NewRecordPays(t: Tables, donationId: string, reference: string, k: KeyId, id: string)
    requires KeysOk(t.donations, t.boosts, t.entitlements, t.keys) && reference !in t.entitlements
    requires k !in t.keys && k.scope == PurchaseScope
    ensures PaysFor(t.keys[k := Record(reference, donationId)], reference, id) <==> id == donationId
  {
    var keys' := t.keys[k := Record(reference, donationId)];
    assert PaysFor(keys', reference, donationId) by { assert keys'[k] == Record(reference, donationId); }
    forall k' | k' in t.keys && k'.scope == PurchaseScope ensures t.keys[k'].resourceId != reference {
      assert KeyOk(t.donations, t.boosts, t.entitlements, k'.scope, t.keys[k']);
    }
  }

  lemma PurchaseStepBooks(t: Tables, input: PurchaseInput, draw: PurchaseDraw, id: string)
    requires Inv(t) && draw.ledgerId !in t.ledger && SingleBooking(t)
    ensures var t' := PurchaseEntitlement(t, input, draw).0; |Bookings(t'.ledger, t'.keys, id)| <= 1
  {
    var r := PurchaseMakes(t, input, draw);
    if PurchaseEntitlement(t, input, draw).0 == t {
      assert |Bookings(t.ledger, t.keys, id)| <= 1;
    } else {
      var (d, x) := r.value;
      var k := KeyId(PurchaseScope, TrimSpace(input.key));
      PurchaseWrites(t, d, x, k, draw.ledgerId, draw.now);
      PurchaseBooks(t, d, x, k, Entry(draw.ledgerId, x.owner, d.amount, EntitlementPurchased, x.id, draw.now), id);
      BookedExactlyWhenPaid(t, d.id);
      assert |Bookings(t.ledger, t.keys, id)| <= 1;
    }
  }

  lemma IntentBooksNothing(t: Tables, input: IntentInput, draw: IntentDraw, id: string)
    ensures var t' := CreateDonationIntent(t, input, draw).0;
      Bookings(t'.ledger, t'.keys, id) == Bookings(t.ledger, t.keys, id)
  {
    var d := IntentWrites(t, input, draw);
    if CreateDonationIntent(t, input, draw).0 != t {
      RecordBooksNothing(t.ledger, t.keys, KeyId(IntentScope, TrimSpace(input.key)), Record(d.value.id, ""), id);
    }
  }

  lemma BoostBooksNothing(t: Tables, input: BoostInput, draw: BoostDraw, id: string)
    ensures var t' := CreateBoost(t, input, draw).0;
      Bookings(t'.ledger, t'.keys, id) == Bookings(t.ledger, t.keys, id)
  {
    var made := BoostWrites(t, input, draw);
    if CreateBoost(t, input, draw).0 != t {
      RecordBooksNothing(t.ledger, t.keys, KeyId(BoostScope, TrimSpace(input.key)), Record(made.value.id, ""), id);
    }
  }

  // ---------- Booking twice ----------

  /** No donation is booked twice, by its own entries and its purchases together. */
  ghost predicate SingleBooking(t: Tables) {
    forall id {:trigger Bookings(t.ledger, t.keys, id)} :: |Bookings(t.ledger, t.keys, id)| <= 1
  }

  /** A confirmation, under an unused key, of a donation that has succeeded already. */
  predicate Rebooks(t: Tables, step: Step) {
    && step.Confirm?
    && TrimSpace(step.confirm.key) != "" && KeyId(ConfirmScope, TrimSpace(step.confirm.key)) !in t.keys
    && Paid(t.donations, step.confirm.donationId)
    && step.confirmDraw.answer.Some? && step.confirmDraw.answer.value.succeeded && step.confirmDraw.commit.Applied()
  }

  /** It always books: marking a succeeded donation is no error. */
  lemma RebookingBooks(t: Tables, input: ConfirmInput, draw: ConfirmDraw)
    requires Inv(t) && Enabled(t, Confirm(input, draw)) && Rebooks(t, Confirm(input, draw))
    ensures draw.ledgerId in ConfirmDonation(t, input, draw).0.ledger
  {
    var d := t.donations[input.donationId];
    assert RowOk(d);
    OwnPaymentFree(t.donations, d.id);
  }

  /** So it adds a booking to the one or more that there are. */
  lemma RebookingAddsOne(t: Tables, input: ConfirmInput, draw: ConfirmDraw)
    requires Inv(t) && Enabled(t, Confirm(input, draw)) && Rebooks(t, Confirm(input, draw))
    ensures var t' := ConfirmDonation(t, input, draw).0;
      |Bookings(t'.ledger, t'.keys, input.donationId)| == |Bookings(t.ledger, t.keys, input.donationId)| + 1 >= 2
  {
    BookedExactlyWhenPaid(t, input.donationId);
    RebookingBooks(t, input, draw);
    ConfirmBooks(t, input, draw, input.donationId);
    CardAdd(Bookings(t.ledger, t.keys, input.donationId), draw.ledgerId);
  }

  /** And any other confirmation that books finds its donation pending. */
  lemma BooksPendingOnly(t: Tables, input: ConfirmInput, draw: ConfirmDraw)
    requires !Rebooks(t, Confirm(input, draw)) && ConfirmDonation(t, input, draw).0.ledger != t.ledger
    ensures !Paid(t.donations, input.donationId)
  {
  }

  lemma ConfirmBooksOnceExactly(t: Tables, input: ConfirmInput, draw: ConfirmDraw)
    requires Inv(t) && Enabled(t, Confirm(input, draw)) && SingleBooking(t)
    ensures SingleBooking(Apply(t, Confirm(input, draw))) <==> !Rebooks(t, Confirm(input, draw))
  {
    var t' := ConfirmDonation(t, input, draw).0;
    BookedExactlyWhenPaid(t, input.donationId);
    if Rebooks(t, Confirm(input, draw)) {
      RebookingAddsOne(t, input, draw);
    } else {
      if t'.ledger != t.ledger {
        BooksPendingOnly(t, input, draw);
      }
      forall other ensures |Bookings(t'.ledger, t'.keys, other)| <= 1 {
        ConfirmBooks(t, input, draw, other);
        assert |Bookings(t.ledger, t.keys, other)| <= 1;
      }
    }
  }

  /** Of all steps only such a confirmation books a donation twice. */
  lemma StepBooksOnceExactly(t: Tables, step: Step)
    requires Inv(t) && Enabled(t, step) && SingleBooking(t)
    ensures SingleBooking(Apply(t, step)) <==> !Rebooks(t, step)
  {
    match step
    case Confirm(input, draw) => ConfirmBooksOnceExactly(t, input, draw);
    case Purchase(input, draw) =>
      forall id ensures |Bookings(Apply(t, step).ledger, Apply(t, step).keys, id)| <= 1 {
        PurchaseStepBooks(t, input, draw, id);
      }
    case Intent(input, draw) =>
      forall id ensures |Bookings(Apply(t, step).ledger, Apply(t, step).keys, id)| <= 1 {
        IntentBooksNothing(t, input, draw, id);
        assert |Bookings(t.ledger, t.keys, id)| <= 1;
      }
    case NewBoostStep(input, draw) =>
      forall id ensures |Bookings(Apply(t, step).ledger, Apply(t, step).keys, id)| <= 1 {
        BoostBooksNothing(t, input, draw, id);
        assert |Bookings(t.ledger, t.keys, id)| <= 1;
      }
    case _ =>
      forall id ensures |Bookings(Apply(t, step).ledger, Apply(t, step).keys, id)| <= 1 {
        assert |Bookings(t.ledger, t.keys, id)| <= 1;
      }
  }

  /** No step of the run rebooks. */
  predicate NeverRebooks(t: Tables, steps: seq<Step>)
    requires IsRun(t, steps)
    decreases |steps|
  {
    steps == [] || (!Rebooks(t, steps[0]) && NeverRebooks(Apply(t, steps[0]), steps[1..]))
  }

  /** A donation booked twice stays so. */
  lemma DoubleStays(t: Tables, t': Tables)
    requires Evolves(t, t') && !SingleBooking(t)
    ensures !SingleBooking(t')
  {
    var id :| |Bookings(t.ledger, t.keys, id)| > 1;
    BookingsStay(t, t', id);
    CardSubset(Bookings(t.ledger, t.keys, id), Bookings(t'.ledger, t'.keys, id));
  }

  /** A run books no donation twice if and only if none of its steps is such a confirmation. */
  lemma {:induction false} RunBooksOnceExactly(t: Tables, steps: seq<Step>)
    requires Inv(t) && IsRun(t, steps) && SingleBooking(t)
    ensures SingleBooking(Run(t, steps)) <==> NeverRebooks(t, steps)
    decreases |steps|
  {
    if steps != [] {
      var t1 := Apply(t, steps[0]);
      StepKeeps(t, steps[0]);
      StepBooksOnceExactly(t, steps[0]);
      if Rebooks(t, steps[0]) {
        RunKeeps(t1, steps[1..]);
        DoubleStays(t1, Run(t1, steps[1..]));
      } else {
        RunBooksOnceExactly(t1, steps[1..]);
      }
    }
  }

  /** From the start: without such a confirmation every succeeded donation is booked once, and no other. */
  lemma BookedOnceEach(steps: seq<Step>, id: string)
    requires IsRun(EMPTY, steps) && NeverRebooks(EMPTY, steps)
    ensures var t := Run(EMPTY, steps);
      |Bookings(t.ledger, t.keys, id)| == if Paid(t.donations, id) then 1 else 0
  {
    EmptyInv();
    forall any ensures |Bookings(EMPTY.ledger, EMPTY.keys, any)| <= 1 {
      assert Bookings(EMPTY.ledger, EMPTY.keys, any) == {};
    }
    RunBooksOnceExactly(EMPTY, steps);
    RunKeeps(EMPTY, steps);
    var t := Run(EMPTY, steps);
    BookedExactlyWhenPaid(t, id);
    assert |Bookings(t.ledger, t.keys, id)| <= 1;
  }

  // ---------- How it happens ----------

  /** The donation of any purchase can be confirmed once more: it then has its purchase's entry and one of its own. */
  lemma PurchaseThenConfirmBooksTwice(t: Tables, input: PurchaseInput, draw: PurchaseDraw, again: ConfirmInput,
                                      more: ConfirmDraw)
    requires Inv(t) && draw.ledgerId !in t.ledger && KeyId(PurchaseScope, TrimSpace(input.key)) !in t.keys
    requires PurchaseEntitlement(t, input, draw).1.Ok? && PurchaseEntitlement(t, input, draw).1.value.EntitlementBody?
    requires var (t1, reply) := PurchaseEntitlement(t, input, draw);
      && again.donationId == reply.value.paidBy.id && more.ledgerId !in t1.ledger
      && TrimSpace(again.key) != "" && KeyId(ConfirmScope, TrimSpace(again.key)) !in t1.keys
      && more.answer.Some? && more.answer.value.succeeded && more.commit.Applied()
    ensures var t2 := ConfirmDonation(PurchaseEntitlement(t, input, draw).0, again, more).0;
      |Bookings(t2.ledger, t2.keys, again.donationId)| == 2
  {
    var (t1, reply) := PurchaseEntitlement(t, input, draw);
    var d, x := reply.value.paidBy, reply.value.entitlement;
    var k := KeyId(PurchaseScope, TrimSpace(input.key));
    var e := Entry(draw.ledgerId, input.owner, input.amount, EntitlementPurchased, x.id, draw.now);
    PurchaseKeeps(t, input, draw);
    PurchaseRecords(t, input, draw);
    BookedExactlyWhenPaid(t, d.id);
    PurchaseBooks(t, d, x, k, e, d.id);
    assert Bookings(t1.ledger, t1.keys, d.id) == {e.id};
    RebookingAddsOne(t1, again, more);
  }

  const PRICE := Money("USD", 10, 0)

  function Bought(): Step {
    Purchase(PurchaseInput("owner", AdvancedFilters, "", PRICE, 1, "k1"),
             PurchaseDraw("d", "e", "l1", 1, Some("p"), Some(true), 0, Done, true))
  }

  function Confirmed(ledgerId: string, key: string): Step {
    Confirm(ConfirmInput("d", "p", key), ConfirmDraw(ledgerId, 2, Some(Confirmation("p", true, "")), Done, true))
  }

  /** A run from the start that does so. */
  lemma PurchaseThenConfirmRun()
    ensures var steps := [Bought(), Confirmed("l2", "k2")];
      IsRun(EMPTY, steps) && |Bookings(Run(EMPTY, steps).ledger, Run(EMPTY, steps).keys, "d")| == 2
  {
    var a, b := Bought(), Confirmed("l2", "k2");
    assert TrimSpace("k2") == "k2";
    EmptyInv();
    BoughtFromEmpty();
    PurchaseThenConfirmBooksTwice(EMPTY, a.purchase, a.purchaseDraw, b.confirm, b.confirmDraw);
    RunTwo(EMPTY, a, b);
  }

  lemma BoughtFromEmpty()
    ensures var (t, reply) := PurchaseEntitlement(EMPTY, Bought().purchase, Bought().purchaseDraw);
      && KeyId(PurchaseScope, TrimSpace(Bought().purchase.key)) !in EMPTY.keys
      && reply.Ok? && reply.value.EntitlementBody? && reply.value.paidBy.id == "d"
      && "l2" !in t.ledger && KeyId(ConfirmScope, "k2") !in t.keys
  {
    NothingToTrim();
    var d := Donation("d", "owner", Shelter, "owner", PRICE, Succeeded, "mock", "p", "", 1, 1);
    var x := Entitlement("e", "owner", AdvancedFilters, "", 1, 2, true);
    var k := KeyId(PurchaseScope, "k1");
    assert NewDonation("d", "owner", Shelter, "owner", PRICE, "mock", 1) == Ok(d.(status := Pending, paymentId := ""));
    assert NewEntitlement("e", "owner", AdvancedFilters, "", 1, 1) == Ok(x);
    assert PurchaseTx(EMPTY, d, x, k, "l1", 1).Ok?;
    PurchaseWrites(EMPTY, d, x, k, "l1", 1);
  }

  lemma NothingToTrim()
    ensures TrimSpace("k1") == "k1" && TrimSpace("owner") == "owner" && TrimSpace("d") == "d"
    ensures TrimSpace("e") == "e" && TrimSpace("p") == "p" && TrimSpace("mock") == "mock"
  {
  }

  lemma RunTwo(t: Tables, a: Step, b: Step)
    requires Enabled(t, a) && Enabled(Apply(t, a), b)
    ensures IsRun(t, [a, b]) && Run(t, [a, b]) == Apply(Apply(t, a), b)
  {
    assert [a, b][1..] == [b] && [b][1..] == [];
    assert Run(Apply(t, a), [b]) == Apply(Apply(t, a), b);
  }

  /**
   A pending donation confirmed under two keys is booked twice, whatever the keys and answers, if both calls commit.
   */
  lemma SecondKeyBooksTwice(t: Tables, first: ConfirmInput, a: ConfirmDraw, second: ConfirmInput, b: ConfirmDraw)
    requires Inv(t) && a.ledgerId !in t.ledger && first.donationId == second.donationId
    requires first.donationId in t.donations && t.donations[first.donationId].status == Pending
    requires ConfirmDonation(t, first, a).1.Ok? && ConfirmDonation(t, first, a).1.value.DonationBody?
    requires KeyId(ConfirmScope, TrimSpace(first.key)) !in t.keys
    requires b.ledgerId !in ConfirmDonation(t, first, a).0.ledger
    requires TrimSpace(second.key) != "" && KeyId(ConfirmScope, TrimSpace(second.key)) !in t.keys
    requires TrimSpace(second.key) != TrimSpace(first.key)
    requires b.answer.Some? && b.answer.value.succeeded && b.commit.Applied()
    ensures var t2 := ConfirmDonation(ConfirmDonation(t, first, a).0, second, b).0;
      |Bookings(t2.ledger, t2.keys, first.donationId)| == 2
  {
    ConfirmKeeps(t, first, a);
    FirstConfirmation(t, first, a);
    ConfirmKey(t, first, a, KeyId(ConfirmScope, TrimSpace(second.key)));
    RebookingAddsOne(ConfirmDonation(t, first, a).0, second, b);
  }

  lemma FirstConfirmation(t: Tables, input: ConfirmInput, draw: ConfirmDraw)
    requires Inv(t) && draw.ledgerId !in t.ledger && KeyId(ConfirmScope, TrimSpace(input.key)) !in t.keys
    requires input.donationId in t.donations && t.donations[input.donationId].status == Pending
    requires ConfirmDonation(t, input, draw).1.Ok? && ConfirmDonation(t, input, draw).1.value.DonationBody?
    ensures var t' := ConfirmDonation(t, input, draw).0;
      Paid(t'.donations, input.donationId) && |Bookings(t'.ledger, t'.keys, input.donationId)| == 1
  {
    var t' := ConfirmDonation(t, input, draw).0;
    ConfirmRecords(t, input, draw);
    BookedExactlyWhenPaid(t, input.donationId);
    ConfirmBooks(t, input, draw, input.donationId);
    assert Bookings(t'.ledger, t'.keys, input.donationId) == {draw.ledgerId};
  }
}
