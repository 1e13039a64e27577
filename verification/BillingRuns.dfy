/** The invariant that ties donations, ledger, idempotency records, boosts and entitlements together, and its proof. */
module BillingRuns {
  import opened Common
  import opened Text
  import opened BillingDomain
  import opened Billing

  // ---------- The order in which tables follow each other ----------

  predicate DonationEvolves(d: Donation, d': Donation) {
    && d'.id == d.id && d'.payer == d.payer && d'.amount == d.amount && d'.provider == d.provider
    && d'.targetType == d.targetType && d'.targetId == d.targetId && d'.createdAt == d.createdAt
    && (d'.status == d.status || (d.status == Pending && d'.status in {Succeeded, Failed}))
    && (d.status == Succeeded ==> d'.paymentId == d.paymentId)
  }

  predicate BoostEvolves(b: Boost, b': Boost) {
    && b'.id == b.id && b'.animalId == b.animalId && b'.owner == b.owner && b'.donationId == b.donationId
    && b'.startsAt == b.startsAt && b'.expiresAt == b.expiresAt && (!b.active ==> b' == b)
  }

  ghost predicate DonationsEvolve(ds: Donations, ds': Donations) {
    forall id {:trigger DonationEvolves(ds[id], ds'[id])} {:trigger id in ds} ::
      id in ds ==> id in ds' && DonationEvolves(ds[id], ds'[id])
  }

  ghost predicate BoostsEvolve(bs: Boosts, bs': Boosts) {
    forall id {:trigger BoostEvolves(bs[id], bs'[id])} {:trigger id in bs} ::
      id in bs ==> id in bs' && BoostEvolves(bs[id], bs'[id])
  }

  ghost predicate Keeps<K, V>(m: map<K, V>, m': map<K, V>) {
    forall k :: k in m ==> k in m' && m'[k] == m[k]
  }

  ghost predicate Evolves(t: Tables, t': Tables) {
    && DonationsEvolve(t.donations, t'.donations) && BoostsEvolve(t.boosts, t'.boosts)
    && Keeps(t.entitlements, t'.entitlements) && Keeps(t.ledger, t'.ledger) && Keeps(t.keys, t'.keys)
  }

  lemma EvolvesTransitive(a: Tables, b: Tables, c: Tables)
    requires Evolves(a, b) && Evolves(b, c)
    ensures Evolves(a, c)
  {
    forall id | id in a.donations ensures id in c.donations && DonationEvolves(a.donations[id], c.donations[id]) {
      assert id in b.donations && DonationEvolves(a.donations[id], b.donations[id]);
    }
    forall id | id in a.boosts ensures id in c.boosts && BoostEvolves(a.boosts[id], c.boosts[id]) {
      assert id in b.boosts && BoostEvolves(a.boosts[id], b.boosts[id]);
    }
  }

  // ---------- The invariant ----------

  predicate RowOk(d: Donation) {
    && d.status in {Pending, Succeeded, Failed} && AmountOk(d.amount)
    && (d.status == Succeeded ==> d.paymentId != "")
  }

  ghost predicate DonationRows(ds: Donations) {
    forall id {:trigger ds[id]} :: id in ds ==> ds[id].id == id && RowOk(ds[id])
  }

  predicate SamePayment(a: Donation, b: Donation) {
    a.paymentId != "" && a.paymentId == b.paymentId && a.provider == b.provider
  }

  ghost predicate UniquePayments(ds: Donations) {
    forall a, b {:trigger SamePayment(ds[a], ds[b])} :: a in ds && b in ds && SamePayment(ds[a], ds[b]) ==> a == b
  }

  predicate Paid(ds: Donations, id: string) {
    id in ds && ds[id].status == Succeeded
  }

  ghost predicate EntryOk(ds: Donations, es: Entitlements, e: Entry) {
    match e.reason
    case DonationSucceeded =>
      Paid(ds, e.reference) && ds[e.reference].payer == e.profile && ds[e.reference].amount == e.amount
    case EntitlementPurchased => e.reference in es && es[e.reference].owner == e.profile
  }

  ghost predicate LedgerOk(ds: Donations, es: Entitlements, ledger: Ledger) {
    forall id {:trigger EntryOk(ds, es, ledger[id])} :: id in ledger ==> EntryOk(ds, es, ledger[id])
  }

  ghost predicate KeyOk(ds: Donations, bs: Boosts, es: Entitlements, scope: Scope, record: Record) {
    match scope
    case IntentScope => record.resourceId in ds
    case ConfirmScope => Paid(ds, record.resourceId)
    case BoostScope => record.resourceId in bs
    case PurchaseScope =>
      record.resourceId in es && Paid(ds, record.relatedId) && ds[record.relatedId].payer == es[record.resourceId].owner
  }

  ghost predicate KeysOk(ds: Donations, bs: Boosts, es: Entitlements, keys: Keys) {
    forall k {:trigger KeyOk(ds, bs, es, k.scope, keys[k])} :: k in keys ==> KeyOk(ds, bs, es, k.scope, keys[k])
  }

  ghost predicate BoostsOk(ds: Donations, bs: Boosts) {
    forall id {:trigger Paid(ds, bs[id].donationId)} :: id in bs ==> Paid(ds, bs[id].donationId)
  }

  ghost predicate OwnEntry(ledger: Ledger, d: Donation) {
    exists id :: id in ledger && ledger[id].reason == DonationSucceeded && ledger[id].reference == d.id
  }

  ghost predicate PurchaseEntry(ledger: Ledger, keys: Keys, d: Donation) {
    exists k, id :: k in keys && id in ledger && k.scope == PurchaseScope && keys[k].relatedId == d.id
      && ledger[id].reason == EntitlementPurchased && ledger[id].reference == keys[k].resourceId
      && ledger[id].profile == d.payer && ledger[id].amount == d.amount
  }

  /** A donation that has succeeded is in the ledger, by its own entry or by that of the entitlement it paid for. */
  ghost predicate Booked(ledger: Ledger, keys: Keys, d: Donation) {
    d.status == Succeeded ==> OwnEntry(ledger, d) || PurchaseEntry(ledger, keys, d)
  }

  ghost predicate AllBooked(ds: Donations, ledger: Ledger, keys: Keys) {
    forall id {:trigger Booked(ledger, keys, ds[id])} :: id in ds ==> Booked(ledger, keys, ds[id])
  }

  /** The entries of a reason, all of them or those of one reference. */
  ghost function Entries(ledger: Ledger, reason: Reason, ref: Option<string>): set<string> {
    set id | id in ledger && ledger[id].reason == reason && (ref.None? || ledger[id].reference == ref.value)
  }

  ghost function Records(keys: Keys, scope: Scope, ref: Option<string>): set<KeyId> {
    set k | k in keys && k.scope == scope && (ref.None? || keys[k].resourceId == ref.value)
  }

  ghost predicate CountsOk(ledger: Ledger, keys: Keys, es: Entitlements) {
    && (forall ref :: |Entries(ledger, DonationSucceeded, ref)| == |Records(keys, ConfirmScope, ref)|)
    && (forall ref :: |Entries(ledger, EntitlementPurchased, ref)| == |Records(keys, PurchaseScope, ref)|)
    && |Entries(ledger, EntitlementPurchased, None)| == |es|
    && (forall id :: |Entries(ledger, EntitlementPurchased, Some(id))| == if id in es then 1 else 0)
  }

  ghost predicate Inv(t: Tables) {
    && DonationRows(t.donations) && UniquePayments(t.donations)
    && LedgerOk(t.donations, t.entitlements, t.ledger)
    && KeysOk(t.donations, t.boosts, t.entitlements, t.keys)
    && BoostsOk(t.donations, t.boosts)
    && AllBooked(t.donations, t.ledger, t.keys)
    && CountsOk(t.ledger, t.keys, t.entitlements)
  }

  // ---------- What stays true of the rows that were there ----------

  lemma PaidStays(ds: Donations, ds': Donations, id: string)
    requires DonationsEvolve(ds, ds') && Paid(ds, id)
    ensures Paid(ds', id) && DonationEvolves(ds[id], ds'[id])
  {
  }

  lemma LedgerStays(ds: Donations, es: Entitlements, ledger: Ledger, ds': Donations, es': Entitlements)
    requires DonationsEvolve(ds, ds') && Keeps(es, es') && LedgerOk(ds, es, ledger)
    ensures LedgerOk(ds', es', ledger)
  {
    forall id | id in ledger ensures EntryOk(ds', es', ledger[id]) {
      assert EntryOk(ds, es, ledger[id]);
      if ledger[id].reason == DonationSucceeded {
        PaidStays(ds, ds', ledger[id].reference);
      }
    }
  }

  lemma KeysStay(ds: Donations, bs: Boosts, es: Entitlements, keys: Keys, ds': Donations, bs': Boosts,
                 es': Entitlements)
    requires DonationsEvolve(ds, ds') && BoostsEvolve(bs, bs') && Keeps(es, es') && KeysOk(ds, bs, es, keys)
    ensures KeysOk(ds', bs', es', keys)
  {
    forall k | k in keys ensures KeyOk(ds', bs', es', k.scope, keys[k]) {
      assert KeyOk(ds, bs, es, k.scope, keys[k]);
      if k.scope == ConfirmScope {
        PaidStays(ds, ds', keys[k].resourceId);
      } else if k.scope == PurchaseScope {
        PaidStays(ds, ds', keys[k].relatedId);
      }
    }
  }

  lemma BoostsStay(ds: Donations, bs: Boosts, ds': Donations)
    requires DonationsEvolve(ds, ds') && BoostsOk(ds, bs)
    ensures BoostsOk(ds', bs)
  {
    forall id | id in bs ensures Paid(ds', bs[id].donationId) {
      PaidStays(ds, ds', bs[id].donationId);
    }
  }

  /** A booked donation stays booked as long as its status is unchanged. */
  lemma BookedStays(ledger: Ledger, keys: Keys, ledger': Ledger, keys': Keys, d: Donation, d': Donation)
    requires Keeps(ledger, ledger') && Keeps(keys, keys') && Booked(ledger, keys, d)
    requires DonationEvolves(d, d') && d'.status == d.status
    ensures Booked(ledger', keys', d')
  {
    if d.status == Succeeded {
      if OwnEntry(ledger, d) {
        var id :| id in ledger && ledger[id].reason == DonationSucceeded && ledger[id].reference == d.id;
        assert id in ledger' && ledger'[id] == ledger[id];
      } else {
        var k, id :| k in keys && id in ledger && k.scope == PurchaseScope && keys[k].relatedId == d.id
          && ledger[id].reason == EntitlementPurchased && ledger[id].reference == keys[k].resourceId
          && ledger[id].profile == d.payer && ledger[id].amount == d.amount;
        assert id in ledger' && ledger'[id] == ledger[id] && k in keys' && keys'[k] == keys[k];
      }
    }
  }

  /** When one donation is added or changed, the others stay booked. */
  lemma AllBookedStay(ds: Donations, ledger: Ledger, keys: Keys, d: Donation, ledger': Ledger, keys': Keys)
    requires AllBooked(ds, ledger, keys) && Keeps(ledger, ledger') && Keeps(keys, keys') && Booked(ledger', keys', d)
    ensures AllBooked(ds[d.id := d], ledger', keys')
  {
    forall id | id in ds ensures Booked(ledger', keys', ds[id]) {
      BookedStays(ledger, keys, ledger', keys', ds[id], ds[id]);
    }
  }

  // ---------- Counting ----------

  lemma EntryJoins(ledger: Ledger, e: Entry, reason: Reason, ref: Option<string>)
    requires e.id !in ledger && e.reason == reason && (ref.None? || e.reference == ref.value)
    ensures Entries(ledger[e.id := e], reason, ref) == Entries(ledger, reason, ref) + {e.id}
  {
  }

  lemma EntryStaysOut(ledger: Ledger, e: Entry, reason: Reason, ref: Option<string>)
    requires e.id !in ledger && !(e.reason == reason && (ref.None? || e.reference == ref.value))
    ensures Entries(ledger[e.id := e], reason, ref) == Entries(ledger, reason, ref)
  {
  }

  lemma EntryAdded(ledger: Ledger, e: Entry, reason: Reason, ref: Option<string>)
    requires e.id !in ledger
    ensures |Entries(ledger[e.id := e], reason, ref)|
         == |Entries(ledger, reason, ref)|
            + if e.reason == reason && (ref.None? || e.reference == ref.value) then 1 else 0
  {
    if e.reason == reason && (ref.None? || e.reference == ref.value) {
      EntryJoins(ledger, e, reason, ref);
      CardAdd(Entries(ledger, reason, ref), e.id);
    } else {
      EntryStaysOut(ledger, e, reason, ref);
    }
  }

  lemma RecordJoins(keys: Keys, k: KeyId, record: Record, scope: Scope, ref: Option<string>)
    requires k !in keys && k.scope == scope && (ref.None? || record.resourceId == ref.value)
    ensures Records(keys[k := record], scope, ref) == Records(keys, scope, ref) + {k}
  {
  }

  lemma RecordStaysOut(keys: Keys, k: KeyId, record: Record, scope: Scope, ref: Option<string>)
    requires k !in keys && !(k.scope == scope && (ref.None? || record.resourceId == ref.value))
    ensures Records(keys[k := record], scope, ref) == Records(keys, scope, ref)
  {
  }

  lemma RecordAdded(keys: Keys, k: KeyId, record: Record, scope: Scope, ref: Option<string>)
    requires k !in keys
    ensures |Records(keys[k := record], scope, ref)|
         == |Records(keys, scope, ref)|
            + if k.scope == scope && (ref.None? || record.resourceId == ref.value) then 1 else 0
  {
    if k.scope == scope && (ref.None? || record.resourceId == ref.value) {
      RecordJoins(keys, k, record, scope, ref);
      CardAdd(Records(keys, scope, ref), k);
    } else {
      RecordStaysOut(keys, k, record, scope, ref);
    }
  }

  /** A key of a scope that books nothing leaves the counts alone. */
  lemma OtherKeyCounts(ledger: Ledger, keys: Keys, es: Entitlements, k: KeyId, record: Record)
    requires CountsOk(ledger, keys, es) && k !in keys && k.scope in {IntentScope, BoostScope}
    ensures CountsOk(ledger, keys[k := record], es)
  {
    forall ref ensures |Records(keys[k := record], ConfirmScope, ref)| == |Records(keys, ConfirmScope, ref)|
                    && |Records(keys[k := record], PurchaseScope, ref)| == |Records(keys, PurchaseScope, ref)| {
      RecordAdded(keys, k, record, ConfirmScope, ref);
      RecordAdded(keys, k, record, PurchaseScope, ref);
    }
  }

  /** An entry and the record of the call that books it are counted together. */
  lemma BookingCounts(ledger: Ledger, keys: Keys, e: Entry, k: KeyId, record: Record, reason: Reason, scope: Scope,
                      ref: Option<string>)
    requires e.id !in ledger && k !in keys && e.reference == record.resourceId
    requires (reason, scope) in {(DonationSucceeded, ConfirmScope), (EntitlementPurchased, PurchaseScope)}
    requires (e.reason, k.scope) in {(DonationSucceeded, ConfirmScope), (EntitlementPurchased, PurchaseScope)}
    requires |Entries(ledger, reason, ref)| == |Records(keys, scope, ref)|
    ensures |Entries(ledger[e.id := e], reason, ref)| == |Records(keys[k := record], scope, ref)|
  {
    EntryAdded(ledger, e, reason, ref);
    RecordAdded(keys, k, record, scope, ref);
  }

  lemma ConfirmCounts(ledger: Ledger, keys: Keys, es: Entitlements, e: Entry, k: KeyId, record: Record)
    requires CountsOk(ledger, keys, es) && e.id !in ledger && k !in keys && e.reference == record.resourceId
    requires e.reason == DonationSucceeded && k.scope == ConfirmScope
    ensures CountsOk(ledger[e.id := e], keys[k := record], es)
  {
    var ledger', keys' := ledger[e.id := e], keys[k := record];
    forall ref ensures |Entries(ledger', DonationSucceeded, ref)| == |Records(keys', ConfirmScope, ref)| {
      BookingCounts(ledger, keys, e, k, record, DonationSucceeded, ConfirmScope, ref);
    }
    forall ref ensures |Entries(ledger', EntitlementPurchased, ref)| == |Records(keys', PurchaseScope, ref)| {
      BookingCounts(ledger, keys, e, k, record, EntitlementPurchased, PurchaseScope, ref);
    }
    forall ref ensures |Entries(ledger', EntitlementPurchased, ref)| == |Entries(ledger, EntitlementPurchased, ref)| {
      EntryAdded(ledger, e, EntitlementPurchased, ref);
    }
  }

  lemma PurchaseCounts(ledger: Ledger, keys: Keys, es: Entitlements, e: Entry, k: KeyId, record: Record, x: Entitlement)
    requires CountsOk(ledger, keys, es) && e.id !in ledger && k !in keys && x.id !in es
    requires e.reference == record.resourceId == x.id && e.reason == EntitlementPurchased && k.scope == PurchaseScope
    ensures CountsOk(ledger[e.id := e], keys[k := record], es[x.id := x])
  {
    var ledger', keys' := ledger[e.id := e], keys[k := record];
    forall ref ensures |Entries(ledger', DonationSucceeded, ref)| == |Records(keys', ConfirmScope, ref)| {
      BookingCounts(ledger, keys, e, k, record, DonationSucceeded, ConfirmScope, ref);
    }
    forall ref ensures |Entries(ledger', EntitlementPurchased, ref)| == |Records(keys', PurchaseScope, ref)| {
      BookingCounts(ledger, keys, e, k, record, EntitlementPurchased, PurchaseScope, ref);
    }
    EntryAdded(ledger, e, EntitlementPurchased, None);
    forall id ensures |Entries(ledger', EntitlementPurchased, Some(id))| == if id in es[x.id := x] then 1 else 0 {
      EntryAdded(ledger, e, EntitlementPurchased, Some(id));
    }
    assert |es[x.id := x]| == |es| + 1;
  }

  // ---------- Each transaction keeps the invariant ----------

  lemma DonationAdded(ds: Donations, d: Donation)
    requires DonationRows(ds) && UniquePayments(ds)
    requires d.id !in ds && !PaymentTaken(ds, d) && RowOk(d)
    ensures DonationRows(ds[d.id := d]) && UniquePayments(ds[d.id := d]) && DonationsEvolve(ds, ds[d.id := d])
  {
    var ds' := ds[d.id := d];
    forall a, b | a in ds' && b in ds' && SamePayment(ds'[a], ds'[b]) ensures a == b {
      if a in ds && b in ds {
        assert SamePayment(ds[a], ds[b]);
      }
    }
  }

  lemma IntentTxKeeps(t: Tables, d: Donation, k: KeyId)
    requires Inv(t) && k !in t.keys && k.scope == IntentScope && d.status == Pending && IntentTx(t, d, k).Ok?
    ensures Inv(IntentTx(t, d, k).value) && Evolves(t, IntentTx(t, d, k).value)
  {
    var t' := IntentTx(t, d, k).value;
    DonationAdded(t.donations, d);
    LedgerStays(t.donations, t.entitlements, t.ledger, t'.donations, t'.entitlements);
    KeysStay(t.donations, t.boosts, t.entitlements, t.keys, t'.donations, t'.boosts, t'.entitlements);
    BoostsStay(t.donations, t.boosts, t'.donations);
    OtherKeyCounts(t.ledger, t.keys, t.entitlements, k, Record(d.id, ""));
    AllBookedStay(t.donations, t.ledger, t.keys, d, t'.ledger, t'.keys);
  }

  /** The row an update writes, for a donation that was read from the table and marked. */
  lemma UpdateWrites(t: Tables, d: Donation)
    requires DonationRows(t.donations) && UniquePayments(t.donations) && UpdateDonation(t, d).Ok?
    requires DonationEvolves(t.donations[d.id], d) && RowOk(d)
    ensures var t' := UpdateDonation(t, d).value;
      && t' == t.(donations := t.donations[d.id := d])
      && DonationRows(t'.donations) && UniquePayments(t'.donations) && DonationsEvolve(t.donations, t'.donations)
  {
    var ds, ds' := t.donations, UpdateDonation(t, d).value.donations;
    assert ds'[d.id] == d;
    forall a, b | a in ds' && b in ds' && SamePayment(ds'[a], ds'[b]) ensures a == b {
      if a != d.id && b != d.id {
        assert SamePayment(ds[a], ds[b]);
      }
    }
  }

  lemma FailTxKeeps(t: Tables, d: Donation, published: bool)
    requires Inv(t) && FailTx(t, d, published).Ok? && d.status == Failed && RowOk(d)
        && DonationEvolves(t.donations[d.id], d)
    ensures Inv(FailTx(t, d, published).value) && Evolves(t, FailTx(t, d, published).value)
  {
    var t' := FailTx(t, d, published).value;
    UpdateWrites(t, d);
    LedgerStays(t.donations, t.entitlements, t.ledger, t'.donations, t'.entitlements);
    KeysStay(t.donations, t.boosts, t.entitlements, t.keys, t'.donations, t'.boosts, t'.entitlements);
    BoostsStay(t.donations, t.boosts, t'.donations);
    AllBookedStay(t.donations, t.ledger, t.keys, d, t'.ledger, t'.keys);
  }

  lemma ConfirmTxKeeps(t: Tables, d: Donation, k: KeyId, ledgerId: string, now: Time)
    requires Inv(t) && k !in t.keys && k.scope == ConfirmScope && ledgerId !in t.ledger
    requires ConfirmTx(t, d, k, ledgerId, now).Ok? && d.status == Succeeded && RowOk(d)
    requires DonationEvolves(t.donations[d.id], d)
    ensures Inv(ConfirmTx(t, d, k, ledgerId, now).value) && Evolves(t, ConfirmTx(t, d, k, ledgerId, now).value)
  {
    var t' := ConfirmTx(t, d, k, ledgerId, now).value;
    var e := Entry(ledgerId, d.payer, d.amount, DonationSucceeded, d.id, now);
    UpdateWrites(t, d);
    LedgerStays(t.donations, t.entitlements, t.ledger, t'.donations, t'.entitlements);
    KeysStay(t.donations, t.boosts, t.entitlements, t.keys, t'.donations, t'.boosts, t'.entitlements);
    BoostsStay(t.donations, t.boosts, t'.donations);
    ConfirmCounts(t.ledger, t.keys, t.entitlements, e, k, Record(d.id, ""));
    assert OwnEntry(t'.ledger, d) by { assert t'.ledger[ledgerId] == e; }
    AllBookedStay(t.donations, t.ledger, t.keys, d, t'.ledger, t'.keys);
  }

  lemma BoostTxKeeps(t: Tables, b: Boost, k: KeyId)
    requires Inv(t) && k !in t.keys && k.scope == BoostScope && b.id !in t.boosts && Paid(t.donations, b.donationId)
    ensures var t' := t.(boosts := t.boosts[b.id := b], keys := t.keys[k := Record(b.id, "")]);
      Inv(t') && Evolves(t, t')
  {
    var t' := t.(boosts := t.boosts[b.id := b], keys := t.keys[k := Record(b.id, "")]);
    KeysStay(t.donations, t.boosts, t.entitlements, t.keys, t'.donations, t'.boosts, t'.entitlements);
    OtherKeyCounts(t.ledger, t.keys, t.entitlements, k, Record(b.id, ""));
    forall id | id in t'.donations ensures Booked(t'.ledger, t'.keys, t'.donations[id]) {
      BookedStays(t.ledger, t.keys, t'.ledger, t'.keys, t.donations[id], t'.donations[id]);
    }
  }

  lemma CancelKeeps(t: Tables, id: string, reason: string, now: Time)
    requires Inv(t) && id in t.boosts
    ensures var t' := t.(boosts := t.boosts[id := Cancel(t.boosts[id], reason, now)]); Inv(t') && Evolves(t, t')
  {
    var t' := t.(boosts := t.boosts[id := Cancel(t.boosts[id], reason, now)]);
    KeysStay(t.donations, t.boosts, t.entitlements, t.keys, t'.donations, t'.boosts, t'.entitlements);
    assert Paid(t.donations, t.boosts[id].donationId);
  }

  /** The rows a purchase inserts. */
  lemma PurchaseWrites(t: Tables, d: Donation, x: Entitlement, k: KeyId, ledgerId: string, now: Time)
    requires k !in t.keys && ledgerId !in t.ledger && PurchaseTx(t, d, x, k, ledgerId, now).Ok?
    ensures d.id !in t.donations && !PaymentTaken(t.donations, d) && x.id !in t.entitlements && AmountOk(d.amount)
    ensures PurchaseTx(t, d, x, k, ledgerId, now).value
         == PurchaseRows(t, d, x, k, Entry(ledgerId, x.owner, d.amount, EntitlementPurchased, x.id, now))
  {
  }

  ghost function PurchaseRows(t: Tables, d: Donation, x: Entitlement, k: KeyId, e: Entry): Tables {
    t.(donations := t.donations[d.id := d], entitlements := t.entitlements[x.id := x], ledger := t.ledger[e.id := e],
       keys := t.keys[k := Record(x.id, d.id)])
  }

  lemma PurchaseRowsSound(t: Tables, d: Donation, x: Entitlement, k: KeyId, e: Entry)
    requires LedgerOk(t.donations, t.entitlements, t.ledger) && KeysOk(t.donations, t.boosts, t.entitlements, t.keys)
    requires BoostsOk(t.donations, t.boosts) && DonationsEvolve(t.donations, t.donations[d.id := d])
    requires x.id !in t.entitlements && k.scope == PurchaseScope && d.status == Succeeded && d.payer == x.owner
    requires e.profile == x.owner && e.reason == EntitlementPurchased && e.reference == x.id
    ensures var t' := PurchaseRows(t, d, x, k, e);
      && LedgerOk(t'.donations, t'.entitlements, t'.ledger) && KeysOk(t'.donations, t'.boosts, t'.entitlements, t'.keys)
      && BoostsOk(t'.donations, t'.boosts)
  {
    var t' := PurchaseRows(t, d, x, k, e);
    LedgerStays(t.donations, t.entitlements, t.ledger, t'.donations, t'.entitlements);
    KeysStay(t.donations, t.boosts, t.entitlements, t.keys, t'.donations, t'.boosts, t'.entitlements);
    BoostsStay(t.donations, t.boosts, t'.donations);
  }

  lemma PurchaseRowsBooked(t: Tables, d: Donation, x: Entitlement, k: KeyId, e: Entry)
    requires AllBooked(t.donations, t.ledger, t.keys) && e.id !in t.ledger && k !in t.keys && k.scope == PurchaseScope
    requires d.payer == x.owner && e.profile == x.owner && e.amount == d.amount
    requires e.reason == EntitlementPurchased && e.reference == x.id
    ensures var t' := PurchaseRows(t, d, x, k, e); AllBooked(t'.donations, t'.ledger, t'.keys)
  {
    var t' := PurchaseRows(t, d, x, k, e);
    assert PurchaseEntry(t'.ledger, t'.keys, d) by { assert t'.ledger[e.id] == e && t'.keys[k] == Record(x.id, d.id); }
    AllBookedStay(t.donations, t.ledger, t.keys, d, t'.ledger, t'.keys);
  }

  lemma PurchaseRowsKeep(t: Tables, d: Donation, x: Entitlement, k: KeyId, e: Entry)
    requires Inv(t) && d.id !in t.donations && !PaymentTaken(t.donations, d) && x.id !in t.entitlements
    requires e.id !in t.ledger && k !in t.keys && k.scope == PurchaseScope
    requires d.status == Succeeded && RowOk(d) && d.payer == x.owner
    requires e.profile == x.owner && e.amount == d.amount && e.reason == EntitlementPurchased && e.reference == x.id
    ensures Inv(PurchaseRows(t, d, x, k, e)) && Evolves(t, PurchaseRows(t, d, x, k, e))
  {
    DonationAdded(t.donations, d);
    PurchaseRowsSound(t, d, x, k, e);
    PurchaseRowsBooked(t, d, x, k, e);
    PurchaseCounts(t.ledger, t.keys, t.entitlements, e, k, Record(x.id, d.id), x);
  }

  // ---------- Each call keeps the invariant ----------

  lemma EvolvesReflexive(t: Tables)
    ensures Evolves(t, t)
  {
  }

  lemma IntentWrites(t: Tables, input: IntentInput, draw: IntentDraw) returns (d: Option<Donation>)
    ensures var t' := CreateDonationIntent(t, input, draw).0;
      var k := KeyId(IntentScope, TrimSpace(input.key));
      t' == t || (d.Some? && k !in t.keys && d.value.status == Pending && IntentTx(t, d.value, k) == Ok(t'))
  {
    d := None;
    var made := NewDonation(draw.id, TrimSpace(input.payer), input.targetType, TrimSpace(input.targetId), input.amount,
                            TrimSpace(input.provider), draw.now);
    if made.Ok? && draw.intent.Some? {
      d := Some(made.value.(paymentId := draw.intent.value));
    }
  }

  lemma IntentKeeps(t: Tables, input: IntentInput, draw: IntentDraw)
    requires Inv(t)
    ensures var t' := CreateDonationIntent(t, input, draw).0; Inv(t') && Evolves(t, t')
  {
    EvolvesReflexive(t);
    var d := IntentWrites(t, input, draw);
    if CreateDonationIntent(t, input, draw).0 != t {
      IntentTxKeeps(t, d.value, KeyId(IntentScope, TrimSpace(input.key)));
    }
  }

  lemma ConfirmWrites(t: Tables, input: ConfirmInput, draw: ConfirmDraw) returns (marked: Option<Donation>)
    requires DonationRows(t.donations)
    ensures var t' := ConfirmDonation(t, input, draw).0;
      var k := KeyId(ConfirmScope, TrimSpace(input.key));
      || t' == t
      || (&& marked.Some? && k !in t.keys && input.donationId in t.donations && marked.value.id == input.donationId
          && DonationEvolves(t.donations[input.donationId], marked.value) && RowOk(marked.value)
          && if marked.value.status == Succeeded then ConfirmTx(t, marked.value, k, draw.ledgerId, draw.now) == Ok(t')
             else marked.value.status == Failed && FailTx(t, marked.value, draw.published) == Ok(t'))
  {
    marked := None;
    if input.donationId in t.donations && draw.answer.Some? {
      var row, answer := t.donations[input.donationId], draw.answer.value;
      var result := if answer.succeeded then MarkSucceeded(row, answer.paymentId, draw.now)
                    else MarkFailed(row, answer.failureReason, draw.now);
      if result.Ok? {
        marked := Some(result.value);
      }
    }
  }

  lemma ConfirmKeeps(t: Tables, input: ConfirmInput, draw: ConfirmDraw)
    requires Inv(t) && draw.ledgerId !in t.ledger
    ensures var t' := ConfirmDonation(t, input, draw).0; Inv(t') && Evolves(t, t')
  {
    EvolvesReflexive(t);
    var marked := ConfirmWrites(t, input, draw);
    if ConfirmDonation(t, input, draw).0 != t {
      var d := marked.value;
      if d.status == Succeeded {
        ConfirmTxKeeps(t, d, KeyId(ConfirmScope, TrimSpace(input.key)), draw.ledgerId, draw.now);
      } else {
        FailTxKeeps(t, d, draw.published);
      }
    }
  }

  lemma BoostWrites(t: Tables, input: BoostInput, draw: BoostDraw) returns (made: Option<Boost>)
    ensures var t' := CreateBoost(t, input, draw).0;
      var k := KeyId(BoostScope, TrimSpace(input.key));
      || t' == t
      || (&& made.Some? && k !in t.keys && made.value.id !in t.boosts && Paid(t.donations, made.value.donationId)
          && t' == t.(boosts := t.boosts[made.value.id := made.value], keys := t.keys[k := Record(made.value.id, "")]))
  {
    made := None;
    if input.donationId in t.donations {
      var boost :=
        NewBoost(draw.id, input.animalId, input.owner, input.donationId, t.donations[input.donationId].status,
                 input.duration, draw.now);
      if boost.Ok? {
        made := Some(boost.value);
      }
    }
  }

  lemma BoostKeeps(t: Tables, input: BoostInput, draw: BoostDraw)
    requires Inv(t)
    ensures var t' := CreateBoost(t, input, draw).0; Inv(t') && Evolves(t, t')
  {
    EvolvesReflexive(t);
    var made := BoostWrites(t, input, draw);
    if CreateBoost(t, input, draw).0 != t {
      BoostTxKeeps(t, made.value, KeyId(BoostScope, TrimSpace(input.key)));
    }
  }

  lemma PurchaseMakes(t: Tables, input: PurchaseInput, draw: PurchaseDraw) returns (r: Option<(Donation, Entitlement)>)
    ensures var t' := PurchaseEntitlement(t, input, draw).0;
      var k := KeyId(PurchaseScope, TrimSpace(input.key));
      || t' == t
      || (&& r.Some? && k !in t.keys && r.value.0.status == Succeeded && r.value.0.paymentId != ""
          && r.value.0.payer == r.value.1.owner
          && PurchaseTx(t, r.value.0, r.value.1, k, draw.ledgerId, draw.now) == Ok(t'))
  {
    r := None;
    if KeyId(PurchaseScope, TrimSpace(input.key)) in t.keys {
      return;
    }
    var made := NewDonation(draw.donationId, input.owner, Shelter, input.owner, input.amount, "mock", draw.now);
    var granted :=
      NewEntitlement(draw.entitlementId, input.owner, input.kind, input.resourceId, input.duration, draw.now);
    if made.Ok? && granted.Ok? && draw.intent.Some? {
      var paid := MarkSucceeded(made.value, draw.intent.value, draw.now);
      if paid.Ok? {
        r := Some((paid.value, granted.value));
      }
    }
  }

  lemma PurchaseKeeps(t: Tables, input: PurchaseInput, draw: PurchaseDraw)
    requires Inv(t) && draw.ledgerId !in t.ledger
    ensures var t' := PurchaseEntitlement(t, input, draw).0; Inv(t') && Evolves(t, t')
  {
    EvolvesReflexive(t);
    var r := PurchaseMakes(t, input, draw);
    if PurchaseEntitlement(t, input, draw).0 != t {
      var (d, x) := r.value;
      var k := KeyId(PurchaseScope, TrimSpace(input.key));
      PurchaseWrites(t, d, x, k, draw.ledgerId, draw.now);
      PurchaseRowsKeep(t, d, x, k, Entry(draw.ledgerId, x.owner, d.amount, EntitlementPurchased, x.id, draw.now));
    }
  }

  lemma StepKeeps(t: Tables, step: Step)
    requires Inv(t) && Enabled(t, step)
    ensures Inv(Apply(t, step)) && Evolves(t, Apply(t, step))
  {
    EvolvesReflexive(t);
    match step
    case Intent(input, draw) => IntentKeeps(t, input, draw);
    case Confirm(input, draw) => ConfirmKeeps(t, input, draw);
    case NewBoostStep(input, draw) => BoostKeeps(t, input, draw);
    case CancelStep(id, reason, now, saved) =>
      if id in t.boosts {
        CancelKeeps(t, id, reason, now);
      }
    case Purchase(input, draw) => PurchaseKeeps(t, input, draw);
    case ArchiveAnimal(id) =>
  }

  lemma {:induction false} RunKeeps(t: Tables, steps: seq<Step>)
    requires Inv(t) && IsRun(t, steps)
    ensures Inv(Run(t, steps)) && Evolves(t, Run(t, steps))
    decreases |steps|
  {
    if steps == [] {
      EvolvesReflexive(t);
    } else {
      StepKeeps(t, steps[0]);
      RunKeeps(Apply(t, steps[0]), steps[1..]);
      EvolvesTransitive(t, Apply(t, steps[0]), Run(t, steps));
    }
  }

  lemma EmptyInv()
    ensures Inv(EMPTY)
  {
    forall reason, scope, ref
      ensures Entries(EMPTY.ledger, reason, ref) == {} && Records(EMPTY.keys, scope, ref) == {} {
    }
  }
}
