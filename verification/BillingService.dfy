/**
 The billing store, which updates its tables in place, and the service, whose calls mark their donation or boost object
 and write it back inside a transaction. `draw` carries what the call gets from outside: identifiers, the clock, the
 payment provider's answers, and whether the commit and the publication succeed.
 */
module BillingService {
  import opened Common
  import opened Text
  import opened BillingDomain
  import Billing

  /** A donation on its way through a call. */
  class DonationObject {
    var value: Donation

    constructor (d: Donation)
      ensures value == d
    {
      value := d;
    }

    method MarkSucceeded(paymentId: string, at: Time) returns (error: Option<Error>)
      modifies this
      ensures match BillingDomain.MarkSucceeded(old(value), paymentId, at)
        case Ok(d) => value == d && error == None
        case Err(e) => value == old(value) && error == Some(e)
    {
      if value.status == Succeeded {
        return None;
      }
      if value.status != Pending {
        return Some(InvalidTransition);
      }
      if TrimSpace(paymentId) == "" {
        return Some(Validation);
      }
      value := value.(status := Succeeded);
      value := value.(paymentId := paymentId);
      value := value.(updatedAt := at);
      return None;
    }

    method MarkFailed(reason: string, at: Time) returns (error: Option<Error>)
      modifies this
      ensures match BillingDomain.MarkFailed(old(value), reason, at)
        case Ok(d) => value == d && error == None
        case Err(e) => value == old(value) && error == Some(e)
    {
      if value.status == Failed {
        return None;
      }
      if value.status != Pending {
        return Some(InvalidTransition);
      }
      if TrimSpace(reason) == "" {
        return Some(Validation);
      }
      value := value.(status := Failed);
      value := value.(failureReason := reason);
      value := value.(updatedAt := at);
      return None;
    }
  }

  class BoostObject {
    var value: Boost

    constructor (b: Boost)
      ensures value == b
    {
      value := b;
    }

    method Cancel(reason: string, at: Time)
      modifies this
      ensures value == BillingDomain.Cancel(old(value), reason, at)
    {
      if !value.active {
        return;
      }
      value := value.(active := false);
      value := value.(cancelReason := reason);
      value := value.(cancelledAt := at);
    }
  }

  /** What a statement does: it applies, or reports its error and leaves the tables alone. */
  ghost predicate Did(before: Billing.Tables, after: Billing.Tables, error: Option<Error>,
                      effect: Result<Billing.Tables, Error>) {
    match effect
    case Ok(t) => after == t && error == None
    case Err(e) => after == before && error == Some(e)
  }

  class Store {
    var donations: Billing.Donations
    var boosts: Billing.Boosts
    var entitlements: Billing.Entitlements
    var ledger: Billing.Ledger
    var keys: Billing.Keys
    var archived: set<string>

    function View(): Billing.Tables
      reads this
    {
      Billing.Tables(donations, boosts, entitlements, ledger, keys, archived)
    }

    /** Entitlements are stored under their identifiers. */
    ghost predicate Keyed()
      reads this
    {
      forall id :: id in entitlements ==> entitlements[id].id == id
    }

    constructor ()
      ensures View() == Billing.EMPTY && Keyed()
    {
      donations, boosts, entitlements, ledger, keys, archived := map[], map[], map[], map[], map[], {};
    }

    method CreateDonation(d: Donation) returns (error: Option<Error>)
      modifies `donations
      ensures Did(old(View()), View(), error, Billing.InsertDonation(old(View()), d))
    {
      if !AmountOk(d.amount) {
        return Some(StorageFailure);
      }
      if d.id in donations || Billing.PaymentTaken(donations, d) {
        return Some(Conflict);
      }
      donations := donations[d.id := d];
      return None;
    }

    method UpdateDonation(d: Donation) returns (error: Option<Error>)
      modifies `donations
      ensures Did(old(View()), View(), error, Billing.UpdateDonation(old(View()), d))
    {
      if d.id !in donations {
        return Some(NotFound);
      }
      var row := donations[d.id].(status := d.status, paymentId := d.paymentId, failureReason := d.failureReason,
                                  updatedAt := d.updatedAt);
      if Billing.PaymentTaken(donations, row.(id := d.id)) {
        return Some(Conflict);
      }
      donations := donations[d.id := row];
      return None;
    }

    /** A conflict on the entry's identifier is ignored. */
    method AddLedgerEntry(e: Entry) returns (error: Option<Error>)
      modifies `ledger
      ensures Did(old(View()), View(), error, Billing.AddEntry(old(View()), e))
    {
      if !AmountOk(e.amount) {
        return Some(StorageFailure);
      }
      if e.id !in ledger {
        ledger := ledger[e.id := e];
      }
      return None;
    }

    method SaveIdempotency(id: Billing.KeyId, record: Billing.Record)
      modifies `keys
      ensures View() == Billing.SaveKey(old(View()), id, record)
    {
      if id !in keys {
        keys := keys[id := record];
      }
    }

    method CreateBoost(b: Boost) returns (error: Option<Error>)
      modifies `boosts
      ensures if b.id in old(boosts) then error == Some(Conflict) && boosts == old(boosts)
              else error == None && boosts == old(boosts)[b.id := b]
    {
      if b.id in boosts {
        return Some(Conflict);
      }
      boosts := boosts[b.id := b];
      return None;
    }

    method CreateEntitlement(e: Entitlement) returns (error: Option<Error>)
      requires Keyed()
      modifies `entitlements
      ensures Keyed()
      ensures if e.id in old(entitlements) then error == Some(Conflict) && entitlements == old(entitlements)
              else error == None && entitlements == old(entitlements)[e.id := e]
    {
      if e.id in entitlements {
        return Some(Conflict);
      }
      entitlements := entitlements[e.id := e];
      return None;
    }

    /** Undoes a transaction. */
    method Rollback(before: Billing.Tables)
      modifies this
      ensures View() == before
    {
      donations, boosts, entitlements := before.donations, before.boosts, before.entitlements;
      ledger, keys, archived := before.ledger, before.keys, before.archived;
    }

    /** The end of `WithinTx`: it commits, or rolls back when a statement failed or the commit does. */
    method EndTx(before: Billing.Tables, error: Option<Error>, commit: Outcome) returns (failed: Option<Error>)
      modifies this
      ensures View() == if error.None? && commit.Applied() then old(View()) else before
      ensures failed == if error.Some? then error else if commit.Reported() then None else Some(StorageFailure)
    {
      if error.Some? {
        Rollback(before);
        return error;
      }
      if !commit.Applied() {
        Rollback(before);
      }
      return if commit.Reported() then None else Some(StorageFailure);
    }
  }

  /** The database's answer to `GetEntitlements`: the owner's active, unexpired entitlements in some order. */
  ghost predicate IsListing(es: Billing.Entitlements, owner: string, now: Time, rows: seq<Entitlement>) {
    && (forall i :: 0 <= i < |rows| ==>
        rows[i].id in es && es[rows[i].id] == rows[i] && Billing.Listed(rows[i], owner, now))
    && (forall id :: id in es && Billing.Listed(es[id], owner, now) ==> es[id] in rows)
  }

  class Service {
    const store: Store

    constructor (store: Store)
      ensures this.store == store
    {
      this.store := store;
    }

    method CreateDonationIntent(input: Billing.IntentInput, draw: Billing.IntentDraw) returns (r: Billing.Reply)
      modifies store
      ensures (store.View(), r) == Billing.CreateDonationIntent(old(store.View()), input, draw)
      ensures old(store.Keyed()) ==> store.Keyed()
    {
      var key := Billing.KeyId(Billing.IntentScope, TrimSpace(input.key));
      if key.key == "" {
        return Err(Validation);
      }
      if key in store.keys {
        var id := store.keys[key].resourceId;
        if id !in store.donations {
          return Err(NotFound);
        }
        return if draw.found then Ok(Billing.DonationBody(store.donations[id])) else Err(PaymentFailure);
      }
      var made :=
        NewDonation(draw.id, TrimSpace(input.payer), input.targetType, TrimSpace(input.targetId), input.amount,
                    TrimSpace(input.provider), draw.now);
      if made.Err? {
        return Err(made.error);
      }
      if draw.intent.None? {
        return Err(PaymentFailure);
      }
      var donation := made.value.(paymentId := draw.intent.value);
      var before := store.View();
      var error := store.CreateDonation(donation);
      if error.None? {
        store.SaveIdempotency(key, Billing.Record(donation.id, ""));
      }
      error := store.EndTx(before, error, draw.commit);
      return if error.Some? then Err(error.value) else Ok(Billing.DonationBody(donation));
    }

    method ConfirmDonation(input: Billing.ConfirmInput, draw: Billing.ConfirmDraw) returns (r: Billing.Reply)
      modifies store
      ensures (store.View(), r) == Billing.ConfirmDonation(old(store.View()), input, draw)
      ensures old(store.Keyed()) ==> store.Keyed()
    {
      var key := Billing.KeyId(Billing.ConfirmScope, TrimSpace(input.key));
      if key.key == "" {
        return Err(Validation);
      }
      if key in store.keys {
        var id := store.keys[key].resourceId;
        return if id in store.donations then Ok(Billing.DonationBody(store.donations[id])) else Err(NotFound);
      }
      if input.donationId !in store.donations {
        return Err(NotFound);
      }
      var donation := new DonationObject(store.donations[input.donationId]);
      if draw.answer.None? {
        return Err(PaymentFailure);
      }
      var answer := draw.answer.value;
      if !answer.succeeded {
        var refused := donation.MarkFailed(answer.failureReason, draw.now);
        if refused.Some? {
          return Err(refused.value);
        }
        refused := PersistFailedDonation(donation, draw.published, draw.commit);
        return if refused.Some? then Err(refused.value) else Ok(Billing.NoBody);
      }
      var error := donation.MarkSucceeded(answer.paymentId, draw.now);
      if error.Some? {
        return Err(error.value);
      }
      error := PersistConfirmed(donation, key, draw);
      if error.Some? {
        return Err(error.value);
      }
      return if draw.published then Ok(Billing.DonationBody(donation.value)) else Err(PublishFailure);
    }

    /** The event is published inside the transaction. */
    method PersistFailedDonation(donation: DonationObject, published: bool, commit: Outcome)
      returns (error: Option<Error>)
      modifies store
      ensures (store.View(), error) == Billing.Commit(old(store.View()),
                Billing.FailTx(old(store.View()), donation.value, published), commit)
      ensures store.entitlements == old(store.entitlements)
    {
      var before := store.View();
      error := store.UpdateDonation(donation.value);
      if error.None? && !published {
        error := Some(PublishFailure);
      }
      error := store.EndTx(before, error, commit);
    }

    method PersistConfirmed(donation: DonationObject, key: Billing.KeyId, draw: Billing.ConfirmDraw)
      returns (error: Option<Error>)
      modifies store
      ensures (store.View(), error) == Billing.Commit(old(store.View()),
                Billing.ConfirmTx(old(store.View()), donation.value, key, draw.ledgerId, draw.now), draw.commit)
      ensures store.entitlements == old(store.entitlements)
    {
      var before := store.View();
      var d := donation.value;
      error := store.UpdateDonation(d);
      if error.None? {
        error := store.AddLedgerEntry(Entry(draw.ledgerId, d.payer, d.amount, DonationSucceeded, d.id, draw.now));
      }
      if error.None? {
        store.SaveIdempotency(key, Billing.Record(d.id, ""));
      }
      error := store.EndTx(before, error, draw.commit);
    }

    method CreateBoost(input: Billing.BoostInput, draw: Billing.BoostDraw) returns (r: Billing.Reply)
      modifies store
      ensures (store.View(), r) == Billing.CreateBoost(old(store.View()), input, draw)
      ensures old(store.Keyed()) ==> store.Keyed()
    {
      var key := Billing.KeyId(Billing.BoostScope, TrimSpace(input.key));
      if key.key == "" {
        return Err(Validation);
      }
      if key in store.keys {
        var id := store.keys[key].resourceId;
        return if id in store.boosts then Ok(Billing.BoostBody(store.boosts[id])) else Err(NotFound);
      }
      if input.animalId in store.archived {
        return Err(ArchivedAnimal);
      }
      if input.donationId !in store.donations {
        return Err(NotFound);
      }
      var made :=
        NewBoost(draw.id, input.animalId, input.owner, input.donationId, store.donations[input.donationId].status,
                 input.duration, draw.now);
      if made.Err? {
        return Err(made.error);
      }
      var boost := made.value;
      var before := store.View();
      var error := store.CreateBoost(boost);
      if error.None? {
        store.SaveIdempotency(key, Billing.Record(boost.id, ""));
      }
      error := store.EndTx(before, error, draw.commit);
      if error.Some? {
        return Err(error.value);
      }
      return if draw.published then Ok(Billing.BoostBody(boost)) else Err(PublishFailure);
    }

    method CancelBoost(id: string, reason: string, now: Time, saved: Outcome) returns (r: Billing.Reply)
      modifies store
      ensures (store.View(), r) == Billing.CancelBoost(old(store.View()), id, reason, now, saved)
      ensures old(store.Keyed()) ==> store.Keyed()
    {
      if id !in store.boosts {
        return Err(NotFound);
      }
      var boost := new BoostObject(store.boosts[id]);
      boost.Cancel(reason, now);
      if saved.Applied() {
        store.boosts := store.boosts[id := boost.value];
      }
      return if saved.Reported() then Ok(Billing.BoostBody(boost.value)) else Err(StorageFailure);
    }

    /** `rows` is the listing that a replay searches. */
    method PurchaseEntitlement(input: Billing.PurchaseInput, draw: Billing.PurchaseDraw, rows: seq<Entitlement>)
      returns (r: Billing.Reply)
      requires store.Keyed() && IsListing(store.entitlements, input.owner, draw.dbNow, rows)
      modifies store
      ensures (store.View(), r) == Billing.PurchaseEntitlement(old(store.View()), input, draw)
      ensures store.Keyed()
    {
      var key := Billing.KeyId(Billing.PurchaseScope, TrimSpace(input.key));
      if key.key == "" {
        return Err(Validation);
      }
      if key in store.keys {
        r := ReplayPurchase(store.keys[key], input.owner, draw.dbNow, rows);
        return;
      }
      var made := NewDonation(draw.donationId, input.owner, Shelter, input.owner, input.amount, "mock", draw.now);
      if made.Err? {
        return Err(made.error);
      }
      if draw.intent.None? || draw.confirmed.None? {
        return Err(PaymentFailure);
      }
      if !draw.confirmed.value {
        return Err(Validation);
      }
      var donation := new DonationObject(made.value);
      var refused := donation.MarkSucceeded(draw.intent.value, draw.now);
      if refused.Some? {
        return Err(refused.value);
      }
      var granted :=
        NewEntitlement(draw.entitlementId, input.owner, input.kind, input.resourceId, input.duration, draw.now);
      if granted.Err? {
        return Err(granted.error);
      }
      var error := PersistPurchase(donation.value, granted.value, key, draw);
      if error.Some? {
        return Err(error.value);
      }
      return if draw.published then Ok(Billing.EntitlementBody(granted.value, donation.value)) else Err(PublishFailure);
    }

    method ReplayPurchase(record: Billing.Record, owner: string, now: Time, rows: seq<Entitlement>)
      returns (r: Billing.Reply)
      requires store.Keyed() && IsListing(store.entitlements, owner, now, rows)
      ensures r == if record.resourceId in store.entitlements
                      && Billing.Listed(store.entitlements[record.resourceId], owner, now)
                      && record.relatedId in store.donations
                   then Ok(Billing.EntitlementBody(store.entitlements[record.resourceId],
                                                   store.donations[record.relatedId]))
                   else Err(NotFound)
    {
      for i := 0 to |rows|
        invariant forall j :: 0 <= j < i ==> rows[j].id != record.resourceId
      {
        if rows[i].id == record.resourceId {
          return if record.relatedId in store.donations
                 then Ok(Billing.EntitlementBody(rows[i], store.donations[record.relatedId])) else Err(NotFound);
        }
      }
      return Err(NotFound);
    }

    method PersistPurchase(d: Donation, e: Entitlement, key: Billing.KeyId, draw: Billing.PurchaseDraw)
      returns (error: Option<Error>)
      requires store.Keyed()
      modifies store
      ensures (store.View(), error) == Billing.Commit(old(store.View()),
                Billing.PurchaseTx(old(store.View()), d, e, key, draw.ledgerId, draw.now), draw.commit)
      ensures store.Keyed()
    {
      var before := store.View();
      error := store.CreateDonation(d);
      if error.None? {
        error := store.CreateEntitlement(e);
      }
      if error.None? {
        error := store.AddLedgerEntry(Entry(draw.ledgerId, e.owner, d.amount, EntitlementPurchased, e.id, draw.now));
      }
      if error.None? {
        store.SaveIdempotency(key, Billing.Record(e.id, d.id));
      }
      error := store.EndTx(before, error, draw.commit);
    }
  }
}
