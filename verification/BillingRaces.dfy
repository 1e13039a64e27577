/**
 Confirmations that overlap. The look-up of the key, the read of the donation and the transaction are steps of their
 own, so that any number of confirmations interleave with each other and with the other billing calls.
 */
module BillingRaces {
  import opened Common
  import opened Text
  import opened BillingDomain
  import opened Billing
  import opened BillingRuns

  /** How far a confirmation has come: it has found its key unused, or has read its donation as well. */
  datatype Call = LookedUp(key: KeyId, donationId: string) | HasRead(key: KeyId, donation: Donation)

  datatype World = World(tables: Tables, calls: map<int, Call>)

  datatype Act =
    | LookUp(i: int, input: ConfirmInput)
    | ReadDonation(i: int)
    | Write(i: int, draw: ConfirmDraw)
    | Crash(i: int)
    | Other(step: Step)

  predicate Enabled(w: World, act: Act) {
    match act
    case LookUp(i, _) => i !in w.calls
    case ReadDonation(i) => i in w.calls && w.calls[i].LookedUp?
    case Write(i, draw) => i in w.calls && w.calls[i].HasRead? && draw.ledgerId !in w.tables.ledger
    case Crash(i) => i in w.calls
    case Other(step) => !step.Confirm? && Billing.Enabled(w.tables, step)
  }

  function Apply(w: World, act: Act): World
    requires Enabled(w, act)
  {
    match act
    case LookUp(i, input) =>
      var key := KeyId(ConfirmScope, TrimSpace(input.key));
      if key.key == "" || key in w.tables.keys then w
      else w.(calls := w.calls[i := LookedUp(key, input.donationId)])
    case ReadDonation(i) =>
      var LookedUp(key, id) := w.calls[i];
      if id !in w.tables.donations then w.(calls := w.calls - {i})
      else w.(calls := w.calls[i := HasRead(key, w.tables.donations[id])])
    case Write(i, draw) =>
      var HasRead(key, d) := w.calls[i];
      World(ConfirmWrite(w.tables, d, key, draw).0, w.calls - {i})
    case Crash(i) => w.(calls := w.calls - {i})
    case Other(step) => w.(tables := Billing.Apply(w.tables, step))
  }

  predicate IsRun(w: World, acts: seq<Act>)
    decreases |acts|
  {
    acts == [] || (Enabled(w, acts[0]) && IsRun(Apply(w, acts[0]), acts[1..]))
  }

  function Run(w: World, acts: seq<Act>): World
    requires IsRun(w, acts)
    decreases |acts|
  {
    if acts == [] then w else Run(Apply(w, acts[0]), acts[1..])
  }

  /** The three steps in a row are the whole call. */
  lemma CallIsItsSteps(w: World, i: int, input: ConfirmInput, draw: ConfirmDraw)
    requires i !in w.calls && draw.ledgerId !in w.tables.ledger
    requires TrimSpace(input.key) != "" && KeyId(ConfirmScope, TrimSpace(input.key)) !in w.tables.keys
    requires input.donationId in w.tables.donations
    ensures var w1 := Apply(w, LookUp(i, input));
      && Enabled(w1, ReadDonation(i))
      && var w2 := Apply(w1, ReadDonation(i));
      && Enabled(w2, Write(i, draw))
      && Apply(w2, Write(i, draw)) == World(ConfirmDonation(w.tables, input, draw).0, w.calls)
  {
    var w1 := Apply(w, LookUp(i, input));
    var w2 := Apply(w1, ReadDonation(i));
    assert Apply(w2, Write(i, draw)).calls == w.calls;
  }

  // ---------- Entries and records ----------

  /** The write takes effect with a paid donation. */
  predicate Books(w: World, act: Act) {
    && act.Write? && act.i in w.calls && w.calls[act.i].HasRead?
    && ConfirmWrite(w.tables, w.calls[act.i].donation, w.calls[act.i].key, act.draw).0.ledger != w.tables.ledger
  }

  /** And it comes late: since the call looked up its key, another call has recorded it. */
  predicate BooksLate(w: World, act: Act) {
    Books(w, act) && w.calls[act.i].key in w.tables.keys
  }

  function LateBookings(w: World, acts: seq<Act>): nat
    requires IsRun(w, acts)
    decreases |acts|
  {
    if acts == [] then 0
    else (if BooksLate(w, acts[0]) then 1 else 0) + LateBookings(Apply(w, acts[0]), acts[1..])
  }

  /** Only look-ups open calls, under a key of this scope. */
  predicate KeysFit(w: World) {
    forall i :: i in w.calls ==> w.calls[i].key.scope == ConfirmScope
  }

  ghost function EntryCount(t: Tables): nat {
    |Entries(t.ledger, DonationSucceeded, None)|
  }

  ghost function RecordCount(t: Tables): nat {
    |Records(t.keys, ConfirmScope, None)|
  }

  lemma ConfirmTxCounts(t: Tables, d: Donation, k: KeyId, ledgerId: string, now: Time)
    requires ConfirmTx(t, d, k, ledgerId, now).Ok? && ledgerId !in t.ledger && k.scope == ConfirmScope
    ensures var t' := ConfirmTx(t, d, k, ledgerId, now).value;
      && t'.ledger != t.ledger && EntryCount(t') == EntryCount(t) + 1
      && RecordCount(t') == RecordCount(t) + if k in t.keys then 0 else 1
  {
    var e := Entry(ledgerId, d.payer, d.amount, DonationSucceeded, d.id, now);
    EntryAdded(t.ledger, e, DonationSucceeded, None);
    assert ledgerId in t.ledger[ledgerId := e];
    if k !in t.keys {
      RecordAdded(t.keys, k, Record(d.id, ""), ConfirmScope, None);
    }
  }

  lemma WriteCounts(t: Tables, d: Donation, k: KeyId, draw: ConfirmDraw)
    requires draw.ledgerId !in t.ledger && k.scope == ConfirmScope
    ensures var t' := ConfirmWrite(t, d, k, draw).0;
      && EntryCount(t') == EntryCount(t) + (if t'.ledger != t.ledger then 1 else 0)
      && RecordCount(t') == RecordCount(t) + if t'.ledger != t.ledger && k !in t.keys then 1 else 0
  {
    if draw.answer.Some? && draw.answer.value.succeeded {
      var marked := MarkSucceeded(d, draw.answer.value.paymentId, draw.now);
      if marked.Ok? && ConfirmTx(t, marked.value, k, draw.ledgerId, draw.now).Ok? {
        ConfirmTxCounts(t, marked.value, k, draw.ledgerId, draw.now);
      }
    }
  }

  lemma OtherCounts(t: Tables, step: Step)
    requires !step.Confirm? && Billing.Enabled(t, step)
    ensures EntryCount(Billing.Apply(t, step)) == EntryCount(t) && RecordCount(Billing.Apply(t, step)) == RecordCount(t)
  {
    match step
    case Intent(input, draw) =>
      var d := IntentWrites(t, input, draw);
      if Billing.Apply(t, step) != t {
        RecordAdded(t.keys, KeyId(IntentScope, TrimSpace(input.key)), Record(d.value.id, ""), ConfirmScope, None);
      }
    case NewBoostStep(input, draw) =>
      var made := BoostWrites(t, input, draw);
      if Billing.Apply(t, step) != t {
        RecordAdded(t.keys, KeyId(BoostScope, TrimSpace(input.key)), Record(made.value.id, ""), ConfirmScope, None);
      }
    case Purchase(input, draw) => PurchaseCountsNothing(t, input, draw);
    case _ =>
  }

  lemma PurchaseCountsNothing(t: Tables, input: PurchaseInput, draw: PurchaseDraw)
    requires draw.ledgerId !in t.ledger
    ensures var t' := PurchaseEntitlement(t, input, draw).0;
      EntryCount(t') == EntryCount(t) && RecordCount(t') == RecordCount(t)
  {
    var r := PurchaseMakes(t, input, draw);
    if PurchaseEntitlement(t, input, draw).0 != t {
      var (d, x) := r.value;
      var k := KeyId(PurchaseScope, TrimSpace(input.key));
      PurchaseWrites(t, d, x, k, draw.ledgerId, draw.now);
      var e := Entry(draw.ledgerId, x.owner, d.amount, EntitlementPurchased, x.id, draw.now);
      EntryAdded(t.ledger, e, DonationSucceeded, None);
      RecordAdded(t.keys, k, Record(x.id, d.id), ConfirmScope, None);
    }
  }

  lemma ActCounts(w: World, act: Act)
    requires KeysFit(w) && Enabled(w, act)
    ensures KeysFit(Apply(w, act))
    ensures EntryCount(Apply(w, act).tables) == EntryCount(w.tables) + (if Books(w, act) then 1 else 0)
    ensures RecordCount(Apply(w, act).tables)
         == RecordCount(w.tables) + if Books(w, act) && !BooksLate(w, act) then 1 else 0
  {
    match act
    case Write(i, draw) => WriteCounts(w.tables, w.calls[i].donation, w.calls[i].key, draw);
    case Other(step) => OtherCounts(w.tables, step);
    case _ =>
  }

  /**
   Over every interleaving of any number of confirmations, entries run ahead of records by exactly the late bookings:
   those of calls that looked up their key before it was recorded and wrote after.
   */
  lemma {:induction false} EntriesRunAheadExactly(w: World, acts: seq<Act>)
    requires KeysFit(w) && IsRun(w, acts)
    ensures var w' := Run(w, acts);
      EntryCount(w'.tables) - EntryCount(w.tables)
        == RecordCount(w'.tables) - RecordCount(w.tables) + LateBookings(w, acts)
    decreases |acts|
  {
    if acts != [] {
      ActCounts(w, acts[0]);
      EntriesRunAheadExactly(Apply(w, acts[0]), acts[1..]);
    }
  }

  // ---------- Confirmations of one donation under one key ----------

  /** No other donation has the payment. */
  ghost predicate Free(ds: Donations, id: string, paymentId: string)
    requires id in ds
  {
    forall other :: other in ds && other != id && ds[other].provider == ds[id].provider ==>
      ds[other].paymentId != paymentId
  }

  /** The donation as some moment of the race shows it. */
  ghost predicate Fits(ds: Donations, id: string, d: Donation)
    requires id in ds
  {
    && d.id == id && d.provider == ds[id].provider && d.amount == ds[id].amount
    && (d.status == Pending || (d.status == Succeeded && Free(ds, id, d.paymentId)))
  }

  /** The provider accepts the payment, no other donation has it, and the transaction takes effect. */
  ghost predicate Pays(ds: Donations, id: string, draw: ConfirmDraw)
    requires id in ds
  {
    && draw.answer.Some? && draw.answer.value.succeeded && TrimSpace(draw.answer.value.paymentId) != ""
    && Free(ds, id, draw.answer.value.paymentId) && draw.commit.Applied()
  }

  ghost predicate CallFits(ds: Donations, id: string, k: KeyId, call: Call)
    requires id in ds
  {
    call.key == k && match call
    case LookedUp(_, donationId) => donationId == id
    case HasRead(_, d) => Fits(ds, id, d)
  }

  /** Since the start of the race nothing but the contested donation has changed. */
  ghost predicate Racing(ds: Donations, id: string, k: KeyId, w: World)
    requires id in ds
  {
    && w.tables.donations.Keys == ds.Keys && Fits(ds, id, w.tables.donations[id])
    && (forall other :: other in ds && other != id ==> w.tables.donations[other] == ds[other])
    && (forall i {:trigger CallFits(ds, id, k, w.calls[i])} :: i in w.calls ==> CallFits(ds, id, k, w.calls[i]))
  }

  /** The act belongs to a paying confirmation of the donation under the key. */
  ghost predicate Competes(ds: Donations, id: string, k: KeyId, act: Act)
    requires id in ds
  {
    match act
    case LookUp(_, input) => KeyId(ConfirmScope, TrimSpace(input.key)) == k && input.donationId == id
    case ReadDonation(_) => true
    case Write(_, draw) => Pays(ds, id, draw)
    case Crash(_) => true
    case Other(_) => false
  }

  /** A paying write books whatever the moment at which its donation was read. */
  lemma PayingWriteBooks(ds: Donations, id: string, k: KeyId, w: World, d: Donation, draw: ConfirmDraw)
    requires id in ds && AmountOk(ds[id].amount) && Racing(ds, id, k, w) && Fits(ds, id, d) && Pays(ds, id, draw)
    requires draw.ledgerId !in w.tables.ledger
    ensures var t' := ConfirmWrite(w.tables, d, k, draw).0;
      && t'.ledger != w.tables.ledger && k in t'.keys
      && t'.donations.Keys == ds.Keys && Fits(ds, id, t'.donations[id])
      && forall other :: other in ds && other != id ==> t'.donations[other] == ds[other]
  {
    var marked := MarkSucceeded(d, draw.answer.value.paymentId, draw.now).value;
    assert Fits(ds, id, marked);
    MarkedUpdates(ds, id, w.tables, marked);
    UpdatedCommits(w.tables, marked, k, draw.ledgerId, draw.now);
  }

  lemma UpdatedCommits(t: Tables, d: Donation, k: KeyId, ledgerId: string, now: Time)
    requires UpdateDonation(t, d).Ok? && AmountOk(d.amount) && ledgerId !in t.ledger
    requires UpdateDonation(t, d).value.ledger == t.ledger && UpdateDonation(t, d).value.keys == t.keys
    ensures var tx := ConfirmTx(t, d, k, ledgerId, now);
      && tx.Ok? && tx.value.donations == UpdateDonation(t, d).value.donations
      && tx.value.ledger != t.ledger && k in tx.value.keys
  {
    assert ledgerId in ConfirmTx(t, d, k, ledgerId, now).value.ledger;
  }

  lemma MarkedUpdates(ds: Donations, id: string, t: Tables, marked: Donation)
    requires id in ds && t.donations.Keys == ds.Keys && Fits(ds, id, t.donations[id])
    requires forall other :: other in ds && other != id ==> t.donations[other] == ds[other]
    requires Fits(ds, id, marked) && marked.status == Succeeded
    ensures var r := UpdateDonation(t, marked);
      && r.Ok? && r.value.donations.Keys == ds.Keys && Fits(ds, id, r.value.donations[id])
      && r.value.ledger == t.ledger && r.value.keys == t.keys
      && forall other :: other in ds && other != id ==> r.value.donations[other] == ds[other]
  {
  }

  /** How many writes there are. */
  function Writes(acts: seq<Act>): nat {
    if acts == [] then 0 else (if acts[0].Write? then 1 else 0) + Writes(acts[1..])
  }

  lemma ActRaces(ds: Donations, id: string, k: KeyId, w: World, act: Act)
    requires id in ds && AmountOk(ds[id].amount) && Racing(ds, id, k, w) && Enabled(w, act) && Competes(ds, id, k, act)
    ensures Racing(ds, id, k, Apply(w, act))
    ensures Books(w, act) <==> act.Write?
    ensures k in Apply(w, act).tables.keys <==> act.Write? || k in w.tables.keys
  {
    var w' := Apply(w, act);
    forall i | i in w'.calls ensures CallFits(ds, id, k, w'.calls[i]) {
      if i in w.calls {
        assert CallFits(ds, id, k, w.calls[i]);
      }
    }
    if act.Write? {
      assert CallFits(ds, id, k, w.calls[act.i]);
      PayingWriteBooks(ds, id, k, w, w.calls[act.i].donation, act.draw);
    }
  }

  /**
   Any number of paying confirmations of one donation under one unused key, in any interleaving: every call that gets to
   write adds an entry, and all of them together one record.
   */
  lemma {:induction false} RaceBooksEveryWrite(ds: Donations, id: string, k: KeyId, w: World, acts: seq<Act>)
    requires id in ds && AmountOk(ds[id].amount) && k.scope == ConfirmScope && KeysFit(w) && Racing(ds, id, k, w)
    requires IsRun(w, acts) && forall act :: act in acts ==> Competes(ds, id, k, act)
    ensures var w' := Run(w, acts);
      && Racing(ds, id, k, w')
      && EntryCount(w'.tables) == EntryCount(w.tables) + Writes(acts)
      && RecordCount(w'.tables) == RecordCount(w.tables) + (if Writes(acts) > 0 && k !in w.tables.keys then 1 else 0)
      && (k in w'.tables.keys <==> Writes(acts) > 0 || k in w.tables.keys)
    decreases |acts|
  {
    if acts != [] {
      ActRaces(ds, id, k, w, acts[0]);
      ActCounts(w, acts[0]);
      if acts[0].Write? {
        assert CallFits(ds, id, k, w.calls[acts[0].i]);
      }
      RaceBooksEveryWrite(ds, id, k, Apply(w, acts[0]), acts[1..]);
    }
  }

  /** And a call gets to write exactly when it looked up the key before the first write; after it, it is a replay. */
  lemma OpensExactlyBeforeFirstWrite(ds: Donations, id: string, k: KeyId, w: World, before: seq<Act>, i: int,
                                     input: ConfirmInput)
    requires id in ds && AmountOk(ds[id].amount) && k.scope == ConfirmScope && k.key != "" && KeysFit(w)
    requires Racing(ds, id, k, w) && k !in w.tables.keys
    requires IsRun(w, before) && forall act :: act in before ==> Competes(ds, id, k, act)
    requires Enabled(Run(w, before), LookUp(i, input)) && Competes(ds, id, k, LookUp(i, input))
    ensures var w1 := Run(w, before);
      && (i in Apply(w1, LookUp(i, input)).calls <==> Writes(before) == 0)
      && (Writes(before) > 0 ==> Apply(w1, LookUp(i, input)) == w1)
  {
    RaceBooksEveryWrite(ds, id, k, w, before);
  }

  /** A reachable state in which a payable donation is stored is the start of a race. */
  lemma RaceStarts(t: Tables, id: string, k: KeyId)
    requires Inv(t) && id in t.donations && t.donations[id].status in {Pending, Succeeded}
    ensures Racing(t.donations, id, k, World(t, map[])) && AmountOk(t.donations[id].amount) && KeysFit(World(t, map[]))
  {
    assert RowOk(t.donations[id]);
    forall other | other in t.donations && SamePayment(t.donations[other], t.donations[id]) ensures other == id {
    }
  }

  /**
   Two confirmations of a payable donation with one key: if both looked the key up before either committed, they add two
   entries and one record, whenever the second read the donation; if the second looked it up after the first had
   committed, it is a replay and changes nothing.
   */
  lemma InterleavedConfirmsBookTwice(t: Tables, first: ConfirmInput, a: ConfirmDraw, second: ConfirmInput,
                                     b: ConfirmDraw, readLate: bool)
    requires Inv(t) && first.donationId == second.donationId && first.donationId in t.donations
    requires t.donations[first.donationId].status in {Pending, Succeeded}
    requires TrimSpace(first.key) == TrimSpace(second.key) != ""
    requires KeyId(ConfirmScope, TrimSpace(first.key)) !in t.keys
    requires Pays(t.donations, first.donationId, a) && Pays(t.donations, first.donationId, b)
    requires a.ledgerId !in t.ledger && b.ledgerId !in t.ledger && a.ledgerId != b.ledgerId
    ensures var id, k := first.donationId, KeyId(ConfirmScope, TrimSpace(first.key));
      var t1 := ConfirmWrite(t, t.donations[id], k, a).0;
      && id in t1.donations
      && var t2 := ConfirmWrite(t1, if readLate then t1.donations[id] else t.donations[id], k, b).0;
      && EntryCount(t2) == EntryCount(t) + 2 && RecordCount(t2) == RecordCount(t) + 1
      && ConfirmDonation(t1, second, b).0 == t1 && ConfirmDonation(t1, second, b).1.Ok?
  {
    var id, k := first.donationId, KeyId(ConfirmScope, TrimSpace(first.key));
    RaceStarts(t, id, k);
    var d := t.donations[id];
    PayingWriteBooks(t.donations, id, k, World(t, map[]), d, a);
    WriteCounts(t, d, k, a);
    var t1 := ConfirmWrite(t, d, k, a).0;
    var seen := if readLate then t1.donations[id] else d;
    OnlyItsEntry(t, d, k, a);
    PayingWriteBooks(t.donations, id, k, World(t1, map[]), seen, b);
    WriteCounts(t1, seen, k, b);
    assert t1.keys[k].resourceId == id;
  }

  lemma OnlyItsEntry(t: Tables, d: Donation, k: KeyId, draw: ConfirmDraw)
    ensures forall e :: e in ConfirmWrite(t, d, k, draw).0.ledger ==> e in t.ledger || e == draw.ledgerId
    ensures k !in t.keys && k in ConfirmWrite(t, d, k, draw).0.keys ==>
      ConfirmWrite(t, d, k, draw).0.keys[k].resourceId == d.id
  {
  }
}
