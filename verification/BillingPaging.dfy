/** The donation and ledger listings: keyset pages over tables that grow, and the text of their page tokens. */
module BillingPaging {
  import opened Common
  import opened Encoding
  import opened BillingDomain
  import opened Keyset
  import opened Billing
  import opened BillingRuns
  import opened BillingTheorems

  // ---------- Page tokens ----------

  /** The time layout of the cursor, RFC 3339 with nanoseconds; only that it can be read back matters. */
  datatype TimeText = TimeText(format: Time -> string, parse: string -> Option<Time>)
  {
    predicate Reads(at: Time) {
      parse(format(at)) == Some(at) && '|' !in format(at) && IsAscii(format(at))
    }
  }

  /** `strings.SplitN(s, sep, 2)` when the separator occurs: what is before the first one and what is after it. */
  function Cut(s: string, sep: char): Option<(string, string)> {
    if s == "" then None
    else if s[0] == sep then Some(("", s[1..]))
    else
      match Cut(s[1..], sep)
      case None => None
      case Some((before, after)) => Some(([s[0]] + before, after))
  }

  lemma {:induction false} CutFirst(before: string, after: string, sep: char)
    requires sep !in before
    ensures Cut(before + [sep] + after, sep) == Some((before, after))
  {
    var s := before + [sep] + after;
    if before == "" {
      assert s[1..] == after;
    } else {
      CutFirst(before[1..], after, sep);
      assert before == [before[0]] + before[1..];
      assert s[0] == before[0] && s[1..] == before[1..] + [sep] + after;
    }
  }

  function EncodeCursor(key: Key, text: TimeText): string
    requires IsAscii(text.format(key.at)) && IsAscii(key.id)
  {
    EncodeBase64(TextBytes(text.format(key.at) + "|" + key.id), UrlAlphabet)
  }

  function DecodeCursor(token: string, text: TimeText): Result<Option<Key>, Error> {
    if token == "" then Ok(None)
    else
      match DecodeBase64(token, UrlAlphabet)
      case None => Err(Validation)
      case Some(bytes) =>
        match Cut(BytesText(bytes), '|')
        case None => Err(Validation)
        case Some((at, id)) =>
          if id == "" || text.parse(at).None? then Err(Validation) else Ok(Some(Key(text.parse(at).value, id)))
  }

  /**
   Reading a token gives back the row it was made from, for every identifier but the empty one, even one with a '|'.
   */
  lemma CursorRoundTrip(key: Key, text: TimeText)
    requires text.Reads(key.at) && IsAscii(key.id)
    ensures DecodeCursor(EncodeCursor(key, text), text) == if key.id != "" then Ok(Some(key)) else Err(Validation)
  {
    var s := text.format(key.at) + "|" + key.id;
    Base64RoundTrip(TextBytes(s), UrlAlphabet);
    TextRoundTrip(s);
    CutFirst(text.format(key.at), key.id, '|');
    assert s == text.format(key.at) + ['|'] + key.id;
  }

  /** No token is the start; what is not base64 of a time, a separator and an identifier is refused, and no other. */
  lemma RefusedTokensExactly(token: string, text: TimeText)
    ensures DecodeCursor("", text) == Ok(None)
    ensures DecodeCursor(token, text).Err? ==> DecodeCursor(token, text).error == Validation
    ensures token != "" ==>
      (DecodeCursor(token, text).Ok? <==>
         && DecodeBase64(token, UrlAlphabet).Some?
         && var cut := Cut(BytesText(DecodeBase64(token, UrlAlphabet).value), '|');
            cut.Some? && cut.value.1 != "" && text.parse(cut.value.0).Some?)
  {
  }

  // ---------- The two listings ----------

  /** A size from 1 to 100 is granted, a larger one cut to 100, and without one it is 50. */
  function PageSize(requested: int): (size: nat)
    ensures 0 < size <= 100 && (0 < requested <= 100 ==> size == requested)
    ensures (requested <= 0 ==> size == 50) && (requested > 100 ==> size == 100)
  {
    if requested <= 0 then 50 else if requested > 100 then 100 else requested
  }

  function DonationKey(d: Donation): Key {
    Key(d.createdAt, d.id)
  }

  function EntryKey(e: Entry): Key {
    Key(e.createdAt, e.id)
  }

  /** An empty profile and an unspecified target type select everything. */
  predicate SelectsDonation(d: Donation, profile: string, targetType: TargetType) {
    (profile == "" || d.payer == profile) && (targetType == TargetUnspecified || d.targetType == targetType)
  }

  predicate SelectsEntry(e: Entry, profile: string) {
    profile == "" || e.profile == profile
  }

  ghost function DonationKeys(t: Tables, profile: string, targetType: TargetType): set<Key> {
    set id | id in t.donations && SelectsDonation(t.donations[id], profile, targetType) :: DonationKey(t.donations[id])
  }

  ghost function EntryKeys(t: Tables, profile: string): set<Key> {
    set id | id in t.ledger && SelectsEntry(t.ledger[id], profile) :: EntryKey(t.ledger[id])
  }

  /** A donation is listed under its payer, or under no profile, and under its target type, or none. */
  lemma DonationListedExactly(t: Tables, profile: string, targetType: TargetType, id: string)
    requires DonationRows(t.donations) && id in t.donations
    ensures DonationKey(t.donations[id]) in DonationKeys(t, profile, targetType)
       <==> && (profile == "" || t.donations[id].payer == profile)
            && (targetType == TargetUnspecified || t.donations[id].targetType == targetType)
  {
  }

  /** A ledger entry is listed under its profile, or under none. */
  lemma EntryListedExactly(t: Tables, profile: string, id: string)
    requires (forall e :: e in t.ledger ==> t.ledger[e].id == e) && id in t.ledger
    ensures EntryKey(t.ledger[id]) in EntryKeys(t, profile) <==> profile == "" || t.ledger[id].profile == profile
  {
  }

  /** `rows` is the database's answer to the page query; the reply is the page that the tables call for. */
  method ListDonations(ghost t: Tables, ghost profile: string, ghost targetType: TargetType, pageSize: int,
                       token: string, text: TimeText, rows: seq<Donation>)
    returns (r: Result<Page<Donation>, Error>)
    requires DecodeCursor(token, text).Ok? ==>
      KeysOf(rows, DonationKey)
      == Query(DonationKeys(t, profile, targetType), DecodeCursor(token, text).value, PageSize(pageSize) + 1)
    ensures r.Ok? <==> DecodeCursor(token, text).Ok?
    ensures r.Err? ==> r.error == Validation
    ensures r.Ok? ==>
      && r.value.items <= rows
      && Page(KeysOf(r.value.items, DonationKey), r.value.next)
         == PageOf(DonationKeys(t, profile, targetType), DecodeCursor(token, text).value, PageSize(pageSize))
  {
    var cursor := DecodeCursor(token, text);
    if cursor.Err? {
      return Err(cursor.error);
    }
    var page := Collect(rows, PageSize(pageSize), DonationKey);
    CutIsPage(DonationKeys(t, profile, targetType), cursor.value, PageSize(pageSize), rows, DonationKey, page);
    return Ok(page);
  }

  method ListLedgerEntries(ghost t: Tables, ghost profile: string, pageSize: int, token: string, text: TimeText,
                           rows: seq<Entry>)
    returns (r: Result<Page<Entry>, Error>)
    requires DecodeCursor(token, text).Ok? ==>
      KeysOf(rows, EntryKey) == Query(EntryKeys(t, profile), DecodeCursor(token, text).value, PageSize(pageSize) + 1)
    ensures r.Ok? <==> DecodeCursor(token, text).Ok?
    ensures r.Err? ==> r.error == Validation
    ensures r.Ok? ==>
      && r.value.items <= rows
      && Page(KeysOf(r.value.items, EntryKey), r.value.next)
         == PageOf(EntryKeys(t, profile), DecodeCursor(token, text).value, PageSize(pageSize))
  {
    var cursor := DecodeCursor(token, text);
    if cursor.Err? {
      return Err(cursor.error);
    }
    var page := Collect(rows, PageSize(pageSize), EntryKey);
    CutIsPage(EntryKeys(t, profile), cursor.value, PageSize(pageSize), rows, EntryKey, page);
    return Ok(page);
  }

  // ---------- Crawling while the service runs ----------

  /** h[i] are the tables at request i, and runs[i] is what happens between it and the next. */
  ghost predicate IsHistory(h: seq<Tables>, runs: seq<seq<Step>>) {
    && |h| == |runs| + 1
    && forall i :: 0 <= i < |runs| ==> IsRun(h[i], runs[i]) && h[i + 1] == Run(h[i], runs[i])
  }

  lemma {:induction false} HistoryInv(h: seq<Tables>, runs: seq<seq<Step>>, i: nat)
    requires IsHistory(h, runs) && Inv(h[0]) && i <= |runs|
    ensures Inv(h[i])
  {
    if i > 0 {
      HistoryInv(h, runs, i - 1);
      RunKeeps(h[i - 1], runs[i - 1]);
      assert h[i - 1 + 1] == Run(h[i - 1], runs[i - 1]);
    }
  }

  lemma DonationKeysGrow(t: Tables, t': Tables, profile: string, targetType: TargetType)
    requires DonationsEvolve(t.donations, t'.donations)
    ensures DonationKeys(t, profile, targetType) <= DonationKeys(t', profile, targetType)
  {
    forall key | key in DonationKeys(t, profile, targetType) ensures key in DonationKeys(t', profile, targetType) {
      var id :| id in t.donations && SelectsDonation(t.donations[id], profile, targetType)
                && DonationKey(t.donations[id]) == key;
      assert id in t'.donations && DonationEvolves(t.donations[id], t'.donations[id]);
    }
  }

  lemma EntryKeysGrow(t: Tables, t': Tables, profile: string)
    requires Keeps(t.ledger, t'.ledger)
    ensures EntryKeys(t, profile) <= EntryKeys(t', profile)
  {
    forall key | key in EntryKeys(t, profile) ensures key in EntryKeys(t', profile) {
      var id :| id in t.ledger && SelectsEntry(t.ledger[id], profile) && EntryKey(t.ledger[id]) == key;
      assert id in t'.ledger && t'.ledger[id] == t.ledger[id];
    }
  }

  lemma DonationTableGrows(h: seq<Tables>, runs: seq<seq<Step>>, i: nat, profile: string, targetType: TargetType)
    requires IsHistory(h, runs) && Inv(h[0]) && i < |runs|
    ensures DonationKeys(h[i], profile, targetType) <= DonationKeys(h[i + 1], profile, targetType)
  {
    HistoryInv(h, runs, i);
    RunKeeps(h[i], runs[i]);
    DonationKeysGrow(h[i], Run(h[i], runs[i]), profile, targetType);
  }

  lemma LedgerTableGrows(h: seq<Tables>, runs: seq<seq<Step>>, i: nat, profile: string)
    requires IsHistory(h, runs) && Inv(h[0]) && i < |runs|
    ensures EntryKeys(h[i], profile) <= EntryKeys(h[i + 1], profile)
  {
    HistoryInv(h, runs, i);
    RunKeeps(h[i], runs[i]);
    EntryKeysGrow(h[i], Run(h[i], runs[i]), profile);
  }

  ghost function DonationTables(h: seq<Tables>, profile: string, targetType: TargetType): (r: seq<set<Key>>)
    ensures |r| == |h| && forall i :: 0 <= i < |h| ==> r[i] == DonationKeys(h[i], profile, targetType)
  {
    seq(|h|, i requires 0 <= i < |h| => DonationKeys(h[i], profile, targetType))
  }

  ghost function EntryTables(h: seq<Tables>, profile: string): (r: seq<set<Key>>)
    ensures |r| == |h| && forall i :: 0 <= i < |h| ==> r[i] == EntryKeys(h[i], profile)
  {
    seq(|h|, i requires 0 <= i < |h| => EntryKeys(h[i], profile))
  }

  /** Status changes do not disturb a crawl of the donations: each one there at its start is returned exactly once. */
  lemma DonationCrawlIsComplete(h: seq<Tables>, runs: seq<seq<Step>>, profile: string, targetType: TargetType,
                                size: nat)
    requires IsHistory(h, runs) && Reachable(h[0]) && size > 0
    requires Ends(DonationTables(h, profile, targetType), None, size)
    ensures var all := Crawl(DonationTables(h, profile, targetType), None, size);
      && Descends(all) && (forall key :: Occurrences(all, key) <= 1)
      && (forall id :: id in h[0].donations && SelectsDonation(h[0].donations[id], profile, targetType)
            ==> Occurrences(all, DonationKey(h[0].donations[id])) == 1)
  {
    ReachableInv(h[0]);
    var tables := DonationTables(h, profile, targetType);
    forall i | 0 <= i < |tables| - 1 ensures tables[i] <= tables[i + 1] {
      DonationTableGrows(h, runs, i, profile, targetType);
    }
    StepwiseInsertOnly(tables);
    CrawlIsComplete(tables, size);
    forall id | id in h[0].donations && SelectsDonation(h[0].donations[id], profile, targetType)
      ensures DonationKey(h[0].donations[id]) in tables[0]
    {
    }
  }

  /** A crawl of the ledger returns each entry there at its start exactly once. */
  lemma LedgerCrawlIsComplete(h: seq<Tables>, runs: seq<seq<Step>>, profile: string, size: nat)
    requires IsHistory(h, runs) && Reachable(h[0]) && size > 0
    requires Ends(EntryTables(h, profile), None, size)
    ensures var all := Crawl(EntryTables(h, profile), None, size);
      && Descends(all) && (forall key :: Occurrences(all, key) <= 1)
      && (forall id :: id in h[0].ledger && SelectsEntry(h[0].ledger[id], profile)
            ==> Occurrences(all, EntryKey(h[0].ledger[id])) == 1)
  {
    ReachableInv(h[0]);
    var tables := EntryTables(h, profile);
    forall i | 0 <= i < |tables| - 1 ensures tables[i] <= tables[i + 1] {
      LedgerTableGrows(h, runs, i, profile);
    }
    StepwiseInsertOnly(tables);
    CrawlIsComplete(tables, size);
    forall id | id in h[0].ledger && SelectsEntry(h[0].ledger[id], profile)
      ensures EntryKey(h[0].ledger[id]) in tables[0]
    {
    }
  }
}
