/** Serving the feed: visibility filters, and offset paging with opaque tokens. */
module FeedPaging {
  import opened Common
  import opened Encoding
  import opened FeedTypes
  import opened FeedInterleaving
  import opened FeedRank
  import Arithmetic

  const DEFAULT_PAGE_SIZE := 20

  const MAX_PAGE_SIZE := 50

  /** Enum values of the API. */
  const STATUS_AVAILABLE := 2

  const VISIBILITY_PUBLIC := 2

  const VISIBILITY_UNLISTED := 3

  const SURFACE_OWNER_PROFILE := 3

  // ---------- Who may see what ----------

  datatype Viewer = Viewer(actorId: string, surface: int, excluded: set<string>, seen: set<string>)

  predicate VisibleOnSurface(visibility: int, surface: int) {
    visibility == VISIBILITY_PUBLIC || (surface == SURFACE_OWNER_PROFILE && visibility == VISIBILITY_UNLISTED)
  }

  /** A candidate the viewer may be shown. */
  predicate Servable(v: Viewer, c: Candidate) {
    && c.animal.Some?
    && var a := c.animal.value;
    && a.id !in v.excluded && a.id !in v.seen
    && !c.ownerHidden && !c.ownerBlocked
    && (v.actorId != "" ==> a.ownerProfileId != v.actorId)
    && a.status == STATUS_AVAILABLE
    && VisibleOnSurface(a.visibility, v.surface)
  }

  method FilterCandidates(candidates: seq<Candidate>, v: Viewer) returns (filtered: seq<Candidate>)
    ensures filtered == Select(candidates, c => Servable(v, c))
  {
    filtered := [];
    ghost var p := c => Servable(v, c);
    for i := 0 to |candidates|
      invariant filtered == Select(candidates[..i], p)
    {
      var c := candidates[i];
      assert candidates[..i + 1] == candidates[..i] + [c];
      SelectConcat(candidates[..i], [c], p);
      if c.animal.None? {
        continue;
      }
      var id := c.animal.value.id;
      if id in v.excluded {
        continue;
      }
      if id in v.seen {
        continue;
      }
      if c.ownerHidden || c.ownerBlocked {
        continue;
      }
      if v.actorId != "" && c.animal.value.ownerProfileId == v.actorId {
        continue;
      }
      if c.animal.value.status != STATUS_AVAILABLE {
        continue;
      }
      if !VisibleOnSurface(c.animal.value.visibility, v.surface) {
        continue;
      }
      filtered := filtered + [c];
    }
    assert candidates[..|candidates|] == candidates;
  }

  // ---------- Tokens and pages ----------

  datatype Error = InvalidArgument

  /** The bytes of a token, as text; the texts that matter are ASCII. */
  function EncodeToken(offset: nat): string {
    DecimalIsAscii(offset);
    EncodeBase64(TextBytes(Decimal(offset)), UrlAlphabet)
  }

  lemma DecimalIsAscii(n: nat)
    ensures IsAscii(Decimal(n))
  {
  }

  /** A size from 1 to 50 is granted, a larger one cut to 50, and without one it is 20. */
  function ClampPageSize(requested: int): (size: nat)
    ensures 1 <= size <= MAX_PAGE_SIZE && (1 <= requested <= 50 ==> size == requested)
    ensures (requested <= 0 ==> size == 20) && (requested > 50 ==> size == 50)
  {
    if requested <= 0 then DEFAULT_PAGE_SIZE else if requested > MAX_PAGE_SIZE then MAX_PAGE_SIZE else requested
  }

  /** The offset that a token stands for; no token is the start. */
  function OffsetOf(token: string): Result<nat, Error> {
    if token == "" then Ok(0)
    else
      match DecodeBase64(token, UrlAlphabet)
      case None => Err(InvalidArgument)
      case Some(bytes) =>
        match Atoi(BytesText(bytes))
        case None => Err(InvalidArgument)
        case Some(parsed) => if parsed < 0 then Err(InvalidArgument) else Ok(parsed)
  }

  /** `pageBounds`: the page size and the offset. */
  function PageBounds(requested: int, token: string): Result<(nat, nat), Error> {
    match OffsetOf(token)
    case Err(e) => Err(e)
    case Ok(offset) => Ok((ClampPageSize(requested), offset))
  }

  /** `paginate`: one page and the token of the next, which is empty on the last page. */
  function Paginate(s: seq<Candidate>, offset: nat, size: nat): (seq<Candidate>, string) {
    if offset >= |s| then ([], "")
    else
      var end := Min(offset + size, |s|);
      (s[offset..end], if end < |s| then EncodeToken(end) else "")
  }

  /** A token is never empty and stands for its offset. */
  lemma TokenRoundTrip(requested: int, offset: nat)
    requires offset <= MAX_INT
    ensures EncodeToken(offset) != ""
    ensures PageBounds(requested, EncodeToken(offset)) == Ok((ClampPageSize(requested), offset))
  {
    var text := Decimal(offset);
    DecimalIsAscii(offset);
    Base64RoundTrip(TextBytes(text), UrlAlphabet);
    TextRoundTrip(text);
    AtoiDecimal(offset);
    assert TextBytes(text) != [];
  }

  /**
   The pages a client gets that follows the tokens, from one that stands for `offset`; sizes may differ per request.
   */
  function Crawl(s: seq<Candidate>, token: string, sizes: seq<int>): seq<seq<Candidate>>
    decreases |sizes|
  {
    if sizes == [] then []
    else
      match PageBounds(sizes[0], token)
      case Err(_) => []
      case Ok((size, offset)) =>
        var (page, next) := Paginate(s, offset, size);
        [page] + if next == "" then [] else Crawl(s, next, sizes[1..])
  }

  function Concat(pages: seq<seq<Candidate>>): seq<Candidate> {
    if pages == [] then [] else pages[0] + Concat(pages[1..])
  }

  /** The requested sizes are enough to reach the end from an offset. */
  predicate Enough(sizes: seq<int>, n: int) {
    sizes != [] && (n <= ClampPageSize(sizes[0]) || Enough(sizes[1..], n - ClampPageSize(sizes[0])))
  }

  predicate StandsFor(token: string, offset: nat) {
    OffsetOf(token) == Ok(offset)
  }

  lemma TokenStandsFor(offset: nat)
    requires offset <= MAX_INT
    ensures EncodeToken(offset) != "" && StandsFor(EncodeToken(offset), offset)
  {
    TokenRoundTrip(0, offset);
  }

  /** A page is the next stretch of the ranking, and its token, if it has one, stands for the end of it. */
  lemma PageThenRest(s: seq<Candidate>, offset: nat, size: nat) returns (page: seq<Candidate>, next: string)
    requires |s| <= MAX_INT && offset <= |s| && size > 0
    ensures Paginate(s, offset, size) == (page, next)
    ensures if offset + size < |s| then page == s[offset..offset + size] && next != "" && StandsFor(next, offset + size)
            else page == s[offset..] && next == ""
  {
    page, next := Paginate(s, offset, size).0, Paginate(s, offset, size).1;
    if offset + size < |s| {
      TokenStandsFor(offset + size);
    }
  }

  lemma BoundsOf(token: string, offset: nat, requested: int)
    requires StandsFor(token, offset)
    ensures PageBounds(requested, token) == Ok((ClampPageSize(requested), offset))
  {
  }

  lemma OnePage(s: seq<Candidate>, token: string, sizes: seq<int>, size: nat, offset: nat, page: seq<Candidate>,
                next: string)
    requires sizes != [] && PageBounds(sizes[0], token) == Ok((size, offset))
    requires Paginate(s, offset, size) == (page, next)
    ensures Crawl(s, token, sizes) == [page] + if next == "" then [] else Crawl(s, next, sizes[1..])
  {
  }

  /** The same pages by their offsets alone. */
  function PagesFrom(s: seq<Candidate>, offset: nat, sizes: seq<int>): seq<seq<Candidate>>
    requires offset <= |s|
    decreases |sizes|
  {
    if sizes == [] then []
    else
      var end := offset + ClampPageSize(sizes[0]);
      if end < |s| then [s[offset..end]] + PagesFrom(s, end, sizes[1..]) else [s[offset..]]
  }

  lemma {:induction false} CrawlFollowsOffsets(s: seq<Candidate>, token: string, offset: nat, sizes: seq<int>)
    requires |s| <= MAX_INT && offset <= |s| && StandsFor(token, offset)
    ensures Crawl(s, token, sizes) == PagesFrom(s, offset, sizes)
    decreases |sizes|
  {
    if sizes != [] {
      var size := ClampPageSize(sizes[0]);
      var page, next := PageThenRest(s, offset, size);
      BoundsOf(token, offset, sizes[0]);
      OnePage(s, token, sizes, size, offset, page, next);
      if offset + size < |s| {
        CrawlFollowsOffsets(s, next, offset + size, sizes[1..]);
      }
    }
  }

  lemma {:induction false} PagesFromIsRest(s: seq<Candidate>, offset: nat, sizes: seq<int>)
    requires offset <= |s| && Enough(sizes, |s| - offset)
    ensures Concat(PagesFrom(s, offset, sizes)) == s[offset..]
    decreases |sizes|
  {
    var end := offset + ClampPageSize(sizes[0]);
    EnoughRest(sizes, |s| - offset);
    if end < |s| {
      PagesFromIsRest(s, end, sizes[1..]);
      ConcatFirst(s[offset..end], PagesFrom(s, end, sizes[1..]));
      assert s[offset..] == s[offset..end] + s[end..];
    } else {
      ConcatFirst(s[offset..], []);
      assert [s[offset..]] + [] == [s[offset..]];
    }
  }

  /** Following the tokens over an unchanged ranking yields the rest of it, page by page, without gap or repetition. */
  lemma CrawlIsRest(s: seq<Candidate>, token: string, offset: nat, sizes: seq<int>)
    requires |s| <= MAX_INT && offset <= |s| && StandsFor(token, offset) && Enough(sizes, |s| - offset)
    ensures Concat(Crawl(s, token, sizes)) == s[offset..]
  {
    CrawlFollowsOffsets(s, token, offset, sizes);
    PagesFromIsRest(s, offset, sizes);
  }

  lemma EnoughRest(sizes: seq<int>, n: int)
    requires Enough(sizes, n)
    ensures n > ClampPageSize(sizes[0]) ==> Enough(sizes[1..], n - ClampPageSize(sizes[0]))
  {
  }

  lemma ConcatFirst(page: seq<Candidate>, rest: seq<seq<Candidate>>)
    ensures Concat([page] + rest) == page + Concat(rest)
  {
    assert ([page] + rest)[1..] == rest;
  }

  /** The number of pages, counted page by page. */
  function PagesNeeded(n: nat, size: nat): nat
    requires size > 0
  {
    if n <= size then 1 else 1 + PagesNeeded(n - size, size)
  }

  lemma PagesNeededStep(n: nat, size: nat)
    requires size > 0
    ensures PagesNeeded(n, size) == if n <= size then 1 else 1 + PagesNeeded(n - size, size)
  {
  }

  lemma {:induction false} PagesNeededExactly(n: nat, size: nat)
    requires size > 0
    ensures PagesNeeded(n, size) == Max(1, Ceil(n, size))
    decreases n
  {
    if n <= size {
      CeilFacts(n, size);
    } else {
      PagesNeededExactly(n - size, size);
      CeilFacts(n - size, size);
      CeilPositive(n - size, size);
    }
  }

  lemma CeilPositive(n: nat, d: nat)
    requires n > 0 && d > 0
    ensures Ceil(n, d) >= 1
  {
    Arithmetic.DivMod(n + d - 1, d);
  }

  lemma {:induction false} PagesFromCount(s: seq<Candidate>, offset: nat, requested: int, sizes: seq<int>)
    requires offset <= |s| && Enough(sizes, |s| - offset)
    requires forall i :: 0 <= i < |sizes| ==> sizes[i] == requested
    ensures |PagesFrom(s, offset, sizes)| == PagesNeeded(|s| - offset, ClampPageSize(requested))
    decreases |sizes|
  {
    var size := ClampPageSize(requested);
    var end := offset + size;
    EnoughRest(sizes, |s| - offset);
    PagesNeededStep(|s| - offset, size);
    if end < |s| {
      PagesFromCount(s, end, requested, sizes[1..]);
    }
  }

  /** With one page size throughout, the crawl takes ceil(n / size) requests, and one if there is nothing. */
  lemma CrawlLength(s: seq<Candidate>, requested: int, sizes: seq<int>)
    requires |s| <= MAX_INT && Enough(sizes, |s|) && forall i :: 0 <= i < |sizes| ==> sizes[i] == requested
    ensures |Crawl(s, "", sizes)| == Max(1, Ceil(|s|, ClampPageSize(requested)))
  {
    CrawlFollowsOffsets(s, "", 0, sizes);
    PagesFromCount(s, 0, requested, sizes);
    PagesNeededExactly(|s|, ClampPageSize(requested));
  }

  /**
   Over an unchanged set of candidates, a client that follows the tokens from the start gets the ranking of exactly the
   candidates it may see: every one of them once, and no other.
   */
  lemma FeedServesExactly(candidates: seq<Candidate>, v: Viewer, organicAfterBoost: int, sizes: seq<int>)
    requires var n := |Select(candidates, c => Servable(v, c))|; n <= MAX_INT && Enough(sizes, n)
    ensures var visible := Select(candidates, c => Servable(v, c));
      var served := Concat(Crawl(Rank(visible, organicAfterBoost), "", sizes));
      && served == Rank(visible, organicAfterBoost)
      && multiset(served) == multiset(visible)
      && forall c :: c in served <==> c in candidates && Servable(v, c)
  {
    var p := c => Servable(v, c);
    var visible := Select(candidates, p);
    var ranked := Rank(visible, organicAfterBoost);
    RankExactly(visible, organicAfterBoost);
    CrawlIsRest(ranked, "", 0, sizes);
    assert ranked[0..] == ranked;
    forall c ensures c in ranked <==> c in candidates && Servable(v, c) {
      SameMembers(ranked, visible, c);
      SelectMember(candidates, p, c);
    }
  }

  lemma SameMembers<T>(a: seq<T>, b: seq<T>, x: T)
    requires multiset(a) == multiset(b)
    ensures x in a <==> x in b
  {
    assert x in a <==> x in multiset(a);
    assert x in b <==> x in multiset(b);
  }

  /**
   Who is shown what, over all pages: a candidate is served if and only if it has an animal that the viewer has neither
   excluded nor seen, whose owner is neither hidden nor blocked nor the viewer, that is available, and that is public,
   or unlisted and on its owner's profile.
   */
  lemma ShownExactly(candidates: seq<Candidate>, v: Viewer, organicAfterBoost: int, sizes: seq<int>, c: Candidate)
    requires var n := |Select(candidates, c => Servable(v, c))|; n <= MAX_INT && Enough(sizes, n)
    ensures c in Concat(Crawl(Rank(Select(candidates, c => Servable(v, c)), organicAfterBoost), "", sizes))
       <==> && c in candidates && c.animal.Some?
            && c.animal.value.id !in v.excluded && c.animal.value.id !in v.seen && !c.ownerHidden && !c.ownerBlocked
            && (v.actorId == "" || c.animal.value.ownerProfileId != v.actorId) && c.animal.value.status == 2
            && (c.animal.value.visibility == 2 || (c.animal.value.visibility == 3 && v.surface == 3))
  {
    FeedServesExactly(candidates, v, organicAfterBoost, sizes);
  }

  /** The part of `GetFeed` between loading the candidates and building cards. */
  method ServePage(candidates: seq<Candidate>, v: Viewer, organicAfterBoost: int, requested: int, token: string)
    returns (r: Result<(seq<Candidate>, string), Error>)
    ensures r.Err? <==> PageBounds(requested, token).Err?
    ensures r.Ok? ==>
      var (size, offset) := PageBounds(requested, token).value;
      r.value == Paginate(Rank(Select(candidates, c => Servable(v, c)), organicAfterBoost), offset, size)
  {
    var bounds := PageBounds(requested, token);
    if bounds.Err? {
      return Err(bounds.error);
    }
    var filtered := FilterCandidates(candidates, v);
    var ranked := RankCandidates(filtered, organicAfterBoost);
    var (size, offset) := bounds.value;
    r := Ok(Paginate(ranked, offset, size));
  }
}
