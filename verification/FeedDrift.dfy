/**
 Following the tokens of a feed whose ranking changes between requests: a token is an offset, so it counts the cards of
 the ranking that it meets, not those of the ranking that it was made for.
 */
module FeedDrift {
  import opened Common
  import opened Encoding
  import opened FeedTypes
  import opened FeedInterleaving
  import opened FeedRank
  import opened FeedPaging

  /** One request, with the ranking that the feed has when it comes. */
  datatype Request = Request(ranking: seq<Candidate>, requested: int)

  ghost predicate Fit(requests: seq<Request>) {
    forall r :: r in requests ==> |r.ranking| <= MAX_INT
  }

  /** The pages of a client that follows the tokens while the ranking changes. */
  function CrawlOver(requests: seq<Request>, token: string): seq<seq<Candidate>>
    decreases |requests|
  {
    if requests == [] then []
    else
      match PageBounds(requests[0].requested, token)
      case Err(_) => []
      case Ok((size, offset)) =>
        var (page, next) := Paginate(requests[0].ranking, offset, size);
        [page] + if next == "" then [] else CrawlOver(requests[1..], next)
  }

  /** Where the window of a request begins, when the first one begins at `offset`. */
  function Begin(requests: seq<Request>, offset: nat, i: nat): (begin: nat)
    requires i <= |requests|
    ensures begin >= offset
  {
    if i == 0 then offset
    else Begin(requests[1..], offset + ClampPageSize(requests[0].requested), i - 1)
  }

  /** What lies in a window of a ranking. */
  function Window(s: seq<Candidate>, from: nat, to: nat): seq<Candidate>
    requires from <= to
  {
    s[Min(from, |s|)..Min(to, |s|)]
  }

  lemma PageIsWindow(s: seq<Candidate>, offset: nat, size: nat)
    requires |s| <= MAX_INT && size > 0
    ensures var (page, next) := Paginate(s, offset, size);
      && page == Window(s, offset, offset + size)
      && next == if offset + size < |s| then EncodeToken(offset + size) else ""
  {
  }

  /** The same pages by their windows alone. */
  function PagesOver(requests: seq<Request>, offset: nat): (pages: seq<seq<Candidate>>)
    ensures |pages| <= |requests| && (requests != [] ==> pages != [])
    decreases |requests|
  {
    if requests == [] then []
    else
      var s, end := requests[0].ranking, offset + ClampPageSize(requests[0].requested);
      [Window(s, offset, end)] + if end < |s| then PagesOver(requests[1..], end) else []
  }

  lemma OneRequest(requests: seq<Request>, token: string, size: nat, offset: nat, page: seq<Candidate>, next: string)
    requires requests != [] && PageBounds(requests[0].requested, token) == Ok((size, offset))
    requires Paginate(requests[0].ranking, offset, size) == (page, next)
    ensures CrawlOver(requests, token) == [page] + if next == "" then [] else CrawlOver(requests[1..], next)
  {
  }

  /** A page, and its token if it has one; what the token looks like does not matter. */
  lemma PageAt(s: seq<Candidate>, offset: nat, size: nat) returns (page: seq<Candidate>, next: string)
    requires |s| <= MAX_INT && size > 0
    ensures Paginate(s, offset, size) == (page, next) && page == Window(s, offset, offset + size)
    ensures if offset + size < |s| then next != "" && StandsFor(next, offset + size) else next == ""
  {
    PageIsWindow(s, offset, size);
    page, next := Paginate(s, offset, size).0, Paginate(s, offset, size).1;
    if offset + size < |s| {
      TokenStandsFor(offset + size);
    }
  }

  lemma {:induction false} CrawlFollowsWindows(requests: seq<Request>, token: string, offset: nat)
    requires StandsFor(token, offset) && Fit(requests)
    ensures CrawlOver(requests, token) == PagesOver(requests, offset)
    decreases |requests|
  {
    if requests != [] {
      var size := ClampPageSize(requests[0].requested);
      var page, next := PageAt(requests[0].ranking, offset, size);
      BoundsOf(token, offset, requests[0].requested);
      OneRequest(requests, token, size, offset, page, next);
      if offset + size < |requests[0].ranking| {
        CrawlFollowsWindows(requests[1..], next, offset + size);
      }
    }
  }

  lemma {:induction false} BeginNext(requests: seq<Request>, offset: nat, i: nat)
    requires i < |requests|
    ensures Begin(requests, offset, i + 1) == Begin(requests, offset, i) + ClampPageSize(requests[i].requested)
  {
    if i > 0 {
      BeginNext(requests[1..], offset + ClampPageSize(requests[0].requested), i - 1);
    }
  }

  /**
   Page `i` is the window that the sizes of the requests before it leave it, in the ranking of its own moment; and
   another follows exactly while that ranking reaches beyond it.
   */
  lemma {:induction false} PagesAreWindows(requests: seq<Request>, offset: nat, i: nat)
    requires i < |PagesOver(requests, offset)|
    ensures Begin(requests, offset, i) <= Begin(requests, offset, i + 1)
    ensures PagesOver(requests, offset)[i]
         == Window(requests[i].ranking, Begin(requests, offset, i), Begin(requests, offset, i + 1))
    ensures i + 1 < |PagesOver(requests, offset)|
       <==> i + 1 < |requests| && Begin(requests, offset, i + 1) < |requests[i].ranking|
    decreases |requests|
  {
    var end := offset + ClampPageSize(requests[0].requested);
    BeginNext(requests, offset, i);
    if i > 0 {
      PagesAreWindows(requests[1..], end, i - 1);
    }
  }

  lemma {:induction false} InConcat(pages: seq<seq<Candidate>>, c: Candidate)
    ensures c in Concat(pages) <==> exists i :: 0 <= i < |pages| && c in pages[i]
    decreases |pages|
  {
    if pages != [] {
      InConcat(pages[1..], c);
      if i :| 0 <= i < |pages| && c in pages[i] {
        assert i > 0 ==> pages[1..][i - 1] == pages[i];
      }
      if j :| 0 <= j < |pages[1..]| && c in pages[1..][j] {
        assert pages[j + 1] == pages[1..][j];
      }
    }
  }

  /** At request `i` the card is at a position inside the request's window. */
  predicate Met(requests: seq<Request>, offset: nat, i: nat, c: Candidate)
    requires i < |requests|
  {
    exists p :: 0 <= p < |requests[i].ranking| && requests[i].ranking[p] == c
                && Begin(requests, offset, i) <= p < Begin(requests, offset, i + 1)
  }

  /**
   However the ranking changes between the requests, a card is served if and only if at one of the requests made its
   position is in that request's window. So a card is skipped that is behind a window before a request and ahead of the
   next one after it, and one that moves the other way is served twice.
   */
  lemma ServedExactly(requests: seq<Request>, token: string, offset: nat, c: Candidate)
    requires StandsFor(token, offset) && Fit(requests)
    ensures |CrawlOver(requests, token)| <= |requests|
    ensures c in Concat(CrawlOver(requests, token))
       <==> exists i :: 0 <= i < |CrawlOver(requests, token)| && Met(requests, offset, i, c)
  {
    CrawlFollowsWindows(requests, token, offset);
    var pages := PagesOver(requests, offset);
    InConcat(pages, c);
    forall i | 0 <= i < |pages| ensures c in pages[i] <==> Met(requests, offset, i, c) {
      PagesAreWindows(requests, offset, i);
      InWindow(requests[i].ranking, Begin(requests, offset, i), Begin(requests, offset, i + 1), c);
    }
  }

  lemma InWindow(s: seq<Candidate>, from: nat, to: nat, c: Candidate)
    requires from <= to
    ensures c in Window(s, from, to) <==> exists p :: 0 <= p < |s| && s[p] == c && from <= p < to
  {
    if c in Window(s, from, to) {
      var k :| 0 <= k < |Window(s, from, to)| && Window(s, from, to)[k] == c;
      assert s[Min(from, |s|) + k] == c;
    }
    if p :| 0 <= p < |s| && s[p] == c && from <= p < to {
      assert Window(s, from, to)[p - from] == c;
    }
  }

  // ---------- One change ----------

  /** The ranking changes once, after `n` cards: what is served is the first part of the old and the rest of the new. */
  lemma RestOfNew(s': seq<Candidate>, n: nat, token: string, sizes: seq<int>)
    requires StandsFor(token, n) && |s'| <= MAX_INT && Enough(sizes, |s'| - n)
    ensures Concat(Crawl(s', token, sizes)) == s'[Min(n, |s'|)..]
  {
    if n <= |s'| {
      CrawlIsRest(s', token, n, sizes);
    } else {
      assert PageBounds(sizes[0], token) == Ok((ClampPageSize(sizes[0]), n));
      assert Crawl(s', token, sizes) == [[]] + [];
      ConcatFirst([], []);
    }
  }

  /** The cards of a set of rows that a viewer has seen by now. */
  function Ids(cards: seq<Candidate>): set<string> {
    set c | c in cards && c.animal.Some? :: c.animal.value.id
  }

  /** The viewer once it has swiped these cards as well. */
  function HavingSeen(v: Viewer, cards: seq<Candidate>): Viewer {
    v.(seen := v.seen + Ids(cards))
  }

  function Ranking(candidates: seq<Candidate>, v: Viewer, organicAfterBoost: int): seq<Candidate> {
    Rank(Select(candidates, c => Servable(v, c)), organicAfterBoost)
  }

  lemma RankingMember(candidates: seq<Candidate>, v: Viewer, organicAfterBoost: int, c: Candidate)
    ensures c in Ranking(candidates, v, organicAfterBoost) <==> c in candidates && Servable(v, c)
  {
    var visible := Select(candidates, c => Servable(v, c));
    RankExactly(visible, organicAfterBoost);
    SameMembers(Rank(visible, organicAfterBoost), visible, c);
    SelectMember(candidates, c => Servable(v, c), c);
  }

  lemma NotAmong(cards: seq<Candidate>, c: Candidate)
    requires c.animal.Some? && c.animal.value.id !in Ids(cards)
    ensures c !in cards
  {
  }

  /** What is left to rank is what was servable and has none of the identifiers seen. */
  lemma UnseenRanking(candidates: seq<Candidate>, v: Viewer, organicAfterBoost: int, first: seq<Candidate>)
    ensures forall c :: c in Ranking(candidates, HavingSeen(v, first), organicAfterBoost) <==>
      c in candidates && Servable(v, c) && c.animal.value.id !in Ids(first)
  {
    forall c ensures c in Ranking(candidates, HavingSeen(v, first), organicAfterBoost) <==>
                     c in candidates && Servable(v, c) && c.animal.value.id !in Ids(first) {
      RankingMember(candidates, HavingSeen(v, first), organicAfterBoost, c);
    }
  }

  /**
   A viewer that swipes every card of the pages it has got, and then follows the token, skips as many cards as it has
   got: of what is left to see, the rest of the crawl serves all but the first `n` cards of the ranking, and none of
   these was served before.
   */
  lemma SwipedPagesSkipAsMany(candidates: seq<Candidate>, v: Viewer, organicAfterBoost: int, n: nat,
                              first: seq<Candidate>, left: seq<Candidate>, token: string, sizes: seq<int>)
    requires n <= |Ranking(candidates, v, organicAfterBoost)| && first == Ranking(candidates, v, organicAfterBoost)[..n]
    requires left == Ranking(candidates, HavingSeen(v, first), organicAfterBoost)
    requires StandsFor(token, n) && |left| <= MAX_INT && Enough(sizes, |left| - n)
    ensures Concat(Crawl(left, token, sizes)) == left[Min(n, |left|)..]
    ensures forall c :: c in left ==> c !in first
    ensures forall c :: c in left <==> c in candidates && Servable(v, c) && c.animal.value.id !in Ids(first)
  {
    RestOfNew(left, n, token, sizes);
    UnseenRanking(candidates, v, organicAfterBoost, first);
    forall c | c in left ensures c !in first {
      NotAmong(first, c);
    }
  }
}
