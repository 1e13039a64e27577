/** Interleaving: one boosted candidate, then up to `k` organic ones, until both are used up. */
module FeedInterleaving {
  import opened FeedTypes
  import opened FeedRanking
  import opened Arithmetic

  function Min(a: int, b: int): int {
    if a < b then a else b
  }

  function Max(a: int, b: int): int {
    if a < b then b else a
  }

  /** One turn of the outer loop after the other. */
  function Interleave(boosted: seq<Candidate>, organic: seq<Candidate>, k: nat): (r: seq<Candidate>)
    requires k > 0
    ensures |r| == |boosted| + |organic|
    decreases |boosted| + |organic|
  {
    if boosted == [] && organic == [] then []
    else
      var first := Min(1, |boosted|);
      var turn := boosted[..first] + organic[..Min(k, |organic|)];
      if |organic| <= k then turn + boosted[first..]
      else turn + Interleave(boosted[first..], organic[k..], k)
  }

  /** `RankCandidates`. */
  function Rank(candidates: seq<Candidate>, organicAfterBoost: int): seq<Candidate> {
    Interleave(SortByScore(Select(candidates, IsBoosted)), SortByScore(Select(candidates, IsOrganic)),
               AfterBoost(organicAfterBoost))
  }

  predicate IsOrganic(c: Candidate) {
    !IsBoosted(c)
  }

  /** How many organic candidates follow a boosted one: three if the policy does not say. */
  function AfterBoost(organicAfterBoost: int): (k: nat)
    ensures k > 0 && (organicAfterBoost > 0 ==> k == organicAfterBoost) && (organicAfterBoost <= 0 ==> k == 3)
  {
    if organicAfterBoost <= 0 then DEFAULT_ORGANIC_AFTER_BOOST else organicAfterBoost
  }

  // ---------- How many boosted candidates come first: the closed form ----------

  /** n / d, rounded up. */
  function Ceil(n: nat, d: nat): nat
    requires d > 0
  {
    (n + d - 1) / d
  }

  /** The number of boosted candidates among the first `n`, of `b` boosted and `o` organic ones. */
  function Boosts(b: nat, o: nat, k: nat, n: nat): int {
    Max(Min(b, Ceil(n, k + 1)), n - o)
  }

  lemma CeilFacts(n: nat, d: nat)
    requires d > 0
    ensures Ceil(n + d, d) == Ceil(n, d) + 1
    ensures n <= d ==> Ceil(n, d) == (if n == 0 then 0 else 1)
    ensures Ceil(n, d) <= n
  {
    var q, r := (n + d - 1) / d, (n + d - 1) % d;
    DivMod(n + d - 1, d);
    MultipleGrows(q, d);
    DivModUnique(n + d + d - 1, q + 1, r, d);
    if n == 0 {
      DivModUnique(d - 1, 0, d - 1, d);
    } else if n <= d {
      DivModUnique(n + d - 1, 1, n - 1, d);
    }
    CeilAtMost(n, d);
  }

  lemma {:induction false} CeilAtMost(n: nat, d: nat)
    requires d > 0
    ensures Ceil(n, d) <= n
    decreases n
  {
    if n == 0 {
      DivModUnique(d - 1, 0, d - 1, d);
    } else if n <= d {
      DivModUnique(n + d - 1, 1, n - 1, d);
    } else {
      CeilAtMost(n - d, d);
      var q, r := (n - 1) / d, (n - 1) % d;
      DivMod(n - 1, d);
      MultipleGrows(q, d);
      DivModUnique(n + d - 1, q + 1, r, d);
    }
  }

  /** The closed form turn by turn. */
  lemma BoostsByTurn(b: nat, o: nat, k: nat, n: nat)
    requires k > 0 && n <= b + o
    ensures b == 0 ==> Boosts(b, o, k, n) == 0
    ensures b > 0 && n <= k + 1 && n <= o + 1 ==> Boosts(b, o, k, n) == if n == 0 then 0 else 1
    ensures b > 0 && o <= k && n > o + 1 ==> Boosts(b, o, k, n) == n - o
    ensures b > 0 && o > k && n >= k + 1 ==> Boosts(b, o, k, n) == 1 + Boosts(b - 1, o - k, k, n - (k + 1))
  {
    CeilFacts(n, k + 1);
    if n >= k + 1 {
      CeilFacts(n - (k + 1), k + 1);
    }
  }

  /** Position `n` of an interleaving `r`, given how many boosted candidates are before it and up to it. */
  ghost predicate Placed(r: seq<Candidate>, boosted: seq<Candidate>, organic: seq<Candidate>, n: nat, before: int,
                         upTo: int)
    requires n < |r|
  {
    && 0 <= before && 0 <= n - before
    && ((upTo == before + 1 && before < |boosted| && r[n] == boosted[before])
        || (upTo == before && n - before < |organic| && r[n] == organic[n - before]))
  }

  /** What a turn puts first. */
  lemma PlacedInTurn(boosted: seq<Candidate>, organic: seq<Candidate>, k: nat, n: nat)
    requires k > 0 && n < Min(1, |boosted|) + Min(k, |organic|)
    ensures var first := Min(1, |boosted|);
      var r := Interleave(boosted, organic, k);
      n < |r| && r[n] == if n < first then boosted[n] else organic[n - first]
  {
  }

  /** When the organic candidates run out in this turn, the other boosted ones follow. */
  lemma PlacedInDrain(boosted: seq<Candidate>, organic: seq<Candidate>, k: nat, n: nat)
    requires k > 0 && |organic| <= k && boosted != [] && 1 + |organic| <= n < |boosted| + |organic|
    ensures Interleave(boosted, organic, k)[n] == boosted[n - |organic|]
  {
  }

  lemma PlacedLater(boosted: seq<Candidate>, organic: seq<Candidate>, k: nat, n: nat)
    requires k > 0 && |organic| > k && Min(1, |boosted|) + k <= n < |boosted| + |organic|
    ensures var first := Min(1, |boosted|);
      Interleave(boosted, organic, k)[n] == Interleave(boosted[first..], organic[k..], k)[n - first - k]
  {
  }

  /** The same number, counted turn by turn. */
  function BoostsByTurns(b: nat, o: nat, k: nat, n: nat): int
    requires k > 0
    decreases n
  {
    if b == 0 || n == 0 then 0
    else if n <= Min(k, o) + 1 then 1
    else if o <= k then n - o
    else 1 + BoostsByTurns(b - 1, o - k, k, n - (k + 1))
  }

  lemma {:induction false} ClosedForm(b: nat, o: nat, k: nat, n: nat)
    requires k > 0 && n <= b + o
    ensures Boosts(b, o, k, n) == BoostsByTurns(b, o, k, n)
    decreases n
  {
    BoostsByTurn(b, o, k, n);
    if b > 0 && o > k && n > k + 1 {
      ClosedForm(b - 1, o - k, k, n - (k + 1));
    }
  }

  lemma TurnStep(b: nat, o: nat, k: nat, n: nat)
    requires k > 0 && o > k && n >= Min(1, b) + k
    ensures var first := Min(1, b);
      BoostsByTurns(b, o, k, n) == BoostsByTurns(b - first, o - k, k, n - first - k) + first
  {
  }

  lemma PositionInTurn(boosted: seq<Candidate>, organic: seq<Candidate>, k: nat, n: nat)
    requires k > 0 && n < Min(1, |boosted|) + Min(k, |organic|)
    ensures PositionOk(boosted, organic, k, n)
  {
    PlacedInTurn(boosted, organic, k, n);
  }

  lemma PositionInDrain(boosted: seq<Candidate>, organic: seq<Candidate>, k: nat, n: nat)
    requires k > 0 && |organic| <= k && Min(1, |boosted|) + |organic| <= n < |boosted| + |organic|
    ensures PositionOk(boosted, organic, k, n)
  {
    PlacedInDrain(boosted, organic, k, n);
  }

  lemma PositionLater(boosted: seq<Candidate>, organic: seq<Candidate>, k: nat, n: nat)
    requires k > 0 && |organic| > k && Min(1, |boosted|) + k <= n < |boosted| + |organic|
    requires var first := Min(1, |boosted|); PositionOk(boosted[first..], organic[k..], k, n - first - k)
    ensures PositionOk(boosted, organic, k, n)
  {
    var first := Min(1, |boosted|);
    var b', o', m := |boosted| - first, |organic| - k, n - first - k;
    PlacedAfterTurn(boosted, organic, k, n, BoostsByTurns(b', o', k, m), BoostsByTurns(b', o', k, m + 1));
    TurnStep(|boosted|, |organic|, k, n);
    TurnStep(|boosted|, |organic|, k, n + 1);
  }

  lemma PlacedAfterTurn(boosted: seq<Candidate>, organic: seq<Candidate>, k: nat, n: nat, before: int, upTo: int)
    requires k > 0 && |organic| > k && Min(1, |boosted|) + k <= n < |boosted| + |organic|
    requires var first := Min(1, |boosted|);
      Placed(Interleave(boosted[first..], organic[k..], k), boosted[first..], organic[k..], n - first - k, before, upTo)
    ensures var first := Min(1, |boosted|);
      Placed(Interleave(boosted, organic, k), boosted, organic, n, before + first, upTo + first)
  {
    PlacedLater(boosted, organic, k, n);
  }

  ghost predicate PositionOk(boosted: seq<Candidate>, organic: seq<Candidate>, k: nat, n: nat)
    requires k > 0 && n < |boosted| + |organic|
  {
    var b, o := |boosted|, |organic|;
    Placed(Interleave(boosted, organic, k), boosted, organic, n, BoostsByTurns(b, o, k, n),
           BoostsByTurns(b, o, k, n + 1))
  }

  lemma {:induction false} PositionByTurns(boosted: seq<Candidate>, organic: seq<Candidate>, k: nat, n: nat)
    requires k > 0 && n < |boosted| + |organic|
    ensures PositionOk(boosted, organic, k, n)
    decreases |boosted| + |organic|
  {
    var b, o := |boosted|, |organic|;
    if n < Min(1, b) + Min(k, o) {
      PositionInTurn(boosted, organic, k, n);
    } else if o <= k {
      PositionInDrain(boosted, organic, k, n);
    } else {
      var first := Min(1, b);
      PositionByTurns(boosted[first..], organic[k..], k, n - first - k);
      PositionLater(boosted, organic, k, n);
    }
  }

  /**
   The exact ranking: position `n` holds the next boosted candidate when the closed form steps up there, and otherwise
   the next organic one.
   */
  lemma PositionExactly(boosted: seq<Candidate>, organic: seq<Candidate>, k: nat, n: nat)
    requires k > 0 && n < |boosted| + |organic|
    ensures var b, o := |boosted|, |organic|;
      Placed(Interleave(boosted, organic, k), boosted, organic, n, Boosts(b, o, k, n), Boosts(b, o, k, n + 1))
  {
    var b, o := |boosted|, |organic|;
    ClosedForm(b, o, k, n);
    ClosedForm(b, o, k, n + 1);
    PositionByTurns(boosted, organic, k, n);
  }
}
