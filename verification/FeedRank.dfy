/** What ranking yields, and the loops that compute it. */
module FeedRank {
  import opened FeedTypes
  import opened FeedRanking
  import opened FeedInterleaving

  predicate AllBoosted(s: seq<Candidate>) {
    forall i :: 0 <= i < |s| ==> IsBoosted(s[i])
  }

  predicate AllOrganic(s: seq<Candidate>) {
    forall i :: 0 <= i < |s| ==> IsOrganic(s[i])
  }

  /** What follows the first turn of an interleaving. */
  function AfterTurn(boosted: seq<Candidate>, organic: seq<Candidate>, k: nat): seq<Candidate>
    requires k > 0
  {
    var b := boosted[Min(1, |boosted|)..];
    if |organic| <= k then b else Interleave(b, organic[k..], k)
  }

  lemma TurnFirst(boosted: seq<Candidate>, organic: seq<Candidate>, k: nat)
    requires k > 0
    ensures Interleave(boosted, organic, k) ==
      boosted[..Min(1, |boosted|)] + organic[..Min(k, |organic|)] + AfterTurn(boosted, organic, k)
  {
  }

  lemma Halves(s: seq<Candidate>, n: nat)
    requires n <= |s|
    ensures s == s[..n] + s[n..]
  {
  }

  /** Interleaving keeps each class in its order. */
  lemma {:induction false} InterleaveKeeps(boosted: seq<Candidate>, organic: seq<Candidate>, k: nat)
    requires k > 0 && AllBoosted(boosted) && AllOrganic(organic)
    ensures Select(Interleave(boosted, organic, k), IsBoosted) == boosted
    ensures Select(Interleave(boosted, organic, k), IsOrganic) == organic
    decreases |boosted| + |organic|
  {
    if boosted != [] || organic != [] {
      var b, o := Min(1, |boosted|), Min(k, |organic|);
      TurnFirst(boosted, organic, k);
      Halves(boosted, b);
      Halves(organic, o);
      TurnKeeps(boosted[..b], organic[..o], AfterTurn(boosted, organic, k));
      if |organic| <= k {
        SelectAll(boosted[b..], IsBoosted);
        SelectNone(boosted[b..], IsOrganic);
      } else {
        InterleaveKeeps(boosted[b..], organic[k..], k);
      }
    }
  }

  lemma TurnKeeps(b: seq<Candidate>, o: seq<Candidate>, rest: seq<Candidate>)
    requires AllBoosted(b) && AllOrganic(o)
    ensures Select(b + o + rest, IsBoosted) == b + Select(rest, IsBoosted)
    ensures Select(b + o + rest, IsOrganic) == o + Select(rest, IsOrganic)
  {
    SelectThree(b, o, rest, IsBoosted);
    SelectThree(b, o, rest, IsOrganic);
    SelectAll(b, IsBoosted);
    SelectNone(b, IsOrganic);
    SelectNone(o, IsBoosted);
    SelectAll(o, IsOrganic);
    assert b + [] == b && [] + o == o;
  }

  lemma SelectThree(a: seq<Candidate>, b: seq<Candidate>, c: seq<Candidate>, p: Candidate -> bool)
    ensures Select(a + b + c, p) == Select(a, p) + Select(b, p) + Select(c, p)
  {
    SelectConcat(a + b, c, p);
    SelectConcat(a, b, p);
  }

  lemma {:induction false} ClassesPartition(s: seq<Candidate>)
    ensures multiset(Select(s, IsBoosted)) + multiset(Select(s, IsOrganic)) == multiset(s)
    ensures |Select(s, IsBoosted)| + |Select(s, IsOrganic)| == |s|
  {
    if s != [] {
      ClassesPartition(s[1..]);
      assert s == [s[0]] + s[1..];
    }
  }

  lemma SortStaysInClass(s: seq<Candidate>)
    ensures AllBoosted(s) ==> AllBoosted(SortByScore(s))
    ensures AllOrganic(s) ==> AllOrganic(SortByScore(s))
  {
    SortIsStable(s);
    forall i | 0 <= i < |SortByScore(s)| ensures SortByScore(s)[i] in s {
      assert SortByScore(s)[i] in multiset(SortByScore(s));
    }
  }

  /** Every prefix of an interleaving holds exactly the closed form's number of boosted candidates. */
  lemma {:induction false} PrefixExactly(boosted: seq<Candidate>, organic: seq<Candidate>, k: nat, n: nat)
    requires k > 0 && AllBoosted(boosted) && AllOrganic(organic) && n <= |boosted| + |organic|
    ensures |Select(Interleave(boosted, organic, k)[..n], IsBoosted)| == Boosts(|boosted|, |organic|, k, n)
  {
    var r := Interleave(boosted, organic, k);
    ClosedForm(|boosted|, |organic|, k, n);
    if n > 0 {
      PrefixExactly(boosted, organic, k, n - 1);
      PositionExactly(boosted, organic, k, n - 1);
      PlacedCounts(r, boosted, organic, n - 1, Boosts(|boosted|, |organic|, k, n - 1),
                   Boosts(|boosted|, |organic|, k, n));
    }
  }

  /** The card at a position raises the count of boosted ones as it says. */
  lemma PlacedCounts(r: seq<Candidate>, boosted: seq<Candidate>, organic: seq<Candidate>, n: nat, before: int,
                     upTo: int)
    requires n < |r| && Placed(r, boosted, organic, n, before, upTo) && AllBoosted(boosted) && AllOrganic(organic)
    requires |Select(r[..n], IsBoosted)| == before
    ensures |Select(r[..n + 1], IsBoosted)| == upTo
  {
    assert r[..n + 1] == r[..n] + [r[n]];
    SelectConcat(r[..n], [r[n]], IsBoosted);
  }

  /**
   Ranking is a permutation of the candidates; each class comes in the one order that is stably sorted by score; and
   among the first `n` there are exactly max(min(B, ceil(n / (k + 1))), n - O) boosted ones.
   */
  lemma RankExactly(candidates: seq<Candidate>, organicAfterBoost: int)
    ensures var r := Rank(candidates, organicAfterBoost);
      && multiset(r) == multiset(candidates) && |r| == |candidates|
      && StablySorted(Select(candidates, IsBoosted), Select(r, IsBoosted))
      && StablySorted(Select(candidates, IsOrganic), Select(r, IsOrganic))
      && forall n :: 0 <= n <= |r| ==>
           |Select(r[..n], IsBoosted)| ==
           Boosts(|Select(candidates, IsBoosted)|, |Select(candidates, IsOrganic)|, AfterBoost(organicAfterBoost), n)
  {
    var b, o, k := Select(candidates, IsBoosted), Select(candidates, IsOrganic), AfterBoost(organicAfterBoost);
    SortIsStable(b);
    SortIsStable(o);
    SortStaysInClass(b);
    SortStaysInClass(o);
    ClassesPartition(candidates);
    InterleaveKeeps(SortByScore(b), SortByScore(o), k);
    ClassesPartition(Rank(candidates, organicAfterBoost));
    forall n | 0 <= n <= |candidates|
      ensures |Select(Rank(candidates, organicAfterBoost)[..n], IsBoosted)| == Boosts(|b|, |o|, k, n)
    {
      PrefixExactly(SortByScore(b), SortByScore(o), k, n);
    }
  }

  /** A boosted animal leads the ranking exactly when there is one; without one the ranking is by score alone. */
  lemma BoostLeadsExactly(candidates: seq<Candidate>, organicAfterBoost: int)
    requires candidates != []
    ensures var r := Rank(candidates, organicAfterBoost);
      && r != []
      && (r[0].animal.Some? && r[0].animal.value.boosted
          <==> exists c :: c in candidates && c.animal.Some? && c.animal.value.boosted)
      && ((forall c :: c in candidates ==> c.animal.None? || !c.animal.value.boosted) ==> StablySorted(candidates, r))
  {
    if c :| c in candidates && c.animal.Some? && c.animal.value.boosted {
      LedByBoost(candidates, organicAfterBoost, c);
    } else {
      AllByScore(candidates, organicAfterBoost);
    }
  }

  lemma LedByBoost(candidates: seq<Candidate>, organicAfterBoost: int, c: Candidate)
    requires c in candidates && IsBoosted(c)
    ensures Rank(candidates, organicAfterBoost) != [] && IsBoosted(Rank(candidates, organicAfterBoost)[0])
  {
    var r, k := Rank(candidates, organicAfterBoost), AfterBoost(organicAfterBoost);
    RankExactly(candidates, organicAfterBoost);
    SelectMember(candidates, IsBoosted, c);
    CeilFacts(1, k + 1);
    assert |Select(r[..1], IsBoosted)|
        == Boosts(|Select(candidates, IsBoosted)|, |Select(candidates, IsOrganic)|, k, 1) >= 1;
    assert r[..1] == [r[0]];
  }

  lemma AllByScore(candidates: seq<Candidate>, organicAfterBoost: int)
    requires forall i :: 0 <= i < |candidates| ==> IsOrganic(candidates[i])
    ensures var r := Rank(candidates, organicAfterBoost);
      |r| == |candidates| && StablySorted(candidates, r) && forall i :: 0 <= i < |r| ==> IsOrganic(r[i])
  {
    var r := Rank(candidates, organicAfterBoost);
    RankExactly(candidates, organicAfterBoost);
    SelectAll(candidates, IsOrganic);
    forall i | 0 <= i < |r| ensures IsOrganic(r[i]) {
      assert r[i] in multiset(r);
    }
    SelectAll(r, IsOrganic);
  }

  /** The loops of `RankCandidates`. */
  method RankCandidates(candidates: seq<Candidate>, organicAfterBoost: int) returns (ranked: seq<Candidate>)
    ensures ranked == Rank(candidates, organicAfterBoost)
  {
    var k := organicAfterBoost;
    if k <= 0 {
      k := DEFAULT_ORGANIC_AFTER_BOOST;
    }
    var boosted, organic := SplitByBoost(candidates);
    boosted := SortByScore(boosted);
    organic := SortByScore(organic);
    ranked := [];
    var b, o := 0, 0;
    while b < |boosted| || o < |organic|
      invariant 0 <= b <= |boosted| && 0 <= o <= |organic|
      invariant ranked + Interleave(boosted[b..], organic[o..], k) == Interleave(boosted, organic, k)
      decreases |boosted| - b + |organic| - o
    {
      ranked, b, o := TakeTurn(ranked, boosted, organic, k, b, o);
    }
  }

  /** One turn of the outer loop. */
  method TakeTurn(before: seq<Candidate>, boosted: seq<Candidate>, organic: seq<Candidate>, k: nat, b0: nat, o0: nat)
    returns (ranked: seq<Candidate>, b: nat, o: nat)
    requires k > 0 && b0 <= |boosted| && o0 <= |organic| && (b0 < |boosted| || o0 < |organic|)
    ensures b0 <= b <= |boosted| && o0 <= o <= |organic| && b0 + o0 < b + o
    ensures ranked + Interleave(boosted[b..], organic[o..], k) == before + Interleave(boosted[b0..], organic[o0..], k)
  {
    ghost var bs, os := boosted[b0..], organic[o0..];
    ghost var rest := AfterTurn(bs, os, k);
    ranked, b := before, b0;
    if b < |boosted| {
      ranked := ranked + [boosted[b]];
      b := b + 1;
    }
    assert ranked == before + bs[..Min(1, |bs|)];
    assert boosted[b..] == bs[Min(1, |bs|)..];
    ranked, o := AppendOrganic(ranked, organic, o0, k);
    assert organic[o..] == os[Min(k, |os|)..];
    assert ranked + rest == before + Interleave(bs, os, k) by {
      TurnFirst(bs, os, k);
      TurnAssoc(before, bs[..Min(1, |bs|)], os[..Min(k, |os|)], rest);
    }
    if o >= |organic| {
      ranked, b := AppendRest(ranked, boosted, b);
      assert Interleave(boosted[b..], organic[o..], k) == [];
    }
  }

  lemma TurnAssoc(a: seq<Candidate>, b: seq<Candidate>, c: seq<Candidate>, d: seq<Candidate>)
    ensures a + b + c + d == a + (b + c + d)
  {
  }

  method AppendOrganic(ranked: seq<Candidate>, organic: seq<Candidate>, o: nat, k: nat)
    returns (r: seq<Candidate>, next: nat)
    requires o <= |organic|
    ensures next == o + Min(k, |organic| - o)
    ensures r == ranked + organic[o..][..Min(k, |organic| - o)]
  {
    r, next := ranked, o;
    var i := 0;
    while i < k && next < |organic|
      invariant 0 <= i <= k && next == o + i <= |organic|
      invariant r == ranked + organic[o..][..i]
    {
      r := r + [organic[next]];
      next := next + 1;
      i := i + 1;
    }
  }

  method AppendRest(ranked: seq<Candidate>, boosted: seq<Candidate>, b: nat) returns (r: seq<Candidate>, next: nat)
    requires b <= |boosted|
    ensures next == |boosted| && r == ranked + boosted[b..]
  {
    r, next := ranked, b;
    while next < |boosted|
      invariant b <= next <= |boosted|
      invariant r == ranked + boosted[b..next]
    {
      r := r + [boosted[next]];
      next := next + 1;
    }
  }

  method SplitByBoost(candidates: seq<Candidate>) returns (boosted: seq<Candidate>, organic: seq<Candidate>)
    ensures boosted == Select(candidates, IsBoosted) && organic == Select(candidates, IsOrganic)
  {
    boosted, organic := [], [];
    for i := 0 to |candidates|
      invariant boosted == Select(candidates[..i], IsBoosted) && organic == Select(candidates[..i], IsOrganic)
    {
      assert candidates[..i + 1] == candidates[..i] + [candidates[i]];
      SelectConcat(candidates[..i], [candidates[i]], IsBoosted);
      SelectConcat(candidates[..i], [candidates[i]], IsOrganic);
      if candidates[i].animal.Some? && candidates[i].animal.value.boosted {
        boosted := boosted + [candidates[i]];
      } else {
        organic := organic + [candidates[i]];
      }
    }
    assert candidates[..|candidates|] == candidates;
  }
}
