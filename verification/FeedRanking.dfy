/** Ranking: boosted and organic candidates are each sorted stably by score and then interleaved. */
module FeedRanking {
  import opened FeedTypes

  const DEFAULT_ORGANIC_AFTER_BOOST: nat := 3

  // ---------- Stable sorting ----------

  predicate Descending(s: seq<Candidate>) {
    forall i, j :: 0 <= i < j < |s| ==> s[i].score >= s[j].score
  }

  /** The candidates of one score, in order. */
  function OfScore(s: seq<Candidate>, score: real): (r: seq<Candidate>)
    ensures forall i :: 0 <= i < |r| ==> r[i] in s && r[i].score == score
  {
    if s == [] then [] else (if s[0].score == score then [s[0]] else []) + OfScore(s[1..], score)
  }

  /** `r` is `s` sorted by falling score, with candidates of equal score in the order of `s`. */
  ghost predicate StablySorted(s: seq<Candidate>, r: seq<Candidate>) {
    Descending(r) && forall score :: OfScore(r, score) == OfScore(s, score)
  }

  function Insert(c: Candidate, s: seq<Candidate>): seq<Candidate> {
    if s == [] || s[0].score <= c.score then [c] + s else [s[0]] + Insert(c, s[1..])
  }

  /** What `sort.SliceStable` yields; by `StableSortUnique` it does not matter how. */
  function SortByScore(s: seq<Candidate>): seq<Candidate> {
    if s == [] then [] else Insert(s[0], SortByScore(s[1..]))
  }

  lemma {:induction false} InsertKeepsAll(c: Candidate, s: seq<Candidate>)
    ensures multiset(Insert(c, s)) == multiset{c} + multiset(s)
  {
    if s != [] && s[0].score > c.score {
      InsertKeepsAll(c, s[1..]);
      assert s == [s[0]] + s[1..];
    }
  }

  lemma {:induction false} InsertSorts(c: Candidate, s: seq<Candidate>)
    requires Descending(s)
    ensures Descending(Insert(c, s))
  {
    if s != [] && s[0].score > c.score {
      InsertSorts(c, s[1..]);
      InsertKeepsAll(c, s[1..]);
      var rest := Insert(c, s[1..]);
      forall i | 0 <= i < |rest| ensures rest[i].score <= s[0].score {
        assert rest[i] in multiset(rest);
        assert rest[i] == c || rest[i] in s[1..];
      }
    }
  }

  /** Inserting puts a candidate before those of its own score. */
  lemma {:induction false} InsertIsStable(c: Candidate, s: seq<Candidate>, score: real)
    ensures OfScore(Insert(c, s), score) == if c.score == score then [c] + OfScore(s, score) else OfScore(s, score)
  {
    if s == [] || s[0].score <= c.score {
      OfScoreFirst(c, s, score);
    } else {
      var rest := s[1..];
      InsertIsStable(c, rest, score);
      assert s == [s[0]] + rest && Insert(c, s) == [s[0]] + Insert(c, rest);
      OfScoreFirst(s[0], Insert(c, rest), score);
      if s[0].score == score {
        assert OfScore(s, score) == [s[0]] + OfScore(rest, score);
      } else {
        assert OfScore(s, score) == OfScore(rest, score);
      }
    }
  }

  lemma OfScoreFirst(c: Candidate, s: seq<Candidate>, score: real)
    ensures OfScore([c] + s, score) == if c.score == score then [c] + OfScore(s, score) else OfScore(s, score)
  {
    assert ([c] + s)[1..] == s;
  }

  lemma {:induction false} SortIsStable(s: seq<Candidate>)
    ensures StablySorted(s, SortByScore(s))
    ensures multiset(SortByScore(s)) == multiset(s)
    ensures |SortByScore(s)| == |s|
  {
    if s != [] {
      SortIsStable(s[1..]);
      InsertSorts(s[0], SortByScore(s[1..]));
      InsertKeepsAll(s[0], SortByScore(s[1..]));
      assert s == [s[0]] + s[1..];
      forall score ensures OfScore(SortByScore(s), score) == OfScore(s, score) {
        InsertIsStable(s[0], SortByScore(s[1..]), score);
        OfScoreFirst(s[0], s[1..], score);
      }
      assert |multiset(SortByScore(s))| == |multiset(s)|;
    }
  }

  lemma {:induction false} OfScoreMember(s: seq<Candidate>, c: Candidate)
    requires c in s
    ensures c in OfScore(s, c.score)
  {
    if c != s[0] { OfScoreMember(s[1..], c); }
  }

  lemma FirstHasItsScore(s: seq<Candidate>)
    ensures s != [] ==> OfScore(s, s[0].score) != []
  {
  }

  /** A sequence has only one stable sort. */
  lemma {:induction false} StableSortUnique(s: seq<Candidate>, a: seq<Candidate>, b: seq<Candidate>)
    requires StablySorted(s, a) && StablySorted(s, b)
    ensures a == b
  {
    SameScoresSame(a, b);
  }

  lemma {:induction false} SameScoresSame(a: seq<Candidate>, b: seq<Candidate>)
    requires Descending(a) && Descending(b)
    requires forall score :: OfScore(a, score) == OfScore(b, score)
    ensures a == b
    decreases |a|
  {
    if a == [] {
      FirstHasItsScore(b);
    } else {
      HeadsAgree(a, b);
      assert a == [a[0]] + a[1..] && b == [b[0]] + b[1..];
      forall score ensures OfScore(a[1..], score) == OfScore(b[1..], score) {
        assert OfScore(a, score) == OfScore(b, score);
        SameTails(a[0], a[1..], b[1..], score);
      }
      SameScoresSame(a[1..], b[1..]);
    }
  }

  lemma SameTails(c: Candidate, a: seq<Candidate>, b: seq<Candidate>, score: real)
    requires OfScore([c] + a, score) == OfScore([c] + b, score)
    ensures OfScore(a, score) == OfScore(b, score)
  {
    OfScoreFirst(c, a, score);
    OfScoreFirst(c, b, score);
    if c.score == score {
      SameRest(c, OfScore(a, score), OfScore(b, score));
    }
  }

  lemma SameRest(c: Candidate, a: seq<Candidate>, b: seq<Candidate>)
    ensures [c] + a == [c] + b ==> a == b
  {
    assert ([c] + a)[1..] == a && ([c] + b)[1..] == b;
  }

  lemma HeadsAgree(a: seq<Candidate>, b: seq<Candidate>)
    requires Descending(a) && Descending(b) && a != []
    requires forall score :: OfScore(a, score) == OfScore(b, score)
    ensures b != [] && a[0] == b[0]
  {
    OfScoreMember(a, a[0]);
    assert b != [] by { assert OfScore(b, a[0].score) != []; }
    OfScoreMember(b, b[0]);
    assert OfScore(a, a[0].score) == OfScore(b, a[0].score) && OfScore(a, b[0].score) == OfScore(b, b[0].score);
    assert a[0].score <= b[0].score by { assert OfScore(b, a[0].score)[0] in b; }
    assert b[0].score <= a[0].score by { assert OfScore(a, b[0].score)[0] in a; }
    assert OfScore(a, a[0].score)[0] == a[0] && OfScore(b, a[0].score)[0] == b[0];
  }
}
