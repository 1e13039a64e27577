/** The feed's candidates, as far as ranking, filtering and paging look at them. */
module FeedTypes {
  import opened Common

  datatype Animal = Animal(
    id: string,
    ownerProfileId: string,
    species: int,
    status: int,
    visibility: int,
    city: string,
    boosted: bool,
    vaccinated: bool,
    sterilized: bool)

  /** `score` is the total of the score components. */
  datatype Candidate = Candidate(
    animal: Option<Animal>,
    distanceKm: int,
    ownerHidden: bool,
    ownerBlocked: bool,
    score: real)

  predicate IsBoosted(c: Candidate) {
    c.animal.Some? && c.animal.value.boosted
  }

  /** The elements that satisfy a predicate, in order. */
  function Select<T>(s: seq<T>, p: T -> bool): (r: seq<T>)
    ensures forall i :: 0 <= i < |r| ==> r[i] in s && p(r[i])
  {
    if s == [] then [] else (if p(s[0]) then [s[0]] else []) + Select(s[1..], p)
  }

  lemma {:induction false} SelectConcat<T>(a: seq<T>, b: seq<T>, p: T -> bool)
    ensures Select(a + b, p) == Select(a, p) + Select(b, p)
  {
    if a == [] {
      assert a + b == b;
    } else {
      SelectConcat(a[1..], b, p);
      assert (a + b)[0] == a[0] && (a + b)[1..] == a[1..] + b;
    }
  }

  lemma {:induction false} SelectAll<T>(s: seq<T>, p: T -> bool)
    requires forall i :: 0 <= i < |s| ==> p(s[i])
    ensures Select(s, p) == s
  {
    if s != [] { SelectAll(s[1..], p); }
  }

  lemma {:induction false} SelectNone<T>(s: seq<T>, p: T -> bool)
    requires forall i :: 0 <= i < |s| ==> !p(s[i])
    ensures Select(s, p) == []
  {
    if s != [] { SelectNone(s[1..], p); }
  }

  lemma {:induction false} SelectMember<T>(s: seq<T>, p: T -> bool, x: T)
    ensures x in Select(s, p) <==> x in s && p(x)
  {
    if s != [] {
      SelectMember(s[1..], p, x);
      assert s == [s[0]] + s[1..];
    }
  }
}
