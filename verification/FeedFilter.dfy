/**
 The animal filter in its two forms: compiled to a WHERE clause with numbered placeholders, and evaluated in memory.
 */
module FeedFilter {
  import opened Common
  import opened FeedTypes

  datatype Filter = Filter(
    species: seq<int>,
    statuses: seq<int>,
    city: Option<string>,
    radiusKm: Option<int>,
    boostedOnly: Option<bool>,
    ownerProfileId: Option<string>,
    vaccinated: Option<bool>,
    sterilized: Option<bool>)

  // ---------- In memory ----------

  /** `matchesAnimalFilter`; a missing filter or animal matches. */
  predicate Matches(c: Candidate, filter: Option<Filter>) {
    if c.animal.None? || filter.None? then true
    else
      var a, f := c.animal.value, filter.value;
      if |f.species| > 0 && a.species !in f.species then false
      else if |f.statuses| > 0 && a.status !in f.statuses then false
      else if f.city.Some? && a.city != f.city.value then false
      else if f.radiusKm.Some? && c.distanceKm > f.radiusKm.value then false
      else if f.boostedOnly.Some? && f.boostedOnly.value && !a.boosted then false
      else if f.ownerProfileId.Some? && a.ownerProfileId != f.ownerProfileId.value then false
      else if f.vaccinated.Some? && a.vaccinated != f.vaccinated.value then false
      else if f.sterilized.Some? && a.sterilized != f.sterilized.value then false
      else true
  }

  /** A candidate passes when it has each of the things that the filter asks for; without an animal it passes anyway. */
  lemma MatchesExactly(c: Candidate, f: Filter)
    requires c.animal.Some?
    ensures var a := c.animal.value;
      Matches(c, Some(f)) <==>
        && (f.species == [] || a.species in f.species) && (f.statuses == [] || a.status in f.statuses)
        && (f.city == None || f.city == Some(a.city)) && (f.radiusKm.Some? ==> c.distanceKm <= f.radiusKm.value)
        && (f.boostedOnly == Some(true) ==> a.boosted)
        && (f.ownerProfileId == None || f.ownerProfileId == Some(a.ownerProfileId))
        && (f.vaccinated == None || f.vaccinated == Some(a.vaccinated))
        && (f.sterilized == None || f.sterilized == Some(a.sterilized))
    ensures Matches(c, None) && Matches(c.(animal := None), Some(f))
  {
  }

  // ---------- In SQL ----------

  datatype Value = Number(n: int) | Text(s: string) | Truth(b: bool) | Numbers(ns: seq<int>)

  datatype Column = SpeciesColumn | StatusColumn | CityColumn | DistanceColumn | BoostedColumn | OwnerColumn
                  | VaccinatedColumn | SterilizedColumn

  datatype Operator = IsAny | Equals | AtMost

  /** `column op $placeholder`. */
  datatype Predicate = Predicate(column: Column, op: Operator, placeholder: nat)

  type Row = map<Column, Value>

  /** The filterable columns of `newCandidateRow`, which refuses a candidate without an animal or an animal id. */
  function NewRow(c: Candidate): (row: Option<Row>)
    ensures row.Some? <==> c.animal.Some? && c.animal.value.id != ""
  {
    if c.animal.None? || c.animal.value.id == "" then None
    else
      var a := c.animal.value;
      Some(map[SpeciesColumn := Number(a.species), StatusColumn := Number(a.status), CityColumn := Text(a.city),
               DistanceColumn := Number(c.distanceKm), BoostedColumn := Truth(a.boosted),
               OwnerColumn := Text(a.ownerProfileId), VaccinatedColumn := Truth(a.vaccinated),
               SterilizedColumn := Truth(a.sterilized)])
  }

  /** What the database makes of one predicate: `$n` is the n-th argument, counted from one. */
  predicate Holds(row: Row, p: Predicate, args: seq<Value>) {
    && 1 <= p.placeholder <= |args| && p.column in row
    && var left, right := row[p.column], args[p.placeholder - 1];
    match p.op
    case IsAny => left.Number? && right.Numbers? && left.n in right.ns
    case Equals => left == right
    case AtMost => left.Number? && right.Number? && left.n <= right.n
  }

  /** The conjunction of all predicates; with none there is no WHERE clause. */
  predicate HoldsAll(row: Row, where: seq<Predicate>, args: seq<Value>) {
    forall i :: 0 <= i < |where| ==> Holds(row, where[i], args)
  }

  /** Placeholders number the arguments in order, one predicate each. */
  ghost predicate WellNumbered(where: seq<Predicate>, args: seq<Value>) {
    |where| == |args| && forall i :: 0 <= i < |where| ==> where[i].placeholder == i + 1
  }

  /** The `add` closure: the new predicate refers to the argument just appended. */
  function Add(where: seq<Predicate>, args: seq<Value>, column: Column, op: Operator, value: Value)
    : (r: (seq<Predicate>, seq<Value>))
    requires WellNumbered(where, args)
    ensures WellNumbered(r.0, r.1)
  {
    var args' := args + [value];
    (where + [Predicate(column, op, |args'|)], args')
  }

  /** Adding a predicate adds exactly its own condition. */
  lemma AddHolds(row: Row, where: seq<Predicate>, args: seq<Value>, column: Column, op: Operator, value: Value)
    requires WellNumbered(where, args)
    ensures var (where', args') := Add(where, args, column, op, value);
      HoldsAll(row, where', args') <==> HoldsAll(row, where, args) && Holds(row, Predicate(column, op, 1), [value])
  {
    var (where', args') := Add(where, args, column, op, value);
    forall i | 0 <= i < |where| ensures Holds(row, where'[i], args') <==> Holds(row, where[i], args) {
    }
    assert Holds(row, where'[|where|], args') <==> Holds(row, Predicate(column, op, 1), [value]);
  }

  predicate Condition(row: Row, wanted: bool, column: Column, op: Operator, value: Value) {
    wanted ==> Holds(row, Predicate(column, op, 1), [value])
  }

  /** The conditions of a filter on a row, one by one. */
  predicate Conditions(row: Row, f: Filter) {
    && Condition(row, |f.species| > 0, SpeciesColumn, IsAny, Numbers(f.species))
    && Condition(row, |f.statuses| > 0, StatusColumn, IsAny, Numbers(f.statuses))
    && Condition(row, f.city.Some?, CityColumn, Equals, Text(OrElse(f.city, "")))
    && Condition(row, f.radiusKm.Some?, DistanceColumn, AtMost, Number(OrElse(f.radiusKm, 0)))
    && Condition(row, f.boostedOnly.Some? && OrElse(f.boostedOnly, false), BoostedColumn, Equals, Truth(true))
    && Condition(row, f.ownerProfileId.Some?, OwnerColumn, Equals, Text(OrElse(f.ownerProfileId, "")))
    && Condition(row, f.vaccinated.Some?, VaccinatedColumn, Equals, Truth(OrElse(f.vaccinated, false)))
    && Condition(row, f.sterilized.Some?, SterilizedColumn, Equals, Truth(OrElse(f.sterilized, false)))
  }

  /** On the row of a candidate the conditions say what the in-memory filter says. */
  lemma ConditionsMatch(c: Candidate, f: Filter)
    requires NewRow(c).Some?
    ensures Conditions(NewRow(c).value, f) <==> Matches(c, Some(f))
  {
    var row, a := NewRow(c).value, c.animal.value;
    assert row[SpeciesColumn] == Number(a.species) && row[StatusColumn] == Number(a.status);
    assert row[CityColumn] == Text(a.city) && row[DistanceColumn] == Number(c.distanceKm);
    assert row[BoostedColumn] == Truth(a.boosted) && row[OwnerColumn] == Text(a.ownerProfileId);
    assert row[VaccinatedColumn] == Truth(a.vaccinated) && row[SterilizedColumn] == Truth(a.sterilized);
  }

  /** One optional condition of the filter. */
  method AddIf(where: seq<Predicate>, args: seq<Value>, wanted: bool, column: Column, op: Operator, value: Value)
    returns (where': seq<Predicate>, args': seq<Value>)
    requires WellNumbered(where, args)
    ensures WellNumbered(where', args')
    ensures forall row :: HoldsAll(row, where', args') <==>
      HoldsAll(row, where, args) && Condition(row, wanted, column, op, value)
  {
    where', args' := where, args;
    if wanted {
      var added := Add(where, args, column, op, value);
      where', args' := added.0, added.1;
      forall row ensures HoldsAll(row, where', args') <==>
        HoldsAll(row, where, args) && Holds(row, Predicate(column, op, 1), [value])
      {
        AddHolds(row, where, args, column, op, value);
      }
    }
  }

  /**
   `listCandidatesSQL`. The compiled clause means what the filter means: for every candidate that has a row, the
   database selects the row exactly when the in-memory filter accepts the candidate.
   */
  method ListCandidatesSql(filter: Option<Filter>) returns (where: seq<Predicate>, args: seq<Value>)
    ensures WellNumbered(where, args)
    ensures forall c :: NewRow(c).Some? ==> (HoldsAll(NewRow(c).value, where, args) <==> Matches(c, filter))
  {
    where, args := [], [];
    if filter.Some? {
      where, args := CompileFilter(filter.value);
      forall c | NewRow(c).Some? ensures HoldsAll(NewRow(c).value, where, args) <==> Matches(c, filter) {
        ConditionsMatch(c, filter.value);
      }
    }
  }

  method CompileFilter(f: Filter) returns (where: seq<Predicate>, args: seq<Value>)
    ensures WellNumbered(where, args)
    ensures forall row :: HoldsAll(row, where, args) <==> Conditions(row, f)
  {
    where, args := [], [];
    where, args := AddIf(where, args, |f.species| > 0, SpeciesColumn, IsAny, Numbers(f.species));
    where, args := AddIf(where, args, |f.statuses| > 0, StatusColumn, IsAny, Numbers(f.statuses));
    where, args := AddIf(where, args, f.city.Some?, CityColumn, Equals, Text(OrElse(f.city, "")));
    where, args := AddIf(where, args, f.radiusKm.Some?, DistanceColumn, AtMost, Number(OrElse(f.radiusKm, 0)));
    where, args :=
      AddIf(where, args, f.boostedOnly.Some? && OrElse(f.boostedOnly, false), BoostedColumn, Equals, Truth(true));
    where, args := AddIf(where, args, f.ownerProfileId.Some?, OwnerColumn, Equals, Text(OrElse(f.ownerProfileId, "")));
    where, args := AddIf(where, args, f.vaccinated.Some?, VaccinatedColumn, Equals, Truth(OrElse(f.vaccinated, false)));
    where, args := AddIf(where, args, f.sterilized.Some?, SterilizedColumn, Equals, Truth(OrElse(f.sterilized, false)));
  }

  /** Generated getters of optional fields yield the zero value when the field is missing. */
  function OrElse<T>(o: Option<T>, zero: T): T {
    if o.Some? then o.value else zero
  }
}
