/**
 * The Trip model: one rule set per attribute and the default of `status`.
 * Values are kept as text, as they arrive in a JSON body.
 */
module TripModel {
  import opened Wrappers
  import opened Strings

  /** The attribute values handed to `Trip.create` or left on an instance before `save`. */
  datatype Draft = Draft(
    userId: Option<nat>,
    title: Option<string>,
    country: Option<string>,
    city: Option<string>,
    departureDate: Option<string>,
    duration: Option<string>,
    budgetLevel: Option<string>,
    itinerary: Option<string>,
    status: Option<string>)

  /** A stored trip. `createdAt` is the instant of insertion, as a logical clock. */
  datatype Trip = Trip(
    id: nat,
    userId: nat,
    title: string,
    country: string,
    city: string,
    departureDate: string,
    duration: string,
    budgetLevel: string,
    itinerary: string,
    status: string,
    createdAt: nat)

  /** The validated attributes, in declaration order. */
  datatype Field = UserIdField | TitleField | CountryField | CityField | DepartureDateField
                 | DurationField | BudgetLevelField | ItineraryField

  /** The message each attribute's rules report. */
  function Message(f: Field): string {
    match f
    case UserIdField => "Trip.userId cannot be null" // Sequelize's text for a notNull without msg
    case TitleField => "Title required"
    case CountryField => "Country required"
    case CityField => "City required"
    case DepartureDateField => "Departure date required"
    case DurationField => "Duration required"
    case BudgetLevelField => "Budget required"
    case ItineraryField => "Trip.itinerary cannot be null"
  }

  /** Every attribute has its own message. */
  lemma MessagesDistinct(f: Field, g: Field)
    requires f != g
    ensures Message(f) != Message(g)
  {
  }

  /**
   * `allowNull: false` together with `notEmpty`: the value is present and
   * does not match `/^[\s\t\r\n]*$/`, so it is neither empty nor only whitespace.
   */
  predicate Filled(v: Option<string>) {
    v.Some? && !Blank(v.value)
  }

  /**
   * Whether the value of one attribute passes its rules: `userId` and
   * `itinerary` only `allowNull: false`; the six others are `Filled`.
   */
  predicate Passes(d: Draft, f: Field) {
    match f
    case UserIdField => d.userId.Some?
    case TitleField => Filled(d.title)
    case CountryField => Filled(d.country)
    case CityField => Filled(d.city)
    case DepartureDateField => Filled(d.departureDate)
    case DurationField => Filled(d.duration)
    case BudgetLevelField => Filled(d.budgetLevel)
    case ItineraryField => d.itinerary.Some?
  }

  /** The attributes in the order the model defines them, which is the order validation walks them. */
  const Attributes: seq<Field> := [UserIdField, TitleField, CountryField, CityField, DepartureDateField,
                                   DurationField, BudgetLevelField, ItineraryField]

  /** An attribute's position in `Attributes`. */
  function Rank(f: Field): nat {
    match f
    case UserIdField => 0
    case TitleField => 1
    case CountryField => 2
    case CityField => 3
    case DepartureDateField => 4
    case DurationField => 5
    case BudgetLevelField => 6
    case ItineraryField => 7
  }

  /** Attributes listed in strictly increasing position. */
  predicate InRankOrder(fs: seq<Field>) {
    forall i, j :: 0 <= i < j < |fs| ==> Rank(fs[i]) < Rank(fs[j])
  }

  lemma AttributesInOrder()
    ensures InRankOrder(Attributes)
  {
  }

  /** A missing value: `allowNull: false` reports it while the attributes are walked. */
  predicate Missing(d: Draft, f: Field) {
    match f
    case UserIdField => d.userId.None?
    case TitleField => d.title.None?
    case CountryField => d.country.None?
    case CityField => d.city.None?
    case DepartureDateField => d.departureDate.None?
    case DurationField => d.duration.None?
    case BudgetLevelField => d.budgetLevel.None?
    case ItineraryField => d.itinerary.None?
  }

  /**
   * A present value that fails `notEmpty`. The built-in validators settle
   * asynchronously, so these failures are recorded after the walk.
   */
  predicate BlankValue(d: Draft, f: Field) {
    match f
    case UserIdField => false
    case TitleField => d.title.Some? && Blank(d.title.value)
    case CountryField => d.country.Some? && Blank(d.country.value)
    case CityField => d.city.Some? && Blank(d.city.value)
    case DepartureDateField => d.departureDate.Some? && Blank(d.departureDate.value)
    case DurationField => d.duration.Some? && Blank(d.duration.value)
    case BudgetLevelField => d.budgetLevel.Some? && Blank(d.budgetLevel.value)
    case ItineraryField => false
  }

  /** Keeping or dropping the first of `fs` in front of an ordered selection from the others keeps the order. */
  lemma KeptInOrder(fs: seq<Field>, head: seq<Field>, rest: seq<Field>)
    requires fs != [] && (head == [] || head == [fs[0]])
    requires forall f :: f in rest ==> f in fs[1..]
    requires InRankOrder(fs[1..]) ==> InRankOrder(rest)
    ensures InRankOrder(fs) ==> InRankOrder(head + rest)
  {
    if InRankOrder(fs) && head != [] {
      var r := head + rest;
      forall i, j | 0 <= i < j < |r| ensures Rank(r[i]) < Rank(r[j]) {
        if i == 0 {
          assert r[j] == rest[j - 1] && rest[j - 1] in rest;
          var k :| 0 <= k < |fs[1..]| && fs[1..][k] == r[j];
          assert fs[k + 1] == r[j];
        } else {
          assert r[i] == rest[i - 1] && r[j] == rest[j - 1];
        }
      }
    }
  }

  /** The attributes of `fs` whose value is missing, in the order of `fs`. */
  function MissingAmong(d: Draft, fs: seq<Field>): (r: seq<Field>)
    ensures forall f :: f in r <==> f in fs && Missing(d, f)
    ensures InRankOrder(fs) ==> InRankOrder(r)
  {
    if fs == [] then []
    else
      var rest := MissingAmong(d, fs[1..]);
      var head := if Missing(d, fs[0]) then [fs[0]] else [];
      KeptInOrder(fs, head, rest);
      head + rest
  }

  /** The attributes of `fs` whose value is blank, in the order of `fs`. */
  function BlankAmong(d: Draft, fs: seq<Field>): (r: seq<Field>)
    ensures forall f :: f in r <==> f in fs && BlankValue(d, f)
    ensures InRankOrder(fs) ==> InRankOrder(r)
  {
    if fs == [] then []
    else
      var rest := BlankAmong(d, fs[1..]);
      var head := if BlankValue(d, fs[0]) then [fs[0]] else [];
      KeptInOrder(fs, head, rest);
      head + rest
  }

  /** Where a failure lands: every missing value before every blank one, each group in attribute order. */
  function Key(d: Draft, f: Field): nat {
    (if BlankValue(d, f) then 8 else 0) + Rank(f)
  }

  lemma EveryAttribute(f: Field)
    ensures f in Attributes
  {
    assert Attributes[Rank(f)] == f;
  }

  /** An attribute fails exactly when its value is missing or blank, and never both. */
  lemma FailureKinds(d: Draft, f: Field)
    ensures !Passes(d, f) <==> Missing(d, f) || BlankValue(d, f)
    ensures !(Missing(d, f) && BlankValue(d, f))
  {
  }

  /** The missing attributes together with the blank ones are exactly the failing ones. */
  lemma SplitFailures(d: Draft, early: seq<Field>, late: seq<Field>)
    requires forall f :: f in early <==> f in Attributes && Missing(d, f)
    requires forall f :: f in late <==> f in Attributes && BlankValue(d, f)
    ensures forall f :: f in early + late <==> !Passes(d, f)
  {
    forall f ensures f in early + late <==> !Passes(d, f) {
      EveryAttribute(f);
      FailureKinds(d, f);
    }
  }

  /** Missing attributes in order followed by blank ones in order are sorted by `Key`. */
  lemma {:induction false} PhasesOrdered(d: Draft, early: seq<Field>, late: seq<Field>)
    requires InRankOrder(early) && InRankOrder(late)
    requires forall f :: f in early ==> Missing(d, f)
    requires forall f :: f in late ==> BlankValue(d, f)
    ensures forall i, j {:trigger Key(d, (early + late)[i]), Key(d, (early + late)[j])} ::
      0 <= i < j < |early + late| ==> Key(d, (early + late)[i]) < Key(d, (early + late)[j])
  {
    var r := early + late;
    forall i, j | 0 <= i < j < |r| ensures Key(d, r[i]) < Key(d, r[j]) {
      if j < |early| {
        FailureKinds(d, r[i]);
        FailureKinds(d, r[j]);
        assert r[i] == early[i] && r[j] == early[j];
      } else if i < |early| {
        FailureKinds(d, r[i]);
        assert r[i] == early[i] && r[j] == late[j - |early|];
      } else {
        assert r[i] == late[i - |early|] && r[j] == late[j - |early|];
      }
    }
  }

  /**
   * The attributes that fail, in the order Sequelize records them: the
   * missing ones during the walk, then the blank ones once their checks settle.
   */
  function FailedFields(d: Draft): (r: seq<Field>)
    ensures forall f :: f in r <==> !Passes(d, f)
    ensures forall i, j {:trigger Key(d, r[i]), Key(d, r[j])} :: 0 <= i < j < |r| ==> Key(d, r[i]) < Key(d, r[j])
  {
    var early := MissingAmong(d, Attributes);
    var late := BlankAmong(d, Attributes);
    AttributesInOrder();
    SplitFailures(d, early, late);
    PhasesOrdered(d, early, late);
    early + late
  }

  /** The `errors` of the validation error: one message per failed attribute, in the order of `FailedFields`. */
  function ValidationMessages(d: Draft): (r: seq<string>)
    ensures |r| == |FailedFields(d)|
    ensures forall i :: 0 <= i < |r| ==> r[i] == Message(FailedFields(d)[i])
    ensures r == [] <==>
      d.userId.Some? && Filled(d.title) && Filled(d.country) && Filled(d.city) &&
      Filled(d.departureDate) && Filled(d.duration) && Filled(d.budgetLevel) && d.itinerary.Some?
  {
    var fs := FailedFields(d);
    assert fs == [] <==>
      Passes(d, UserIdField) && Passes(d, TitleField) && Passes(d, CountryField) && Passes(d, CityField) &&
      Passes(d, DepartureDateField) && Passes(d, DurationField) && Passes(d, BudgetLevelField) &&
      Passes(d, ItineraryField)
    by {
      if fs != [] {
        assert fs[0] in fs;
      }
    }
    seq(|fs|, i requires 0 <= i < |fs| => Message(fs[i]))
  }

  /** A message is reported exactly when its attribute fails. */
  lemma {:induction false} MessageReported(d: Draft, f: Field)
    ensures Message(f) in ValidationMessages(d) <==> !Passes(d, f)
  {
    var fs := FailedFields(d);
    var r := ValidationMessages(d);
    if !Passes(d, f) {
      var i :| 0 <= i < |fs| && fs[i] == f;
      assert r[i] == Message(f);
    } else if Message(f) in r {
      var i :| 0 <= i < |r| && r[i] == Message(f);
      assert Message(fs[i]) == Message(f);
      if fs[i] != f {
        MessagesDistinct(fs[i], f);
      }
    }
  }

  /** Attributes in increasing position that are all one attribute `a`, which occurs: just `[a]`. */
  lemma {:induction false} OnlyOne(fs: seq<Field>, a: Field)
    requires InRankOrder(fs) && forall f :: f in fs <==> f == a
    ensures fs == [a]
  {
    assert a in fs;
    assert fs[0] in fs && fs[|fs| - 1] in fs;
  }

  /**
   * A blank title and a missing country, every other attribute valid: the
   * missing country is recorded during the walk, the blank title after it.
   */
  lemma MissingBeforeBlank(d: Draft)
    requires d.userId.Some? && d.title == Some("  ") && d.country.None?
    requires Filled(d.city) && Filled(d.departureDate) && Filled(d.duration) && Filled(d.budgetLevel)
    requires d.itinerary.Some?
    ensures ValidationMessages(d) == ["Country required", "Title required"]
  {
    AttributesInOrder();
    forall f ensures Missing(d, f) <==> f == CountryField {
    }
    OnlyOne(MissingAmong(d, Attributes), CountryField);
    assert Blank(d.title.value);
    forall f ensures BlankValue(d, f) <==> f == TitleField {
    }
    OnlyOne(BlankAmong(d, Attributes), TitleField);
    assert FailedFields(d) == [CountryField, TitleField];
  }

  /** A title of spaces and a tab is present but fails `notEmpty`, so "Title required" is reported. */
  lemma BlankTitleRejected(d: Draft)
    requires d.title == Some("  \t")
    ensures "Title required" in ValidationMessages(d)
  {
    assert Blank(d.title.value);
    MessageReported(d, TitleField);
  }

  /** `itinerary` must be present but, having no `notEmpty` rule, may be empty. */
  lemma EmptyItineraryAllowed(d: Draft)
    requires ValidationMessages(d) == []
    ensures ValidationMessages(d.(itinerary := Some(""))) == []
  {
  }

  /** `defaultValue: 'draft'`: used when no status is supplied, a supplied one is kept. */
  function StoredStatus(status: Option<string>): (s: string)
    ensures status.None? ==> s == "draft"
    ensures status.Some? ==> s == status.value
  {
    status.GetOr("draft")
  }

  /** The row that a draft passing validation becomes. */
  function Build(id: nat, createdAt: nat, d: Draft): (t: Trip)
    requires ValidationMessages(d) == []
    ensures WellFormed(t)
    ensures DraftOf(t) == d.(status := Some(StoredStatus(d.status)))
  {
    Trip(id, d.userId.value, d.title.value, d.country.value, d.city.value, d.departureDate.value,
         d.duration.value, d.budgetLevel.value, d.itinerary.value, StoredStatus(d.status), createdAt)
  }

  /** The attribute values of a stored row. */
  function DraftOf(t: Trip): Draft {
    Draft(Some(t.userId), Some(t.title), Some(t.country), Some(t.city), Some(t.departureDate),
          Some(t.duration), Some(t.budgetLevel), Some(t.itinerary), Some(t.status))
  }

  /** What validation leaves true of every stored row: the six `notEmpty` columns are not blank. */
  predicate WellFormed(t: Trip) {
    !Blank(t.title) && !Blank(t.country) && !Blank(t.city) && !Blank(t.departureDate) &&
    !Blank(t.duration) && !Blank(t.budgetLevel)
  }

  /** A row passes validation again exactly when it is well formed. */
  lemma RevalidateRow(t: Trip)
    ensures ValidationMessages(DraftOf(t)) == [] <==> WellFormed(t)
  {
  }
}
