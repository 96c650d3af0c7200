/**
 * The trip handlers over the Trip table. Every lookup is scoped by the trip's
 * `id` and the caller's id; the itinerary generator is a parameter that either
 * returns text or throws.
 */
module TripController {
  import opened Wrappers
  import opened Strings
  import opened Http
  import opened TripModel

  /** The fields of `req.body` the handlers read. */
  datatype TripBody = TripBody(
    title: Option<string>,
    country: Option<string>,
    city: Option<string>,
    duration: Option<string>,
    budgetLevel: Option<string>,
    departureDate: Option<string>,
    itinerary: Option<string>,
    status: Option<string>)

  /** The arguments of `generateItinerary(country, city, duration, budgetLevel, departureDate)`. */
  datatype ItineraryRequest = ItineraryRequest(
    country: Option<string>,
    city: Option<string>,
    duration: Option<string>,
    budgetLevel: Option<string>,
    departureDate: Option<string>)

  /** The generator returns the itinerary text or rethrows the provider's error. */
  datatype Generated = Text(text: string) | GenerationFailed(thrown: Error)

  /** The `trip` object of the 201 body: nine columns of the row, without `userId` and the timestamps. */
  datatype TripView = TripView(
    id: nat,
    title: string,
    country: string,
    city: string,
    duration: string,
    budgetLevel: string,
    departureDate: string,
    itinerary: string,
    status: string)

  function ViewOf(t: Trip): TripView {
    TripView(t.id, t.title, t.country, t.city, t.duration, t.budgetLevel, t.departureDate, t.itinerary, t.status)
  }

  /** The view keeps every column but the owner and the creation time: with those it determines the row. */
  lemma ViewDeterminesRow(t: Trip, u: Trip)
    requires ViewOf(t) == ViewOf(u) && t.userId == u.userId && t.createdAt == u.createdAt
    ensures t == u
  {
  }

  /** The 201 answer of `createTrip`. */
  datatype Created = Created(status: int, message: string, trip: TripView)

  function RequestOf(body: TripBody): ItineraryRequest {
    ItineraryRequest(body.country, body.city, body.duration, body.budgetLevel, body.departureDate)
  }

  /**
   * What `createTrip` hands to `Trip.create`: the body's fields, the generated
   * itinerary (never the body's) and the caller as owner.
   */
  function NewDraft(caller: nat, body: TripBody, itinerary: string): Draft {
    Draft(Some(caller), body.title, body.country, body.city, body.departureDate, body.duration,
          body.budgetLevel, Some(itinerary), body.status)
  }

  /**
   * `tripFound.update({ ... , userId: req.user.id })`: Sequelize drops the keys
   * whose value is undefined, so absent fields keep their stored value.
   */
  function Merge(t: Trip, body: TripBody, caller: nat): (m: Trip)
    ensures m.id == t.id && m.createdAt == t.createdAt && m.userId == caller
    ensures body.title.None? ==> m.title == t.title
    ensures body.title.Some? ==> m.title == body.title.value
    ensures body.country.None? ==> m.country == t.country
    ensures body.country.Some? ==> m.country == body.country.value
    ensures body.city.None? ==> m.city == t.city
    ensures body.city.Some? ==> m.city == body.city.value
    ensures body.duration.None? ==> m.duration == t.duration
    ensures body.duration.Some? ==> m.duration == body.duration.value
    ensures body.budgetLevel.None? ==> m.budgetLevel == t.budgetLevel
    ensures body.budgetLevel.Some? ==> m.budgetLevel == body.budgetLevel.value
    ensures body.departureDate.None? ==> m.departureDate == t.departureDate
    ensures body.departureDate.Some? ==> m.departureDate == body.departureDate.value
    ensures body.itinerary.None? ==> m.itinerary == t.itinerary
    ensures body.itinerary.Some? ==> m.itinerary == body.itinerary.value
    ensures body.status.None? ==> m.status == t.status
    ensures body.status.Some? ==> m.status == body.status.value
  {
    Trip(t.id, caller,
         body.title.GetOr(t.title), body.country.GetOr(t.country), body.city.GetOr(t.city),
         body.departureDate.GetOr(t.departureDate), body.duration.GetOr(t.duration),
         body.budgetLevel.GetOr(t.budgetLevel), body.itinerary.GetOr(t.itinerary),
         body.status.GetOr(t.status), t.createdAt)
  }

  /** The body of a partial update that names no field leaves the trip as it was. */
  lemma EmptyUpdateKeepsTrip(t: Trip)
    ensures Merge(t, TripBody(None, None, None, None, None, None, None, None), t.userId) == t
  {
  }

  /** Creation times strictly increase along the table. */
  ghost predicate CreatedIncreasing(ts: seq<Trip>) {
    forall i, j :: 0 <= i < j < |ts| ==> ts[i].createdAt < ts[j].createdAt
  }

  /** Creation times strictly decrease: newest first. */
  ghost predicate CreatedDecreasing(ts: seq<Trip>) {
    forall i, j :: 0 <= i < j < |ts| ==> ts[i].createdAt > ts[j].createdAt
  }

  /**
   * `Trip.findAll({ where: { userId }, order: [['createdAt', 'DESC']] })`
   * over a table kept in insertion order: the owner's rows, last inserted first.
   */
  function NewestFirst(ts: seq<Trip>, owner: nat): (r: seq<Trip>)
    ensures forall t :: t in r <==> t in ts && t.userId == owner
    decreases |ts|
  {
    if ts == [] then []
    else
      var last := ts[|ts| - 1];
      assert ts == ts[..|ts| - 1] + [last];
      var rest := NewestFirst(ts[..|ts| - 1], owner);
      if last.userId == owner then [last] + rest else rest
  }

  /** A row newer than every row of a newest-first list can be put in front of it. */
  lemma ConsDecreasing(t: Trip, rest: seq<Trip>)
    requires CreatedDecreasing(rest)
    requires forall u :: u in rest ==> u.createdAt < t.createdAt
    ensures CreatedDecreasing([t] + rest)
  {
    var r := [t] + rest;
    assert forall k :: 1 <= k < |r| ==> r[k] == rest[k - 1] && r[k] in rest;
  }

  /** Over a table whose creation times increase, the owner's rows come newest first. */
  lemma {:induction false} NewestFirstOrdered(ts: seq<Trip>, owner: nat)
    requires CreatedIncreasing(ts)
    ensures CreatedDecreasing(NewestFirst(ts, owner))
    decreases |ts|
  {
    if ts != [] {
      var init := ts[..|ts| - 1];
      var last := ts[|ts| - 1];
      assert forall k :: 0 <= k < |init| ==> init[k] == ts[k];
      NewestFirstOrdered(init, owner);
      var rest := NewestFirst(init, owner);
      if last.userId == owner {
        forall u | u in rest ensures u.createdAt < last.createdAt {
          var k :| 0 <= k < |init| && init[k] == u;
        }
        ConsDecreasing(last, rest);
      }
    }
  }

  /** Ids and creation times below the counters and increasing; every row passed validation. */
  ghost predicate RowsValid(ts: seq<Trip>, nextId: nat, clock: nat) {
    (forall i :: 0 <= i < |ts| ==> ts[i].id < nextId && ts[i].createdAt < clock && WellFormed(ts[i])) &&
    (forall i, j :: 0 <= i < j < |ts| ==> ts[i].id < ts[j].id) &&
    CreatedIncreasing(ts)
  }

  /** Removing one row keeps the table valid and keeps every other row. */
  lemma {:induction false} RemoveKeepsRows(ts: seq<Trip>, i: nat, nextId: nat, clock: nat)
    requires i < |ts| && RowsValid(ts, nextId, clock)
    ensures RowsValid(ts[..i] + ts[i + 1..], nextId, clock)
    ensures forall k :: 0 <= k < |ts| && k != i ==> ts[k] in ts[..i] + ts[i + 1..]
  {
    var r := ts[..i] + ts[i + 1..];
    assert forall k :: 0 <= k < |r| ==> r[k] == ts[if k < i then k else k + 1];
    forall k | 0 <= k < |ts| && k != i ensures ts[k] in r {
      if k < i {
        assert r[k] == ts[k];
      } else {
        assert r[k - 1] == ts[k];
      }
    }
  }

  /** Appending a well-formed row under the counters keeps the table valid. */
  lemma AppendKeepsRows(ts: seq<Trip>, t: Trip, nextId: nat, clock: nat)
    requires RowsValid(ts, nextId, clock)
    requires t.id == nextId && t.createdAt == clock && WellFormed(t)
    ensures RowsValid(ts + [t], nextId + 1, clock + 1)
  {
    var r := ts + [t];
    assert forall k :: 0 <= k < |ts| ==> r[k] == ts[k];
    assert r[|ts|] == t;
  }

  /** Replacing a row by a well-formed one with the same id and creation time keeps the table valid. */
  lemma UpdateKeepsRows(ts: seq<Trip>, i: nat, m: Trip, nextId: nat, clock: nat)
    requires i < |ts| && RowsValid(ts, nextId, clock)
    requires m.id == ts[i].id && m.createdAt == ts[i].createdAt && WellFormed(m)
    ensures RowsValid(ts[i := m], nextId, clock)
  {
    var r := ts[i := m];
    assert forall k :: 0 <= k < |ts| && k != i ==> r[k] == ts[k];
    assert forall k :: 0 <= k < |ts| ==> r[k].id == ts[k].id && r[k].createdAt == ts[k].createdAt;
  }

  /** The first index at or after `from` whose row has this id and owner. */
  function IndexOwned(ts: seq<Trip>, id: nat, owner: nat, from: nat): (r: Option<nat>)
    requires from <= |ts|
    ensures r.Some? ==> from <= r.value < |ts| && ts[r.value].id == id && ts[r.value].userId == owner
    ensures r.None? <==> forall i :: from <= i < |ts| ==> !(ts[i].id == id && ts[i].userId == owner)
    decreases |ts| - from
  {
    if from == |ts| then None
    else if ts[from].id == id && ts[from].userId == owner then Some(from)
    else IndexOwned(ts, id, owner, from + 1)
  }

  /** The Trip table: rows in insertion order, with the id sequence and the clock. */
  class TripTable {
    var trips: seq<Trip>
    var nextId: nat
    var clock: nat

    /** Ids and creation times are fresh and increasing; every row passed validation. */
    ghost predicate Valid()
      reads this
    {
      RowsValid(trips, nextId, clock)
    }

    constructor ()
      ensures Valid() && trips == [] && nextId == 1 && clock == 0
    {
      trips := [];
      nextId := 1;
      clock := 0;
    }

    /** `Trip.findOne({ where: { id, userId } })`, as an index into the table. */
    function FindOwned(id: nat, caller: nat): (r: Option<nat>)
      reads this
      ensures r.Some? ==> r.value < |trips| && trips[r.value].id == id && trips[r.value].userId == caller
      ensures r.None? <==> forall i :: 0 <= i < |trips| ==> !(trips[i].id == id && trips[i].userId == caller)
    {
      IndexOwned(trips, id, caller, 0)
    }

    /**
     * `getAllTrip`: always 200, with exactly the caller's trips, newest first;
     * a caller without trips gets `[]` (the `NotFound` branch is unreachable).
     */
    function AllTrips(caller: nat): (r: seq<Trip>)
      reads this
      requires Valid()
      ensures forall t :: t in r <==> t in trips && t.userId == caller
      ensures CreatedDecreasing(r)
      ensures r == [] <==> forall i :: 0 <= i < |trips| ==> trips[i].userId != caller
    {
      var r := NewestFirst(trips, caller);
      NewestFirstOrdered(trips, caller);
      assert r == [] <==> forall i :: 0 <= i < |trips| ==> trips[i].userId != caller by {
        if r != [] {
          assert r[0] in trips;
        }
        forall i | 0 <= i < |trips| && trips[i].userId == caller ensures r != [] {
          assert trips[i] in r;
        }
      }
      r
    }

    /**
     * `getTripById`: the trip only when both its id and its owner match,
     * otherwise NotFound naming the id.
     */
    function GetTripById(caller: nat, id: nat): (r: Result<Trip, Error>)
      reads this
      ensures r.Success? ==> r.value in trips && r.value.id == id && r.value.userId == caller
      ensures r.Failure? <==> forall i :: 0 <= i < |trips| ==> !(trips[i].id == id && trips[i].userId == caller)
      ensures r.Failure? ==> r.error == Thrown("NotFound", "Trip with id " + NatToString(id) + " not found")
    {
      match FindOwned(id, caller)
      case None => Failure(Thrown("NotFound", "Trip with id " + NatToString(id) + " not found"))
      case Some(i) => Success(trips[i])
    }

    /**
     * `createTrip`: the generator runs first; its failure is forwarded and
     * nothing is created. Otherwise the row is validated and inserted with the
     * caller as owner, the generated itinerary and `status` defaulting to "draft".
     */
    method CreateTrip(caller: nat, body: TripBody, generate: ItineraryRequest -> Generated)
      returns (r: Result<Created, Error>)
      requires Valid()
      modifies this
      ensures Valid()
      ensures generate(RequestOf(body)).GenerationFailed? ==>
        r == Failure(generate(RequestOf(body)).thrown) && unchanged(this)
      ensures generate(RequestOf(body)).Text? ==>
        var d := NewDraft(caller, body, generate(RequestOf(body)).text);
        if ValidationMessages(d) != [] then
          r == Failure(ValidationError(ValidationMessages(d))) && unchanged(this)
        else
          r.Success? && r.value.status == 201 &&
          trips == old(trips) + [Build(old(nextId), old(clock), d)] &&
          r.value.trip == ViewOf(Build(old(nextId), old(clock), d)) &&
          r.value.message == "Success create a trip " + r.value.trip.title &&
          nextId == old(nextId) + 1 && clock == old(clock) + 1
      ensures r.Success? ==>
        |trips| > 0 && trips[|trips| - 1].userId == caller && r.value.trip.id == trips[|trips| - 1].id &&
        r.value.trip.status == StoredStatus(body.status) &&
        r.value.trip.itinerary == generate(RequestOf(body)).text
    {
      var generated := generate(RequestOf(body));
      if generated.GenerationFailed? {
        return Failure(generated.thrown);
      }
      var d := NewDraft(caller, body, generated.text);
      var msgs := ValidationMessages(d);
      if msgs != [] {
        return Failure(ValidationError(msgs));
      }
      var trip := Build(nextId, clock, d);
      assert trip.userId == caller && trip.itinerary == generated.text && trip.status == StoredStatus(body.status);
      AppendKeepsRows(trips, trip, nextId, clock);
      trips := trips + [trip];
      assert trips[|trips| - 1] == trip;
      nextId := nextId + 1;
      clock := clock + 1;
      r := Success(Created(201, "Success create a trip " + trip.title, ViewOf(trip)));
    }

    /**
     * `editTrip`: NotFound unless the caller owns a trip with that id; otherwise
     * a partial update that re-stamps the owner, so ownership never changes.
     */
    method EditTrip(caller: nat, id: nat, body: TripBody) returns (r: Result<Reply, Error>)
      requires Valid()
      modifies this
      ensures Valid()
      ensures nextId == old(nextId) && clock == old(clock) && |trips| == |old(trips)|
      ensures old(FindOwned(id, caller)).None? ==> r == Failure(Thrown("NotFound", "Trip not found")) && unchanged(this)
      ensures old(FindOwned(id, caller)).Some? ==>
        var i := old(FindOwned(id, caller)).value;
        var m := Merge(old(trips[i]), body, caller);
        if ValidationMessages(DraftOf(m)) != [] then
          r == Failure(ValidationError(ValidationMessages(DraftOf(m)))) && unchanged(this)
        else
          r == Success(Reply(200, "Success update trip")) && trips == old(trips)[i := m]
      ensures forall k :: 0 <= k < |trips| ==> trips[k].userId == old(trips[k].userId)
    {
      var found := FindOwned(id, caller);
      if found.None? {
        return Failure(Thrown("NotFound", "Trip not found"));
      }
      var i := found.value;
      var m := Merge(trips[i], body, caller);
      var msgs := ValidationMessages(DraftOf(m));
      if msgs != [] {
        return Failure(ValidationError(msgs));
      }
      RevalidateRow(m);
      UpdateKeepsRows(trips, i, m, nextId, clock);
      trips := trips[i := m];
      r := Success(Reply(200, "Success update trip"));
    }

    /**
     * `deleteTrip`: removes exactly the caller's trip with that id and no other
     * row; a missing or foreign id is NotFound naming the id.
     */
    method DeleteTrip(caller: nat, id: nat) returns (r: Result<Reply, Error>)
      requires Valid()
      modifies this
      ensures Valid()
      ensures nextId == old(nextId) && clock == old(clock)
      ensures old(FindOwned(id, caller)).None? ==>
        r == Failure(Thrown("NotFound", "Trip with id " + NatToString(id) + " not found")) && unchanged(this)
      ensures old(FindOwned(id, caller)).Some? ==>
        var i := old(FindOwned(id, caller)).value;
        r == Success(Reply(200, "Delete trip success")) && trips == old(trips[..i] + trips[i + 1..])
      ensures forall t :: t in old(trips) && !(t.id == id && t.userId == caller) ==> t in trips
    {
      var found := FindOwned(id, caller);
      if found.None? {
        return Failure(Thrown("NotFound", "Trip with id " + NatToString(id) + " not found"));
      }
      var i := found.value;
      RemoveKeepsRows(trips, i, nextId, clock);
      ghost var before := trips;
      trips := trips[..i] + trips[i + 1..];
      forall t | t in before && !(t.id == id && t.userId == caller) ensures t in trips {
        var k :| 0 <= k < |before| && before[k] == t;
      }
      r := Success(Reply(200, "Delete trip success"));
    }
  }

  /** Ids are unique in a valid table, so a trip of another owner is never found for the caller. */
  lemma ForeignTripNotFound(table: TripTable, caller: nat, k: nat)
    requires table.Valid()
    requires k < |table.trips| && table.trips[k].userId != caller
    ensures table.GetTripById(caller, table.trips[k].id).Failure?
  {
    var id := table.trips[k].id;
    forall i | 0 <= i < |table.trips| ensures !(table.trips[i].id == id && table.trips[i].userId == caller) {
      if i < k {
        assert table.trips[i].id < id;
      } else if i > k {
        assert table.trips[k].id < table.trips[i].id;
      }
    }
  }
}
