/**
 * The profile handlers over the Profile table. Unlike the trip handlers they
 * are not scoped by a profile's id and its owner together: `getProfile` and
 * `editById` select by owner alone, and `editColumnUrl` by id alone. The image
 * upload is a parameter that either returns a URL or throws.
 */
module ProfileController {
  import opened Wrappers
  import opened Strings
  import opened Http

  /** A stored profile; `profilePict` is the only nullable column. */
  datatype Profile = Profile(
    id: nat,
    userId: nat,
    name: string,
    age: string,
    gender: string,
    citizen: string,
    profilePict: Option<string>)

  /** The fields of `req.body` the handlers read. */
  datatype ProfileBody = ProfileBody(
    name: Option<string>,
    age: Option<string>,
    gender: Option<string>,
    citizen: Option<string>,
    profilePict: Option<string>)

  /** The file multer leaves in `req.file`. */
  datatype UploadedFile = UploadedFile(mimetype: string, buffer: seq<bv8>)

  /** The uploader answers with the `secure_url` of the stored image, or throws. */
  datatype Upload = Url(secureUrl: string) | UploadFailed(thrown: Error)

  /**
   * What a handler does with the request: answer it directly with a status,
   * a message and possibly a profile, or pass an error to `next`.
   */
  datatype Outcome = Answered(status: int, message: string, data: Option<Profile>) | Forwarded(err: Error)

  /** The non-null columns `Profile.create` validates, in declaration order. */
  datatype Column = NameColumn | AgeColumn | GenderColumn | CitizenColumn

  /** Sequelize's text for a `allowNull: false` column without a message of its own. */
  function NullMessage(c: Column): string {
    match c
    case NameColumn => "Profile.name cannot be null"
    case AgeColumn => "Profile.age cannot be null"
    case GenderColumn => "Profile.gender cannot be null"
    case CitizenColumn => "Profile.citizen cannot be null"
  }

  function Value(body: ProfileBody, c: Column): Option<string> {
    match c
    case NameColumn => body.name
    case AgeColumn => body.age
    case GenderColumn => body.gender
    case CitizenColumn => body.citizen
  }

  function NullCheck(body: ProfileBody, c: Column): seq<string> {
    if Value(body, c).None? then [NullMessage(c)] else []
  }

  /**
   * The messages of `Profile.create` for this body: one per missing column, in
   * order. `userId` is always the caller's and `profilePict` may be null, so
   * neither can fail; an empty string passes, as no column has `notEmpty`.
   */
  function CreateMessages(body: ProfileBody): (r: seq<string>)
    ensures r == [] <==> body.name.Some? && body.age.Some? && body.gender.Some? && body.citizen.Some?
    ensures forall c :: NullMessage(c) in r <==> Value(body, c).None?
    ensures |r| <= 4
  {
    var r := NullCheck(body, NameColumn) + NullCheck(body, AgeColumn) + NullCheck(body, GenderColumn) +
             NullCheck(body, CitizenColumn);
    assert forall c :: NullMessage(c) in r <==> Value(body, c).None? by {
      forall c ensures NullMessage(c) in r <==> Value(body, c).None? {
        assert forall d :: d != c ==> NullMessage(d) != NullMessage(c);
      }
    }
    r
  }

  /** The row `Profile.create` inserts for a body that passes validation. */
  function NewProfile(id: nat, caller: nat, body: ProfileBody, url: string): (p: Profile)
    requires CreateMessages(body) == []
    ensures p.id == id && p.userId == caller && p.profilePict == Some(url)
    ensures p.name == body.name.value && p.age == body.age.value
    ensures p.gender == body.gender.value && p.citizen == body.citizen.value
  {
    Profile(id, caller, body.name.value, body.age.value, body.gender.value, body.citizen.value, Some(url))
  }

  /**
   * `profileFound.update({ name, age, gender, citizen, profilePict, userId })`:
   * present fields overwrite, absent ones (dropped by Sequelize as undefined)
   * keep their value, and the owner is the caller.
   */
  function Patch(p: Profile, body: ProfileBody, caller: nat): (q: Profile)
    ensures q.id == p.id && q.userId == caller
    ensures forall c :: Value(body, c).Some? ==> ColumnOf(q, c) == Value(body, c).value
    ensures forall c :: Value(body, c).None? ==> ColumnOf(q, c) == ColumnOf(p, c)
    ensures q.profilePict == if body.profilePict.Some? then body.profilePict else p.profilePict
  {
    Profile(p.id, caller, body.name.GetOr(p.name), body.age.GetOr(p.age), body.gender.GetOr(p.gender),
            body.citizen.GetOr(p.citizen), if body.profilePict.Some? then body.profilePict else p.profilePict)
  }

  /** The text of one of the four validated columns of a row. */
  function ColumnOf(p: Profile, c: Column): string {
    match c
    case NameColumn => p.name
    case AgeColumn => p.age
    case GenderColumn => p.gender
    case CitizenColumn => p.citizen
  }

  /**
   * `Profile.findOne({ where: { userId } })`. The query has no `order`, so any
   * row of the owner may come back; the model resolves it to the first-inserted one.
   */
  function FirstOwnedBy(rows: seq<Profile>, owner: nat): (r: Option<nat>)
    ensures r.Some? ==> r.value < |rows| && rows[r.value].userId == owner &&
                        forall k :: 0 <= k < r.value ==> rows[k].userId != owner
    ensures r.None? <==> forall k :: 0 <= k < |rows| ==> rows[k].userId != owner
    decreases |rows|
  {
    if rows == [] then None
    else if rows[0].userId == owner then Some(0)
    else
      match FirstOwnedBy(rows[1..], owner)
      case None => None
      case Some(i) => Some(i + 1)
  }

  /** `Profile.findByPk(id)`: the row with that id, whoever owns it. */
  function RowWithId(rows: seq<Profile>, id: nat): (r: Option<nat>)
    ensures r.Some? ==> r.value < |rows| && rows[r.value].id == id
    ensures r.None? <==> forall k :: 0 <= k < |rows| ==> rows[k].id != id
    decreases |rows|
  {
    if rows == [] then None
    else if rows[0].id == id then Some(0)
    else
      match RowWithId(rows[1..], id)
      case None => None
      case Some(i) => Some(i + 1)
  }

  /** Ids are fresh and strictly increasing; nothing constrains how many rows an owner has. */
  ghost predicate RowsValid(rows: seq<Profile>, nextId: nat) {
    (forall i :: 0 <= i < |rows| ==> rows[i].id < nextId) &&
    (forall i, j :: 0 <= i < j < |rows| ==> rows[i].id < rows[j].id)
  }

  /**
   * Under the first-inserted resolution of `FirstOwnedBy`, a second profile
   * of the same owner is never the one `getProfile` and `editById` reach.
   */
  lemma {:induction false} LaterProfileShadowed(rows: seq<Profile>, p: Profile)
    requires FirstOwnedBy(rows, p.userId).Some?
    ensures FirstOwnedBy(rows + [p], p.userId) == FirstOwnedBy(rows, p.userId)
    decreases |rows|
  {
    if rows[0].userId != p.userId {
      assert (rows + [p])[1..] == rows[1..] + [p];
      LaterProfileShadowed(rows[1..], p);
    }
  }

  /** Under the first-inserted resolution, a first profile is what the owner's lookups reach from then on. */
  lemma {:induction false} FirstProfileFound(rows: seq<Profile>, p: Profile)
    requires FirstOwnedBy(rows, p.userId).None?
    ensures FirstOwnedBy(rows + [p], p.userId) == Some(|rows|)
    decreases |rows|
  {
    var all := rows + [p];
    if rows == [] {
      assert all == [p];
    } else {
      assert rows[0].userId != p.userId;
      assert all[0] == rows[0] && all[1..] == rows[1..] + [p];
      FirstProfileFound(rows[1..], p);
    }
  }

  /** The Profile table: rows in insertion order and the id sequence. */
  class ProfileTable {
    var rows: seq<Profile>
    var nextId: nat

    ghost predicate Valid()
      reads this
    {
      RowsValid(rows, nextId)
    }

    constructor ()
      ensures Valid() && rows == [] && nextId == 1
    {
      rows := [];
      nextId := 1;
    }

    /**
     * `createProfile`: without a file the request is answered 400 before any
     * upload; the upload runs next and its failure is forwarded; only then are
     * the columns validated. The row belongs to the caller and there is no check
     * for a profile the caller already has.
     */
    method CreateProfile(caller: nat, body: ProfileBody, file: Option<UploadedFile>, upload: UploadedFile -> Upload)
      returns (r: Outcome)
      requires Valid()
      modifies this
      ensures Valid()
      ensures file.None? ==> r == Answered(400, "Image is required", None) && unchanged(this)
      ensures file.Some? && upload(file.value).UploadFailed? ==>
        r == Forwarded(upload(file.value).thrown) && unchanged(this)
      ensures file.Some? && upload(file.value).Url? ==>
        if CreateMessages(body) != [] then
          r == Forwarded(ValidationError(CreateMessages(body))) && unchanged(this)
        else
          var p := NewProfile(old(nextId), caller, body, upload(file.value).secureUrl);
          r == Answered(201, "Success make a profile", Some(p)) &&
          rows == old(rows) + [p] && nextId == old(nextId) + 1
    {
      if file.None? {
        return Answered(400, "Image is required", None);
      }
      var uploaded := upload(file.value);
      if uploaded.UploadFailed? {
        return Forwarded(uploaded.thrown);
      }
      var msgs := CreateMessages(body);
      if msgs != [] {
        return Forwarded(ValidationError(msgs));
      }
      var p := NewProfile(nextId, caller, body, uploaded.secureUrl);
      rows := rows + [p];
      nextId := nextId + 1;
      r := Answered(201, "Success make a profile", Some(p));
    }

    /** `getProfile`: the caller's first profile, or NotFound. */
    function GetProfile(caller: nat): (r: Result<Profile, Error>)
      reads this
      ensures r.Success? ==> r.value in rows && r.value.userId == caller
      ensures r.Failure? <==> forall k :: 0 <= k < |rows| ==> rows[k].userId != caller
      ensures r.Failure? ==> r.error == Thrown("NotFound", "Profile not found")
    {
      match FirstOwnedBy(rows, caller)
      case None => Failure(Thrown("NotFound", "Profile not found"))
      case Some(i) => Success(rows[i])
    }

    /**
     * `editById`: the row is chosen by owner alone; the `:id` parameter only
     * appears in the NotFound message and never selects which row changes.
     */
    method EditById(caller: nat, id: nat, body: ProfileBody) returns (r: Outcome)
      requires Valid()
      modifies this
      ensures Valid()
      ensures nextId == old(nextId) && |rows| == |old(rows)|
      ensures old(FirstOwnedBy(rows, caller)).None? ==>
        r == Forwarded(Thrown("NotFound", "Profile with id " + NatToString(id) + " not found")) && unchanged(this)
      ensures old(FirstOwnedBy(rows, caller)).Some? ==>
        var i := old(FirstOwnedBy(rows, caller)).value;
        var q := Patch(old(rows[i]), body, caller);
        r == Answered(200, "Success update profile", Some(q)) && rows == old(rows)[i := q]
    {
      var found := FirstOwnedBy(rows, caller);
      if found.None? {
        return Forwarded(Thrown("NotFound", "Profile with id " + NatToString(id) + " not found"));
      }
      var i := found.value;
      var q := Patch(rows[i], body, caller);
      rows := rows[i := q];
      r := Answered(200, "Success update profile", Some(q));
    }

    /**
     * `editColumnUrl`: the row is chosen by primary key alone, whoever the
     * caller is: `caller` is accepted and never consulted. NotFound is checked
     * before the missing file; only `profilePict` changes.
     */
    method EditColumnUrl(caller: nat, id: nat, file: Option<UploadedFile>, upload: UploadedFile -> Upload)
      returns (r: Outcome)
      requires Valid()
      modifies this
      ensures Valid()
      ensures nextId == old(nextId) && |rows| == |old(rows)|
      ensures old(RowWithId(rows, id)).None? ==>
        r == Forwarded(Thrown("NotFound", "Profile id " + NatToString(id) + " not found")) && unchanged(this)
      ensures old(RowWithId(rows, id)).Some? && file.None? ==>
        r == Forwarded(Thrown("BadRequest", "Profile picture is required")) && unchanged(this)
      ensures old(RowWithId(rows, id)).Some? && file.Some? && upload(file.value).UploadFailed? ==>
        r == Forwarded(upload(file.value).thrown) && unchanged(this)
      ensures old(RowWithId(rows, id)).Some? && file.Some? && upload(file.value).Url? ==>
        var i := old(RowWithId(rows, id)).value;
        r == Answered(200, "Profile picture has been updated", None) &&
        rows == old(rows)[i := old(rows[i]).(profilePict := Some(upload(file.value).secureUrl))]
    {
      var found := RowWithId(rows, id);
      if found.None? {
        return Forwarded(Thrown("NotFound", "Profile id " + NatToString(id) + " not found"));
      }
      if file.None? {
        return Forwarded(Thrown("BadRequest", "Profile picture is required"));
      }
      var uploaded := upload(file.value);
      if uploaded.UploadFailed? {
        return Forwarded(uploaded.thrown);
      }
      var i := found.value;
      rows := rows[i := rows[i].(profilePict := Some(uploaded.secureUrl))];
      r := Answered(200, "Profile picture has been updated", None);
    }
  }

  /**
   * `editById` picks the same row whatever `:id` names, including an id that
   * belongs to nobody or to another user's profile.
   */
  lemma EditTargetIgnoresId(rows: seq<Profile>, caller: nat, other: nat)
    requires other < |rows| && rows[other].userId != caller
    requires FirstOwnedBy(rows, caller).Some?
    ensures FirstOwnedBy(rows, caller).value != other
    ensures rows[FirstOwnedBy(rows, caller).value].userId == caller
  {
  }

  /** The upload of a picture reaches a profile of any owner: the id alone selects the row. */
  lemma PictureReachesForeignProfile()
    ensures var rows := [Profile(1, 7, "Ann", "30", "F", "ID", None)];
      RowWithId(rows, 1) == Some(0) && rows[0].userId != 8 && FirstOwnedBy(rows, 8).None?
  {
  }

  /** On a valid table one id designates at most one row. */
  lemma RowWithIdUnique(rows: seq<Profile>, nextId: nat, k: nat)
    requires RowsValid(rows, nextId) && k < |rows|
    ensures RowWithId(rows, rows[k].id) == Some(k)
  {
  }
}
