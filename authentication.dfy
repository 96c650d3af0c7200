/**
 * The bearer-token gate mounted in front of `/profile` and `/trips`.
 * Token verification and the primary-key lookup of users are parameters; the
 * gate is described by the trace of the effects it performs, in order.
 */
module Authentication {
  import opened Wrappers
  import opened Strings
  import opened Http
  import opened UserModel
  import ErrorHandler

  /** What the gate stores in `req.user`. */
  datatype Identity = Identity(id: nat, role: Option<string>)

  /** The outcome of `verifyToken`: the decoded claims, or the error it throws. */
  datatype Verified = Claims(id: nat) | Throws(thrown: Error)

  /** The observable steps of the gate. */
  datatype Effect =
    | CallVerify(token: string)
    | FindUser(id: nat)
    | SetUser(who: Identity)
    | CallNext(err: Option<Error>)

  const InvalidToken := Thrown("Unauthorized", "Invalid token")

  /**
   * `authorization.split(' ')`: accepted only when the first piece is exactly
   * "Bearer" and a second, non-empty piece exists; that piece is the token.
   */
  function BearerToken(authorization: string): Option<string> {
    var pieces := Split(authorization, ' ');
    if pieces[0] == "Bearer" && |pieces| > 1 && pieces[1] != "" then Some(pieces[1]) else None
  }

  /** Any space-free token after "Bearer " is accepted, whatever follows a further space. */
  lemma BearerAccepts(t: string, rest: string)
    requires t != "" && ' ' !in t
    requires rest == "" || rest[0] == ' '
    ensures BearerToken("Bearer " + t + rest) == Some(t)
  {
    assert "Bearer " + t + rest == "Bearer" + [' '] + (t + rest);
    SplitAtSeparator("Bearer", t + rest, ' ');
    SplitFreePrefix(t, rest, ' ');
    if rest == "" {
      assert Split(rest, ' ') == [""];
    } else {
      assert rest == [' '] + rest[1..];
      assert Split(rest, ' ') == [""] + Split(rest[1..], ' ');
    }
    assert t + "" == t;
  }

  /**
   * Conversely, an accepted header is "Bearer ", then the space-free token,
   * then either nothing or a space (after which anything is ignored).
   */
  lemma BearerShape(h: string)
    requires BearerToken(h).Some?
    ensures var t := BearerToken(h).value;
      t != "" && ' ' !in t && StartsWith(h, "Bearer " + t) && (|h| == 7 + |t| || h[7 + |t|] == ' ')
  {
    var pieces := Split(h, ' ');
    var t := pieces[1];
    JoinSplit(h, ' ');
    SplitPiecesFree(h, ' ');
    assert ' ' !in t;
    var tail := Join(pieces[1..], " ");
    assert h == "Bearer" + " " + tail;
    if |pieces| == 2 {
      assert tail == t;
      assert h == "Bearer " + t;
    } else {
      assert pieces[1..][1..] == pieces[2..];
      assert tail == t + " " + Join(pieces[2..], " ");
      assert h == ("Bearer " + t) + (" " + Join(pieces[2..], " "));
    }
    assert h[..|"Bearer " + t|] == "Bearer " + t;
  }

  /** A bare scheme has no second piece. */
  lemma BareSchemeRejected()
    ensures BearerToken("Bearer") == None
  {
    SplitWhole("Bearer", ' ');
  }

  /** The scheme is compared case-sensitively. */
  lemma LowerCaseSchemeRejected()
    ensures BearerToken("bearer x") == None
  {
    assert "bearer x" == "bearer" + [' '] + "x";
    SplitAtSeparator("bearer", "x", ' ');
  }

  /** Two spaces leave an empty second piece. */
  lemma DoubleSpaceRejected()
    ensures BearerToken("Bearer  x") == None
  {
    assert "Bearer  x" == "Bearer" + [' '] + " x";
    SplitAtSeparator("Bearer", " x", ' ');
    assert " x" == "" + [' '] + "x";
    SplitAtSeparator("", "x", ' ');
  }

  /** Another scheme is rejected. */
  lemma OtherSchemeRejected()
    ensures BearerToken("InvalidFormat token") == None
  {
    assert "InvalidFormat token" == "InvalidFormat" + [' '] + "token";
    SplitAtSeparator("InvalidFormat", "token", ' ');
  }

  /** The effects of `authMiddleware(req, res, next)` for a given header. */
  function GateEffects(authorization: Option<string>, verify: string -> Verified,
                       findByPk: nat -> Option<User>): (r: seq<Effect>)
    ensures |r| >= 1 && r[|r| - 1].CallNext?
    ensures forall i :: 0 <= i < |r| - 1 ==> !r[i].CallNext?
    ensures forall i :: 0 <= i < |r| && r[i].SetUser? ==> i == |r| - 2 && r[|r| - 1] == CallNext(None)
    ensures r[|r| - 1] == CallNext(None) ==> |r| >= 2 && r[|r| - 2].SetUser?
    ensures !Truthy(authorization) ==> r == [CallNext(Some(InvalidToken))]
  {
    if !Truthy(authorization) then [CallNext(Some(InvalidToken))]
    else
      match BearerToken(authorization.value)
      case None => [CallNext(Some(InvalidToken))]
      case Some(token) =>
        match verify(token)
        case Throws(e) => [CallVerify(token), CallNext(Some(e))]
        case Claims(id) =>
          match findByPk(id)
          case None => [CallVerify(token), FindUser(id), CallNext(Some(InvalidToken))]
          case Some(u) => [CallVerify(token), FindUser(id), SetUser(Identity(u.id, u.role)), CallNext(None)]
  }

  /** The identity a trace stores, if it stores one. */
  function StoredUser(effects: seq<Effect>): Option<Identity> {
    if |effects| >= 2 && effects[|effects| - 2].SetUser? then Some(effects[|effects| - 2].who) else None
  }

  /** A header without the Bearer shape fails before verification: no verify, no lookup. */
  lemma MalformedHeaderNeverVerified(authorization: Option<string>, verify: string -> Verified,
                                     findByPk: nat -> Option<User>)
    requires !Truthy(authorization) || BearerToken(authorization.value).None?
    ensures GateEffects(authorization, verify, findByPk) == [CallNext(Some(InvalidToken))]
  {
  }

  /** Whatever `verifyToken` throws reaches `next` unchanged, and no lookup happens. */
  lemma VerifyErrorForwarded(authorization: string, verify: string -> Verified, findByPk: nat -> Option<User>)
    requires authorization != "" && BearerToken(authorization).Some?
    requires verify(BearerToken(authorization).value).Throws?
    ensures var t := BearerToken(authorization).value;
      GateEffects(Some(authorization), verify, findByPk) == [CallVerify(t), CallNext(Some(verify(t).thrown))]
  {
  }

  /**
   * A verified token whose id has no user fails with Unauthorized, which the
   * error handler answers with 401 "Invalid token".
   */
  lemma MissingUserUnauthorized(authorization: string, verify: string -> Verified, findByPk: nat -> Option<User>)
    requires authorization != "" && BearerToken(authorization).Some?
    requires verify(BearerToken(authorization).value).Claims?
    requires findByPk(verify(BearerToken(authorization).value).id).None?
    ensures var r := GateEffects(Some(authorization), verify, findByPk);
      r[|r| - 1] == CallNext(Some(InvalidToken)) && StoredUser(r).None?
    ensures ErrorHandler.Handle(InvalidToken) == ErrorHandler.Response(401, Some("Invalid token"))
  {
  }

  /**
   * On success `req.user` is the id and role of the user loaded from the store,
   * not the claims of the token, and `next()` gets no argument.
   */
  lemma IdentityFromLoadedUser(authorization: string, verify: string -> Verified, findByPk: nat -> Option<User>)
    requires authorization != "" && BearerToken(authorization).Some?
    requires verify(BearerToken(authorization).value).Claims?
    requires findByPk(verify(BearerToken(authorization).value).id).Some?
    ensures var u := findByPk(verify(BearerToken(authorization).value).id).value;
      var r := GateEffects(Some(authorization), verify, findByPk);
      StoredUser(r) == Some(Identity(u.id, u.role)) && r[|r| - 1] == CallNext(None)
  {
  }

  /** The parts of the Express request the gate reads and writes. */
  class Request {
    const authorization: Option<string>
    var user: Option<Identity>
    /** Every effect performed on behalf of this request so far. */
    var effects: seq<Effect>

    constructor (authorization: Option<string>)
      ensures this.authorization == authorization && user.None? && effects == []
    {
      this.authorization := authorization;
      user := None;
      effects := [];
    }
  }

  /**
   * `authMiddleware`, step by step. It performs exactly the effects of
   * `GateEffects` and sets `req.user` only on the success path.
   */
  method AuthMiddleware(req: Request, verify: string -> Verified, findByPk: nat -> Option<User>)
    modifies req
    ensures req.effects == old(req.effects) + GateEffects(req.authorization, verify, findByPk)
    ensures var stored := StoredUser(GateEffects(req.authorization, verify, findByPk));
      req.user == if stored.Some? then stored else old(req.user)
  {
    if !Truthy(req.authorization) {
      req.effects := req.effects + [CallNext(Some(InvalidToken))];
      return;
    }
    var token := BearerToken(req.authorization.value);
    if token.None? {
      req.effects := req.effects + [CallNext(Some(InvalidToken))];
      return;
    }
    req.effects := req.effects + [CallVerify(token.value)];
    var result := verify(token.value);
    if result.Throws? {
      req.effects := req.effects + [CallNext(Some(result.thrown))];
      return;
    }
    req.effects := req.effects + [FindUser(result.id)];
    var user := findByPk(result.id);
    if user.None? {
      req.effects := req.effects + [CallNext(Some(InvalidToken))];
      return;
    }
    var who := Identity(user.value.id, user.value.role);
    req.user := Some(who);
    req.effects := req.effects + [SetUser(who)];
    req.effects := req.effects + [CallNext(None)];
  }
}
