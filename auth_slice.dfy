/**
 * The client's authentication slice: three fields of Redux state and the
 * `access_token` entry of `localStorage`, changed by four reducers. The pure
 * functions give each reducer's effect on a snapshot of that state; the
 * `AuthStore` class performs the same assignments in place.
 */
module AuthSlice {
  import opened Wrappers

  /** The slice state together with the stored `access_token` (None when the key is absent). */
  datatype Snapshot = Snapshot(isAuthenticated: bool, isLoading: bool, token: Option<string>, stored: Option<string>)

  /** `initialState`, over whatever the browser has stored. */
  function Initial(stored: Option<string>): (s: Snapshot)
    ensures !s.isAuthenticated && s.isLoading && s.token.None? && s.stored == stored
  {
    Snapshot(false, true, None, stored)
  }

  /**
   * `initializeAuth`: a non-empty stored token authenticates and becomes the
   * token; otherwise both fields are left alone. Loading ends either way.
   */
  function Initialized(s: Snapshot): (r: Snapshot)
    ensures !r.isLoading && r.stored == s.stored
    ensures Truthy(s.stored) ==> r.isAuthenticated && r.token == s.stored
    ensures !Truthy(s.stored) ==> r.isAuthenticated == s.isAuthenticated && r.token == s.token
  {
    if Truthy(s.stored) then s.(isAuthenticated := true, token := s.stored, isLoading := false)
    else s.(isLoading := false)
  }

  /** `login(t)`: the token is stored and held; loading is untouched. */
  function LoggedIn(s: Snapshot, t: string): (r: Snapshot)
    ensures r.isAuthenticated && r.token == Some(t) && r.stored == Some(t) && r.isLoading == s.isLoading
  {
    s.(stored := Some(t), isAuthenticated := true, token := Some(t))
  }

  /** `logout`: the key is removed and the token dropped; loading is untouched. */
  function LoggedOut(s: Snapshot): (r: Snapshot)
    ensures !r.isAuthenticated && r.token.None? && r.stored.None? && r.isLoading == s.isLoading
  {
    s.(stored := None, isAuthenticated := false, token := None)
  }

  /** `setLoading(b)`: only `isLoading` changes. */
  function WithLoading(s: Snapshot, b: bool): (r: Snapshot)
    ensures r.isLoading == b && r.isAuthenticated == s.isAuthenticated && r.token == s.token && r.stored == s.stored
  {
    s.(isLoading := b)
  }

  /**
   * What every reducer keeps: authenticated exactly when a token is held, and
   * a held token is the stored one.
   */
  predicate Consistent(s: Snapshot) {
    (s.isAuthenticated <==> s.token.Some?) && (s.token.Some? ==> s.stored == s.token)
  }

  /** The initial state and every reducer keep the state consistent. */
  lemma ReducersKeepConsistent(s: Snapshot, t: string, b: bool)
    requires Consistent(s)
    ensures Consistent(Initial(s.stored))
    ensures Consistent(Initialized(s)) && Consistent(LoggedIn(s, t))
    ensures Consistent(LoggedOut(s)) && Consistent(WithLoading(s, b))
  {
  }

  /** After `login(t)`, dispatching `initializeAuth` again in the same session keeps it with the same token. */
  lemma LoginThenInitialize(s: Snapshot, t: string)
    ensures var r := Initialized(LoggedIn(s, t));
      r.isAuthenticated && r.token == Some(t) && !r.isLoading
  {
  }

  /** After `logout`, dispatching `initializeAuth` again in the same session stays logged out. */
  lemma LogoutThenInitialize(s: Snapshot)
    ensures var r := Initialized(LoggedOut(s));
      !r.isAuthenticated && r.token.None? && !r.isLoading
  {
  }

  /**
   * A reload after `login(t)`: the page starts from `initialState` over the
   * stored key and `initializeAuth` restores the session, unless `t` is empty.
   */
  lemma ReloadAfterLogin(s: Snapshot, t: string)
    ensures var r := Initialized(Initial(LoggedIn(s, t).stored));
      (r.isAuthenticated <==> t != "") && (t != "" ==> r.token == Some(t)) && !r.isLoading
  {
  }

  /** A reload after `logout`: the key is gone, so the fresh page is not authenticated. */
  lemma ReloadAfterLogout(s: Snapshot)
    ensures var r := Initialized(Initial(LoggedOut(s).stored));
      !r.isAuthenticated && r.token.None? && !r.isLoading
  {
  }

  /** Logging out twice is logging out once. */
  lemma LogoutIdempotent(s: Snapshot)
    ensures LoggedOut(LoggedOut(s)) == LoggedOut(s)
  {
  }

  /** A stored empty token does not authenticate a fresh page. */
  lemma EmptyStoredTokenIgnored()
    ensures var r := Initialized(Initial(Some("")));
      !r.isAuthenticated && r.token.None? && !r.isLoading
  {
  }

  /** The store as the reducers mutate it, with the browser's `localStorage` key. */
  class AuthStore {
    var isAuthenticated: bool
    var isLoading: bool
    var token: Option<string>
    /** `localStorage.getItem('access_token')`, None when the key is absent. */
    var stored: Option<string>

    function State(): Snapshot
      reads this
    {
      Snapshot(isAuthenticated, isLoading, token, stored)
    }

    constructor (stored: Option<string>)
      ensures State() == Initial(stored) && Consistent(State())
    {
      isAuthenticated := false;
      isLoading := true;
      token := None;
      this.stored := stored;
    }

    method InitializeAuth()
      modifies this
      ensures State() == Initialized(old(State()))
    {
      var t := stored;
      if Truthy(t) {
        isAuthenticated := true;
        token := t;
      }
      isLoading := false;
    }

    method Login(t: string)
      modifies this
      ensures State() == LoggedIn(old(State()), t)
    {
      stored := Some(t);
      isAuthenticated := true;
      token := Some(t);
    }

    method Logout()
      modifies this
      ensures State() == LoggedOut(old(State()))
    {
      stored := None;
      isAuthenticated := false;
      token := None;
    }

    method SetLoading(b: bool)
      modifies this
      ensures State() == WithLoading(old(State()), b)
    {
      isLoading := b;
    }
  }
}
