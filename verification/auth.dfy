/** The client's authentication state: the access token's claims, the
    reducer over token, user, role and the two flags, the bootstrap that
    restores a stored session when the app starts, and the root screen
    chosen from the resulting state. */
module Auth {
  import opened Wrappers
  import opened Js

  datatype Role = Consumer | Business | Admin

  /** `DEFAULT_ROLE`. */
  const DefaultRole := Consumer

  /** The custom role claim, normalised: one of the three role names, or
      the default for anything else or nothing. */
  function RoleOf(rawRole: Option<string>): (r: Role)
    ensures r == Admin <==> rawRole == Some("admin")
    ensures r == Business <==> rawRole == Some("business")
    ensures r == Consumer <==> rawRole !in {Some("admin"), Some("business")}
  {
    if rawRole == Some("admin") then Admin
    else if rawRole == Some("business") then Business
    else if rawRole == Some("consumer") then Consumer
    else DefaultRole
  }

  /** The claims of a decoded token that the client reads. A claim that is
      absent (or, for the role, not a string) is `None`. */
  datatype Payload = Payload(sub: Option<string>, email: Option<string>, roleClaim: Option<string>, exp: Option<int>)

  /** `DecodedTokenInfo`. */
  datatype TokenInfo = TokenInfo(userId: string, email: Option<string>, role: Role, exp: Option<int>, isExpired: bool)

  /** `Math.floor(Date.now() / 1000)`: whole seconds since the epoch. */
  function NowSeconds(nowMs: int): int {
    nowMs / 1000
  }

  /** The expiry test: an `exp` of zero counts as absent, and a token is
      still valid during the second its `exp` names. */
  predicate Expired(exp: Option<int>, nowMs: int) {
    Truthy(exp, 0) && exp.value < NowSeconds(nowMs)
  }

  /** A token with an expiry has expired exactly when the whole second
      after `exp` has begun. */
  lemma {:induction false} ExpiredIffSecondPassed(exp: int, nowMs: int)
    requires exp != 0
    ensures Expired(Some(exp), nowMs) <==> (exp + 1) * 1000 <= nowMs
  {
    var q, r := nowMs / 1000, nowMs % 1000;
    assert nowMs == 1000 * q + r && 0 <= r < 1000;
    if exp < q {
      assert (exp + 1) * 1000 <= q * 1000;
    } else {
      assert (exp + 1) * 1000 >= (q + 1) * 1000;
    }
  }

  /** `decodeAccessToken`: `decode` stands for the JWT library, which
      yields `None` where it throws. */
  function DecodeAccessToken(token: string, decode: string -> Option<Payload>, nowMs: int): (r: Option<TokenInfo>)
    ensures r.Some? <==> decode(token).Some?
    ensures r.Some? ==> var p := decode(token).value;
      && r.value.role == RoleOf(p.roleClaim)
      && r.value.email == p.email
      && r.value.exp == p.exp
      && (r.value.isExpired <==> p.exp.Some? && p.exp.value != 0 && p.exp.value < nowMs / 1000)
      && (r.value.userId == if p.sub.Some? then p.sub.value else "")
  {
    match decode(token)
    case None => None
    case Some(p) =>
      Some(TokenInfo(Or(p.sub, Some(""), "").value, p.email, RoleOf(p.roleClaim), p.exp, Expired(p.exp, nowMs)))
  }

  /** `extractRoleFromToken`. */
  function ExtractRoleFromToken(token: string, decode: string -> Option<Payload>, nowMs: int): (r: Role)
    ensures decode(token).Some? ==> r == RoleOf(decode(token).value.roleClaim)
    ensures decode(token).None? ==> r == DefaultRole
  {
    var d := DecodeAccessToken(token, decode, nowMs);
    if d.Some? then d.value.role else DefaultRole
  }

  /** Only a token whose role claim names the admin role yields an admin. */
  lemma AdminOnlyFromAdminClaim(token: string, decode: string -> Option<Payload>, nowMs: int)
    ensures ExtractRoleFromToken(token, decode, nowMs) == Admin
      <==> decode(token).Some? && decode(token).value.roleClaim == Some("admin")
  {
  }

  // ---------------------------------------------------------------------
  // The auth slice
  // ---------------------------------------------------------------------

  datatype User = User(id: string, email: Option<string>, role: Role)

  datatype AuthState = AuthState(token: Option<string>, user: Option<User>, role: Role,
                                 isAuthenticated: bool, isRestoring: bool)

  /** Signed out, with the splash shown until the stored token is checked. */
  const InitialState := AuthState(None, None, DefaultRole, false, true)

  datatype Action =
    | SetCredentials(token: string, user: User, role: Role)
    | Logout
    | RestoreSession(token: string, user: User, role: Role)
    | FinishRestoring

  /** What a reducer asks of the secure store, fire-and-forget. */
  datatype StoreEffect = NoEffect | SaveToken(token: string) | DeleteToken

  /** The reducers, with the store write each one starts. */
  function Reduce(s: AuthState, a: Action): (r: (AuthState, StoreEffect))
    ensures a.SetCredentials? ==>
      r.0 == AuthState(Some(a.token), Some(a.user), a.role, true, false) && r.1 == SaveToken(a.token)
    ensures a.RestoreSession? ==>
      r.0 == AuthState(Some(a.token), Some(a.user), a.role, true, false) && r.1 == NoEffect
    ensures a.Logout? ==>
      r.0 == AuthState(None, None, DefaultRole, false, false) && r.1 == DeleteToken
    ensures a.FinishRestoring? ==> r.0 == s.(isRestoring := false) && r.1 == NoEffect
  {
    match a
    case SetCredentials(token, user, role) => (AuthState(Some(token), Some(user), role, true, false), SaveToken(token))
    case Logout => (AuthState(None, None, DefaultRole, false, false), DeleteToken)
    case RestoreSession(token, user, role) => (AuthState(Some(token), Some(user), role, true, false), NoEffect)
    case FinishRestoring => (s.(isRestoring := false), NoEffect)
  }

  /** An authenticated state always holds a token and a user. */
  predicate Valid(s: AuthState) {
    s.isAuthenticated ==> s.token.Some? && s.user.Some?
  }

  function Run(s: AuthState, actions: seq<Action>): AuthState
    decreases |actions|
  {
    if actions == [] then s else Run(Reduce(s, actions[0]).0, actions[1..])
  }

  /** The invariant holds at the start and after every sequence of
      actions; once the splash is gone it never comes back. */
  lemma {:induction false} RunValid(s: AuthState, actions: seq<Action>)
    requires Valid(s)
    ensures Valid(Run(s, actions))
    ensures !s.isRestoring || actions != [] ==> !Run(s, actions).isRestoring
    decreases |actions|
  {
    if actions != [] {
      RunValid(Reduce(s, actions[0]).0, actions[1..]);
    }
  }

  lemma InitialValid()
    ensures Valid(InitialState)
  {
  }

  // ---------------------------------------------------------------------
  // RootNavigator
  // ---------------------------------------------------------------------

  /** The secure-store read at start-up: the stored token (`null` as
      `None`), or a read that threw. */
  datatype StoreRead = ReadFailed | Stored(token: Option<string>)

  /** `bootstrapAuth`: the one action it dispatches and whether it deleted
      the stored token. `deleteOk` is whether that deletion succeeds; when
      it throws, the handler dispatches `finishRestoring` instead. */
  function Bootstrap(read: StoreRead, decode: string -> Option<Payload>, nowMs: int, deleteOk: bool): (r: (Action, bool))
    ensures r.0.RestoreSession? <==>
      read.Stored? && Truthy(read.token, "") && decode(read.token.value).Some?
      && !Expired(decode(read.token.value).value.exp, nowMs)
    ensures r.0.RestoreSession? ==> var info := DecodeAccessToken(read.token.value, decode, nowMs).value;
      && r.0 == RestoreSession(read.token.value, User(info.userId, info.email, info.role), info.role)
      && !r.1
    ensures r.0.Logout? <==>
      read.Stored? && Truthy(read.token, "") && decode(read.token.value).Some?
      && Expired(decode(read.token.value).value.exp, nowMs) && deleteOk
    ensures r.0.SetCredentials? == false
    ensures r.1 <==> deleteOk && read.Stored? && Truthy(read.token, "") && !r.0.RestoreSession?
  {
    match read
    case ReadFailed => (FinishRestoring, false)
    case Stored(token) =>
      if !Truthy(token, "") then (FinishRestoring, false)
      else
        match DecodeAccessToken(token.value, decode, nowMs)
        case Some(info) =>
          if info.isExpired then
            (if deleteOk then (Logout, true) else (FinishRestoring, false))
          else
            (RestoreSession(token.value, User(info.userId, info.email, info.role), info.role), false)
        case None =>
          (FinishRestoring, deleteOk)
  }

  datatype Screen = Splash | Login | AdminTabs | CustomerTabs

  /** The root stack's single screen for a state. */
  function ScreenOf(s: AuthState): (sc: Screen)
    ensures sc == Splash <==> s.isRestoring
    ensures sc == Login <==> !s.isRestoring && !s.isAuthenticated
    ensures sc == AdminTabs <==> !s.isRestoring && s.isAuthenticated && s.role == Admin
    ensures sc == CustomerTabs <==> !s.isRestoring && s.isAuthenticated && s.role != Admin
  {
    if s.isRestoring then Splash
    else if !s.isAuthenticated then Login
    else if s.role == Admin then AdminTabs
    else CustomerTabs
  }

  /** After start-up the splash is gone whatever the store held, and the
      admin tabs show exactly for a stored, decodable, unexpired token
      whose role claim is "admin". */
  lemma {:induction false} StartupScreen(read: StoreRead, decode: string -> Option<Payload>, nowMs: int, deleteOk: bool)
    ensures var s := Reduce(InitialState, Bootstrap(read, decode, nowMs, deleteOk).0).0;
      && Valid(s)
      && ScreenOf(s) != Splash
      && (ScreenOf(s) == AdminTabs <==>
            read.Stored? && Truthy(read.token, "") && decode(read.token.value).Some?
            && !Expired(decode(read.token.value).value.exp, nowMs)
            && decode(read.token.value).value.roleClaim == Some("admin"))
      && (ScreenOf(s) == Login <==>
            !(read.Stored? && Truthy(read.token, "") && decode(read.token.value).Some?
              && !Expired(decode(read.token.value).value.exp, nowMs)))
  {
    var a := Bootstrap(read, decode, nowMs, deleteOk).0;
    if a.RestoreSession? {
      assert a.role == RoleOf(decode(read.token.value).value.roleClaim);
    }
  }
}
