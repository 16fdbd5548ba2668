/** The persisted session store (src/store/index.ts): a two-field state `{ session,
    isLoggedIn }`, its actions, the write-through copy kept in local storage under the key
    `cmpc-session`, and the expiry check that runs when the copy is read back at start-up.

    The pure functions below give the new state of each action in terms of the old one; the
    class `Store` performs the actions in place and is proved against them. */
module SessionStore {
  import opened Common

  datatype Tokens = Tokens(
    accessToken: string,
    refreshToken: string,
    tokenType: string,
    expiresIn: int,
    issuedAt: int)

  datatype User = User(
    id: int,
    email: string,
    role: string,
    firstName: string,
    lastName: string,
    createdAt: string,
    updatedAt: string,
    lastLoginAt: string)

  datatype Meta = Meta(location: Option<string>, isActive: bool)

  datatype Session = Session(tokens: Tokens, user: User, meta: Meta)

  /** `Partial<SessionUser>`: `Some` for each field the caller supplies. */
  datatype UserPatch = UserPatch(
    id: Option<int>,
    email: Option<string>,
    role: Option<string>,
    firstName: Option<string>,
    lastName: Option<string>,
    createdAt: Option<string>,
    updatedAt: Option<string>,
    lastLoginAt: Option<string>)

  /** The persisted slice `{ session, isLoggedIn }`. A `null` and an `undefined` session are
      both `None`: `JSON.stringify` drops an undefined key and rehydration then keeps the
      initial `null`. */
  datatype State = State(session: Option<Session>, isLoggedIn: bool)

  const Initial: State := State(None, false)

  /** The local-storage key the slice is persisted under. */
  const StorageKey: string := "cmpc-session"

  /** The store's invariant: logged in exactly when a session is held. */
  predicate Consistent(st: State) {
    st.isLoggedIn <==> st.session.Some?
  }

  function Pick<T>(patch: Option<T>, old_: T): T {
    match patch
    case Some(x) => x
    case None => old_
  }

  /** `{ ...user, ...patch }`: supplied fields overwrite, the others keep their value. */
  function MergeUser(u: User, p: UserPatch): (r: User)
    ensures p.id.Some? ==> r.id == p.id.value
    ensures p.id.None? ==> r.id == u.id
    ensures p.email.Some? ==> r.email == p.email.value
    ensures p.email.None? ==> r.email == u.email
    ensures p.role.Some? ==> r.role == p.role.value
    ensures p.role.None? ==> r.role == u.role
    ensures p.firstName.Some? ==> r.firstName == p.firstName.value
    ensures p.firstName.None? ==> r.firstName == u.firstName
    ensures p.lastName.Some? ==> r.lastName == p.lastName.value
    ensures p.lastName.None? ==> r.lastName == u.lastName
    ensures p.createdAt.Some? ==> r.createdAt == p.createdAt.value
    ensures p.createdAt.None? ==> r.createdAt == u.createdAt
    ensures p.updatedAt.Some? ==> r.updatedAt == p.updatedAt.value
    ensures p.updatedAt.None? ==> r.updatedAt == u.updatedAt
    ensures p.lastLoginAt.Some? ==> r.lastLoginAt == p.lastLoginAt.value
    ensures p.lastLoginAt.None? ==> r.lastLoginAt == u.lastLoginAt
  {
    User(Pick(p.id, u.id), Pick(p.email, u.email), Pick(p.role, u.role),
         Pick(p.firstName, u.firstName), Pick(p.lastName, u.lastName),
         Pick(p.createdAt, u.createdAt), Pick(p.updatedAt, u.updatedAt),
         Pick(p.lastLoginAt, u.lastLoginAt))
  }

  /** `setSession(session)`: the given session replaces any previous one wholesale and the
      store says it is logged in, whatever the argument is. */
  function AfterSetSession(st: State, s: Option<Session>): (r: State)
    ensures r.session == s && r.isLoggedIn
    ensures Consistent(r) <==> s.Some?
  {
    State(s, true)
  }

  /** `updateUser(patch)`: nothing happens without a session; with one, only the supplied
      user fields change and tokens, meta and `isLoggedIn` stay as they were. */
  function AfterUpdateUser(st: State, p: UserPatch): (r: State)
    ensures st.session.None? ==> r == st
    ensures r.isLoggedIn == st.isLoggedIn
    ensures r.session.Some? <==> st.session.Some?
    ensures st.session.Some? ==>
      && r.session.value.tokens == st.session.value.tokens
      && r.session.value.meta == st.session.value.meta
      && r.session.value.user == MergeUser(st.session.value.user, p)
    ensures Consistent(st) ==> Consistent(r)
  {
    match st.session
    case None => st
    case Some(s) => State(Some(s.(user := MergeUser(s.user, p))), st.isLoggedIn)
  }

  /** `clear()` and `logout()` (the two bodies are the same): no session, logged out. */
  function AfterClear(st: State): (r: State)
    ensures r.session.None? && !r.isLoggedIn
    ensures Consistent(r)
  {
    Initial
  }

  /** `getAccessToken()`: `session?.tokens.accessToken || null`, so an empty token reads as
      no token. */
  function AccessToken(st: State): (t: Option<string>)
    ensures t.Some? <==> st.session.Some? && st.session.value.tokens.accessToken != ""
    ensures t.Some? ==> t.value == st.session.value.tokens.accessToken && t.value != ""
  {
    match st.session
    case Some(s) => if s.tokens.accessToken != "" then Some(s.tokens.accessToken) else None
    case None => None
  }

  /** `getRefreshToken()`, symmetric to `getAccessToken()`. */
  function RefreshToken(st: State): (t: Option<string>)
    ensures t.Some? <==> st.session.Some? && st.session.value.tokens.refreshToken != ""
    ensures t.Some? ==> t.value == st.session.value.tokens.refreshToken && t.value != ""
  {
    match st.session
    case Some(s) => if s.tokens.refreshToken != "" then Some(s.tokens.refreshToken) else None
    case None => None
  }

  /** `getUser()`: `session?.user || null` (a user object is always truthy). */
  function UserOf(st: State): (u: Option<User>)
    ensures u.Some? <==> st.session.Some?
    ensures u.Some? ==> u.value == st.session.value.user
  {
    match st.session
    case Some(s) => Some(s.user)
    case None => None
  }

  /** What `jwtDecode` reads from a token: the `exp` claim in epoch seconds, if any. */
  datatype Claims = Claims(exp: Option<int>)

  /** The rehydration test on a token, with `decode` standing for `jwtDecode` (`None` when it
      throws) and `nowMs` for `Date.now()`. `decoded.exp && decoded.exp < Date.now() / 1000`
      is true when the claim is present, non-zero and `exp * 1000 < nowMs`. */
  predicate TokenRejected(token: string, decode: string -> Option<Claims>, nowMs: int) {
    match decode(token)
    case None => true
    case Some(c) => c.exp.Some? && c.exp.value != 0 && c.exp.value * 1000 < nowMs
  }

  /** The session is discarded on rehydration when it holds a non-empty access token that
      cannot be decoded or has expired. */
  predicate DiscardedOnRehydrate(st: State, decode: string -> Option<Claims>, nowMs: int) {
    st.session.Some? && st.session.value.tokens.accessToken != "" &&
    TokenRejected(st.session.value.tokens.accessToken, decode, nowMs)
  }

  /** The state after start-up: the stored slice, if any, replaces the initial state, and the
      rehydration hook clears it when its token is rejected. */
  function AfterRehydrate(stored: Option<State>, decode: string -> Option<Claims>, nowMs: int): (r: State)
    ensures stored.None? ==> r == Initial
    ensures stored.Some? && DiscardedOnRehydrate(stored.value, decode, nowMs) ==> r == Initial
    ensures stored.Some? && !DiscardedOnRehydrate(stored.value, decode, nowMs) ==> r == stored.value
    ensures (stored.None? || Consistent(stored.value)) ==> Consistent(r)
  {
    var st := if stored.Some? then stored.value else Initial;
    if DiscardedOnRehydrate(st, decode, nowMs) then AfterClear(st) else st
  }

  /** The rehydration rule on concrete claims: which sessions survive start-up. */
  lemma RehydrateSurvivors(s: Session, decode: string -> Option<Claims>, nowMs: int)
    ensures s.tokens.accessToken == "" ==>
      AfterRehydrate(Some(State(Some(s), true)), decode, nowMs) == State(Some(s), true)
    ensures s.tokens.accessToken != "" && decode(s.tokens.accessToken) == Some(Claims(None)) ==>
      AfterRehydrate(Some(State(Some(s), true)), decode, nowMs) == State(Some(s), true)
    ensures s.tokens.accessToken != "" && decode(s.tokens.accessToken) == Some(Claims(Some(0))) ==>
      AfterRehydrate(Some(State(Some(s), true)), decode, nowMs) == State(Some(s), true)
    ensures s.tokens.accessToken != "" && decode(s.tokens.accessToken) == Some(Claims(Some(nowMs / 1000))) && nowMs % 1000 == 0 ==>
      AfterRehydrate(Some(State(Some(s), true)), decode, nowMs) == State(Some(s), true)
    ensures s.tokens.accessToken != "" && decode(s.tokens.accessToken).None? ==>
      AfterRehydrate(Some(State(Some(s), true)), decode, nowMs) == Initial
    ensures s.tokens.accessToken != "" && decode(s.tokens.accessToken) == Some(Claims(Some(nowMs / 1000 - 1))) && nowMs / 1000 - 1 != 0 ==>
      AfterRehydrate(Some(State(Some(s), true)), decode, nowMs) == Initial
  {
  }

  /** The operations a caller can perform on the store. */
  datatype Op =
    | SetSessionOp(s: Session)
    | UpdateUserOp(p: UserPatch)
    | ClearOp
    | LogoutOp
    | RehydrateOp(decode: string -> Option<Claims>, nowMs: int)

  function Step(st: State, op: Op): State {
    match op
    case SetSessionOp(s) => AfterSetSession(st, Some(s))
    case UpdateUserOp(p) => AfterUpdateUser(st, p)
    case ClearOp => AfterClear(st)
    case LogoutOp => AfterClear(st)
    case RehydrateOp(decode, nowMs) => AfterRehydrate(Some(st), decode, nowMs)
  }

  function Run(st: State, ops: seq<Op>): State
    decreases |ops|
  {
    if ops == [] then st else Run(Step(st, ops[0]), ops[1..])
  }

  /** `isLoggedIn <==> session != null` holds from the initial state through every sequence of
      operations in which `setSession` receives a session. */
  lemma {:induction false} InvariantAlongRuns(st: State, ops: seq<Op>)
    requires Consistent(st)
    ensures Consistent(Run(st, ops))
    decreases |ops|
  {
    if ops != [] {
      var next := Step(st, ops[0]);
      assert Consistent(next);
      InvariantAlongRuns(next, ops[1..]);
    }
  }

  /** `clear` and `logout` have one effect, and doing either twice is doing it once. */
  lemma ClearIdempotent(st: State)
    ensures Step(st, ClearOp) == Step(st, LogoutOp)
    ensures Step(Step(st, LogoutOp), LogoutOp) == Step(st, LogoutOp)
    ensures Step(Step(st, ClearOp), LogoutOp) == Step(st, ClearOp)
  {
  }

  /** What a handler asks of the rest of the application, in the order it asks it. */
  datatype Effect =
    | SetSessionEffect(s: Option<Session>)
    | LogoutEffect
    | Navigate(path: string)
    | Redirect(href: string)

  /** The store state after a trace of effects; navigation leaves the store alone. */
  function ApplyEffects(st: State, effects: seq<Effect>): State
    decreases |effects|
  {
    if effects == [] then st
    else
      var next := match effects[0]
        case SetSessionEffect(s) => AfterSetSession(st, s)
        case LogoutEffect => AfterClear(st)
        case Navigate(_) => st
        case Redirect(_) => st;
      ApplyEffects(next, effects[1..])
  }

  /** The store itself. `storage` is the browser's local storage; every action that calls
      `set()` writes the slice through to it under `StorageKey`. */
  class Store {
    var session: Option<Session>
    var isLoggedIn: bool
    var storage: map<string, State>

    function Current(): State
      reads this
    {
      State(session, isLoggedIn)
    }

    /** Creating the store: it starts from the initial state, reads the persisted slice back
        from `persisted` and runs the `onRehydrateStorage` hook, with `decode` standing for
        `jwtDecode` and `nowMs` for `Date.now()`. */
    constructor(persisted: map<string, State>, decode: string -> Option<Claims>, nowMs: int)
      ensures var stored := if StorageKey in persisted then Some(persisted[StorageKey]) else None;
        Current() == AfterRehydrate(stored, decode, nowMs) &&
        storage == if stored.Some? && DiscardedOnRehydrate(stored.value, decode, nowMs)
                   then persisted[StorageKey := Initial] else persisted
    {
      session := None;
      isLoggedIn := false;
      storage := persisted;
      new;
      if StorageKey in storage {
        var st := storage[StorageKey];
        session, isLoggedIn := st.session, st.isLoggedIn;
      }
      if session.Some? && session.value.tokens.accessToken != "" {
        var decoded := decode(session.value.tokens.accessToken);
        if decoded.None? {
          Clear();
        } else if decoded.value.exp.Some? && decoded.value.exp.value != 0 && decoded.value.exp.value * 1000 < nowMs {
          Clear();
        }
      }
    }

    method SetSession(s: Option<Session>)
      modifies this
      ensures Current() == AfterSetSession(old(Current()), s)
      ensures storage == old(storage)[StorageKey := Current()]
    {
      session, isLoggedIn := s, true;
      storage := storage[StorageKey := Current()];
    }

    method UpdateUser(p: UserPatch)
      modifies this
      ensures Current() == AfterUpdateUser(old(Current()), p)
      ensures storage == if old(session).Some? then old(storage)[StorageKey := Current()] else old(storage)
    {
      if session.Some? {
        var s := session.value;
        session := Some(s.(user := MergeUser(s.user, p)));
        storage := storage[StorageKey := Current()];
      }
    }

    method GetAccessToken() returns (t: Option<string>)
      ensures t == AccessToken(Current())
    {
      t := None;
      if session.Some? && session.value.tokens.accessToken != "" {
        t := Some(session.value.tokens.accessToken);
      }
    }

    method GetRefreshToken() returns (t: Option<string>)
      ensures t == RefreshToken(Current())
    {
      t := None;
      if session.Some? && session.value.tokens.refreshToken != "" {
        t := Some(session.value.tokens.refreshToken);
      }
    }

    method GetUser() returns (u: Option<User>)
      ensures u == UserOf(Current())
    {
      u := None;
      if session.Some? {
        u := Some(session.value.user);
      }
    }

    method Clear()
      modifies this
      ensures Current() == AfterClear(old(Current()))
      ensures storage == old(storage)[StorageKey := Initial]
    {
      session, isLoggedIn := None, false;
      storage := storage[StorageKey := Current()];
    }

    method Logout()
      modifies this
      ensures Current() == AfterClear(old(Current()))
      ensures storage == old(storage)[StorageKey := Initial]
    {
      session, isLoggedIn := None, false;
      storage := storage[StorageKey := Current()];
    }
  }
}
