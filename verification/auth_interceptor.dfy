/** The global fetch interceptor (src/utils/authInterceptor.ts). The module captures the
    browser's `window.fetch` when it is loaded; `setupAuthInterceptor` binds `window.fetch` to
    a wrapper around that captured function, and `teardownAuthInterceptor` binds the captured
    function back. The wrapper hands every outcome to its caller unchanged and, on a response
    that is not ok with status 498, logs the store out and sends the browser to `/login`. */
module AuthInterceptor {
  import opened Common
  import SessionStore

  /** The status the backend uses for "session no longer valid". */
  const SessionInvalidStatus: int := 498

  const LoginPath: string := "/login"

  /** A `Response` object; `id` stands for its identity. */
  datatype Response = Response(id: nat, ok: bool, status: int)

  /** What a call of a fetch function settles to: a response, or a rejection with an error. */
  datatype FetchOutcome = Resolved(response: Response) | Rejected(error: string)

  /** The rule of the wrapper: `!response.ok && response.status === 498`. */
  predicate ForcesLogout(o: FetchOutcome) {
    o.Resolved? && !o.response.ok && o.response.status == SessionInvalidStatus
  }

  /** What a fetch binding is: the browser's own function, or the wrapper around the function
      that was captured when the module was loaded. */
  datatype FetchImpl = Native | Intercepting(inner: FetchImpl)

  function Depth(f: FetchImpl): nat {
    match f
    case Native => 0
    case Intercepting(inner) => Depth(inner) + 1
  }

  /** Calling the binding `f` for a request whose network outcome is `outcome`: what the
      caller gets, and the effects performed, in order. */
  function Call(f: FetchImpl, outcome: FetchOutcome): (r: (FetchOutcome, seq<SessionStore.Effect>))
    ensures r.0 == outcome
    ensures !ForcesLogout(outcome) ==> r.1 == []
    ensures ForcesLogout(outcome) ==>
      |r.1| == 2 * Depth(f) &&
      forall i :: 0 <= i < |r.1| ==>
        r.1[i] == if i % 2 == 0 then SessionStore.LogoutEffect else SessionStore.Redirect(LoginPath)
  {
    match f
    case Native => (outcome, [])
    case Intercepting(inner) =>
      var (o, effects) := Call(inner, outcome);
      if ForcesLogout(o) then
        LogoutPairExtends(effects);
        (o, effects + [SessionStore.LogoutEffect, SessionStore.Redirect(LoginPath)])
      else (o, effects)
  }

  /** One more logout and redirect keep the effects alternating between the two. */
  lemma LogoutPairExtends(effects: seq<SessionStore.Effect>)
    requires |effects| % 2 == 0
    requires forall i :: 0 <= i < |effects| ==>
      effects[i] == if i % 2 == 0 then SessionStore.LogoutEffect else SessionStore.Redirect(LoginPath)
    ensures var e := effects + [SessionStore.LogoutEffect, SessionStore.Redirect(LoginPath)];
      forall i :: 0 <= i < |e| ==> e[i] == if i % 2 == 0 then SessionStore.LogoutEffect else SessionStore.Redirect(LoginPath)
  {
    var e := effects + [SessionStore.LogoutEffect, SessionStore.Redirect(LoginPath)];
    var n := |effects|;
    assert n % 2 == 0 && (n + 1) % 2 == 1;
    forall i | 0 <= i < |e|
      ensures e[i] == if i % 2 == 0 then SessionStore.LogoutEffect else SessionStore.Redirect(LoginPath)
    {
      if i < n {
        assert e[i] == effects[i];
      }
    }
  }

  /** The interceptor reacts to 498 only: for the statuses 200, 401 and 500 and for network
      errors the installed wrapper is a pure pass-through; for a failed 498 it logs out and
      redirects, once. In every case the caller receives the very same outcome. */
  lemma ReactsExactlyOnSentinel(id: nat, status: int, ok: bool, error: string)
    ensures Call(Intercepting(Native), Rejected(error)) == (Rejected(error), [])
    ensures status in {200, 401, 500} ==>
      Call(Intercepting(Native), Resolved(Response(id, ok, status))) == (Resolved(Response(id, ok, status)), [])
    ensures Call(Intercepting(Native), Resolved(Response(id, true, 498))) == (Resolved(Response(id, true, 498)), [])
    ensures Call(Intercepting(Native), Resolved(Response(id, false, 498))) ==
      (Resolved(Response(id, false, 498)), [SessionStore.LogoutEffect, SessionStore.Redirect(LoginPath)])
  {
    var o := Resolved(Response(id, false, 498));
    var r := Call(Intercepting(Native), o);
    assert |r.1| == 2;
    assert r.1[0] == SessionStore.LogoutEffect && r.1[1] == SessionStore.Redirect(LoginPath);
    assert r.1 == [SessionStore.LogoutEffect, SessionStore.Redirect(LoginPath)];
  }

  datatype InstallOp = SetupOp | TeardownOp

  /** `window.fetch` after a sequence of installs and teardowns, `original` being the function
      captured at module load. */
  function AfterInstalls(current: FetchImpl, original: FetchImpl, ops: seq<InstallOp>): FetchImpl
    decreases |ops|
  {
    if ops == [] then current
    else
      var next := match ops[0] case SetupOp => Intercepting(original) case TeardownOp => original;
      AfterInstalls(next, original, ops[1..])
  }

  /** Installing any number of times never stacks wrappers: after any sequence of setups and
      teardowns from the browser's fetch, the binding is the browser's fetch or one wrapper
      around it, and the last operation decides which. */
  lemma {:induction false} InstallsNeverStack(current: FetchImpl, ops: seq<InstallOp>)
    requires current == Native || current == Intercepting(Native)
    ensures var f := AfterInstalls(current, Native, ops);
      (f == Native || f == Intercepting(Native)) &&
      (ops != [] ==> (f == Intercepting(Native) <==> ops[|ops| - 1] == SetupOp))
    decreases |ops|
  {
    if ops != [] {
      var next := match ops[0] case SetupOp => Intercepting(Native) case TeardownOp => Native;
      InstallsNeverStack(next, ops[1..]);
      if |ops| == 1 {
        assert AfterInstalls(next, Native, ops[1..]) == next;
      } else {
        assert ops[1..][|ops[1..]| - 1] == ops[|ops| - 1];
      }
    }
  }

  /** So, however often it was installed, one 498 response logs out at most once, and exactly
      once while the interceptor is installed. */
  lemma {:induction false} OneLogoutPerResponse(ops: seq<InstallOp>, outcome: FetchOutcome)
    requires ForcesLogout(outcome)
    ensures var effects := Call(AfterInstalls(Native, Native, ops), outcome).1;
      |effects| <= 2 &&
      (ops != [] && ops[|ops| - 1] == SetupOp ==> effects == [SessionStore.LogoutEffect, SessionStore.Redirect(LoginPath)])
  {
    InstallsNeverStack(Native, ops);
    var f := AfterInstalls(Native, Native, ops);
    if f == Intercepting(Native) {
      var effects := Call(f, outcome).1;
      assert |effects| == 2;
      assert effects[0] == SessionStore.LogoutEffect && effects[1] == SessionStore.Redirect(LoginPath);
    }
  }

  /** Every 498 response triggers logout again; since logout is idempotent, two in a row leave
      the same logged-out state as one. */
  lemma RepeatedLogoutSettles(st: SessionStore.State, outcome: FetchOutcome)
    requires ForcesLogout(outcome)
    ensures var effects := Call(Intercepting(Native), outcome).1;
      SessionStore.ApplyEffects(SessionStore.ApplyEffects(st, effects), effects) == SessionStore.ApplyEffects(st, effects) &&
      SessionStore.ApplyEffects(st, effects) == SessionStore.Initial
  {
    var effects := Call(Intercepting(Native), outcome).1;
    assert effects == [SessionStore.LogoutEffect, SessionStore.Redirect(LoginPath)] by {
      assert |effects| == 2;
    }
    assert SessionStore.ApplyEffects(st, effects) == SessionStore.ApplyEffects(SessionStore.Initial, effects[1..]);
    assert SessionStore.ApplyEffects(SessionStore.Initial, effects[1..]) == SessionStore.ApplyEffects(SessionStore.Initial, []);
    var once := SessionStore.ApplyEffects(st, effects);
    assert SessionStore.ApplyEffects(once, effects) == SessionStore.ApplyEffects(SessionStore.Initial, effects[1..]);
  }

  /** The end-to-end scenario: a stored session's access token is readable; after a 498
      response through the installed interceptor, no user is readable and the store is
      logged out. */
  lemma SessionEndsOnSentinel(s: SessionStore.Session, id: nat)
    requires s.tokens.accessToken != ""
    ensures var st := SessionStore.AfterSetSession(SessionStore.Initial, Some(s));
      SessionStore.AccessToken(st) == Some(s.tokens.accessToken) &&
      var effects := Call(Intercepting(Native), Resolved(Response(id, false, 498))).1;
      var after := SessionStore.ApplyEffects(st, effects);
      SessionStore.UserOf(after).None? && !after.isLoggedIn
  {
    var effects := Call(Intercepting(Native), Resolved(Response(id, false, 498))).1;
    assert effects == [SessionStore.LogoutEffect, SessionStore.Redirect(LoginPath)] by {
      assert |effects| == 2;
    }
    var st := SessionStore.AfterSetSession(SessionStore.Initial, Some(s));
    assert SessionStore.ApplyEffects(st, effects) == SessionStore.ApplyEffects(SessionStore.Initial, effects[1..]);
    assert SessionStore.ApplyEffects(SessionStore.Initial, effects[1..]) == SessionStore.ApplyEffects(SessionStore.Initial, []);
  }

  /** The browser window: what `window.fetch` is bound to and the location. */
  class Window {
    var fetch: FetchImpl
    var href: string

    constructor(href0: string)
      ensures fetch == Native && href == href0
    {
      fetch := Native;
      href := href0;
    }
  }

  /** The loaded module: the window it patches and the fetch it captured on load. */
  class Interceptor {
    const window: Window
    const originalFetch: FetchImpl

    constructor(w: Window)
      ensures window == w && originalFetch == w.fetch
    {
      window := w;
      originalFetch := w.fetch;
    }

    /** `setupAuthInterceptor()`: always the wrapper around the captured function, never
        around whatever `window.fetch` is bound to now. */
    method Setup()
      modifies window
      ensures window.fetch == Intercepting(originalFetch)
      ensures window.href == old(window.href)
    {
      window.fetch := Intercepting(originalFetch);
    }

    /** `teardownAuthInterceptor()`: the captured function is bound back. */
    method Teardown()
      modifies window
      ensures window.fetch == originalFetch
      ensures window.href == old(window.href)
    {
      window.fetch := originalFetch;
    }

    /** One call of `interceptedFetch` whose call of the captured function settles to
        `outcome`: the outcome is returned (or re-thrown) unchanged, and on a failed 498 the
        store is logged out and the browser sent to the login page. */
    method InterceptedFetch(store: SessionStore.Store, outcome: FetchOutcome) returns (r: FetchOutcome)
      modifies store, window
      ensures r == outcome
      ensures ForcesLogout(outcome) ==>
        store.Current() == SessionStore.AfterClear(old(store.Current())) &&
        store.storage == old(store.storage)[SessionStore.StorageKey := SessionStore.Initial] &&
        window.href == LoginPath
      ensures !ForcesLogout(outcome) ==>
        store.Current() == old(store.Current()) && store.storage == old(store.storage) &&
        window.href == old(window.href)
      ensures window.fetch == old(window.fetch)
    {
      r := outcome;
      if outcome.Resolved? {
        var response := outcome.response;
        if !response.ok && response.status == SessionInvalidStatus {
          store.Logout();
          window.href := LoginPath;
        }
      }
    }
  }
}
