/** The two login screens (src/views/common/Login.tsx, which lands on `/books`, and
    src/pages/auth/login.tsx, which lands on `/dashboard`). Both obfuscate the password as
    the registration screen does, post it, unwrap the session from
    `data.data?.session || data.session`, hand it to `setSession` without checking it and
    navigate; a failed response shows `error` or a default, anything thrown shows the
    connection error. */
module Login {
  import opened Common
  import Obfuscation
  import SessionStore

  const BooksPath: string := "/books"
  const DashboardPath: string := "/dashboard"

  const DefaultError: string := "Error al iniciar sesión"
  const ConnectionError: string := "Error de conexión. Inténtalo de nuevo."

  datatype FormValues = FormValues(email: string, password: CodeUnits)

  /** The JSON body posted to the login endpoint. */
  datatype LoginRequest = LoginRequest(email: string, password: string)

  /** How the request settles: the `fetch` rejects, or a response arrives whose `json()`
      yields `body` (`None` when it throws). */
  datatype Reply = NetworkFailure | Responded(ok: bool, body: Option<Js>)

  /** The screen's `error` text (`Null` when there is none), the request sent, and what was
      asked of the store and the router, in order. */
  datatype Submitted = Submitted(error: Js, request: Option<LoginRequest>, effects: seq<SessionStore.Effect>)

  /** `data.data?.session || data.session`; `None` is the TypeError of a `null` body. */
  function UnwrapSession(data: Js): (r: Option<Js>)
    ensures r.None? <==> data.Undefined? || data.Null?
    ensures r.Some? && Truthy(OptMember(Member(data, "data").value, "session")) ==>
      r.value == OptMember(Member(data, "data").value, "session")
    ensures r.Some? && !Truthy(OptMember(Member(data, "data").value, "session")) ==>
      r.value == Member(data, "session").value
  {
    match Member(data, "data")
    case None => None
    case Some(inner) =>
      match Member(data, "session")
      case None => None
      case Some(outer) => Some(Or(OptMember(inner, "session"), outer))
  }

  /** What the store receives from `setSession(session)`: nothing for `undefined` or `null`,
      otherwise the object read as a session (`readSession`, the typed view of the body). */
  function AsStored(v: Js, readSession: Js -> SessionStore.Session): Option<SessionStore.Session> {
    if v.Undefined? || v.Null? then None else Some(readSession(v))
  }

  /** The handling of the reply, once the request was sent. */
  function AfterReply(target: string, reply: Reply, readSession: Js -> SessionStore.Session): (r: Submitted)
    ensures r.request.None?
    ensures r.effects != [] ==> r.error == Null
  {
    match reply
    case NetworkFailure => Submitted(Str(ConnectionError), None, [])
    case Responded(ok, body) =>
      if body.None? then Submitted(Str(ConnectionError), None, [])
      else if ok then
        match UnwrapSession(body.value)
        case None => Submitted(Str(ConnectionError), None, [])
        case Some(session) =>
          Submitted(Null, None, [SessionStore.SetSessionEffect(AsStored(session, readSession)), SessionStore.Navigate(target)])
      else
        match Member(body.value, "error")
        case None => Submitted(Str(ConnectionError), None, [])
        case Some(e) => Submitted(Or(e, Str(DefaultError)), None, [])
  }

  /** `handleSubmit(values)` on the screen that lands on `target`, as written. */
  function Submit(target: string, values: FormValues, reply: Reply, readSession: Js -> SessionStore.Session): (r: Submitted)
    ensures r.request.Some? <==> Obfuscation.Btoa(Obfuscation.Xor(values.password)).Some?
    ensures r.request.Some? ==>
      r.request.value == LoginRequest(values.email, Obfuscation.Btoa(Obfuscation.Xor(values.password)).value)
    ensures r.effects == [] || (|r.effects| == 2 && r.effects[0].SetSessionEffect? && r.effects[1] == SessionStore.Navigate(target))
    ensures r.effects != [] <==> r.error == Null
  {
    match Obfuscation.Btoa(Obfuscation.Xor(values.password))
    case None => Submitted(Str(ConnectionError), None, [])
    case Some(encrypted) =>
      var handled := AfterReply(target, reply, readSession);
      Submitted(handled.error, Some(LoginRequest(values.email, encrypted)), handled.effects)
  }

  /** The session reaches the store from `data.data.session` when that is truthy and from
      `data.session` otherwise; the screen then navigates, after `setSession`. */
  lemma SessionUnwrapping(target: string, values: FormValues, inner: Js, outer: Js,
                          readSession: Js -> SessionStore.Session)
    requires Obfuscation.Btoa(Obfuscation.Xor(values.password)).Some?
    ensures var body := Obj([("data", Obj([("session", inner)])), ("session", outer)]);
      var r := Submit(target, values, Responded(true, Some(body)), readSession);
      r.effects == [SessionStore.SetSessionEffect(AsStored(if Truthy(inner) then inner else outer, readSession)),
                    SessionStore.Navigate(target)] &&
      r.error == Null
  {
    var innerObj := Obj([("session", inner)]);
    var body := Obj([("data", innerObj), ("session", outer)]);
    assert Lookup(body.fields, "data") == Some(innerObj);
    assert Lookup(body.fields, "session") == Some(outer);
    assert Lookup(innerObj.fields, "session") == Some(inner);
    assert UnwrapSession(body) == Some(if Truthy(inner) then inner else outer);
  }

  /** A failed response shows its `error` when truthy and the default otherwise; an
      unreadable body, a `null` body or a network failure shows the connection error; none of
      them touches the store or the route. */
  lemma FailureMessages(target: string, values: FormValues, e: Js, readSession: Js -> SessionStore.Session)
    requires Obfuscation.Btoa(Obfuscation.Xor(values.password)).Some?
    ensures Submit(target, values, Responded(false, Some(Obj([("error", e)]))), readSession).error ==
      if Truthy(e) then e else Str(DefaultError)
    ensures Submit(target, values, Responded(false, Some(Obj([]))), readSession).error == Str(DefaultError)
    ensures Submit(target, values, Responded(false, Some(Null)), readSession).error == Str(ConnectionError)
    ensures Submit(target, values, Responded(true, None), readSession).error == Str(ConnectionError)
    ensures Submit(target, values, NetworkFailure, readSession).error == Str(ConnectionError)
  {
  }

  /** A password `btoa` rejects never leaves the screen: the connection error, no request. */
  lemma WideCharacterShowsConnectionError(target: string, values: FormValues, reply: Reply,
                                          readSession: Js -> SessionStore.Session, i: int)
    requires 0 <= i < |values.password| && values.password[i] > 0xFF
    ensures Submit(target, values, reply, readSession) == Submitted(Str(ConnectionError), None, [])
  {
    Obfuscation.XorKeepsWideUnits(values.password, i);
  }

  /** As written, an ok response carrying neither `data.session` nor `session` logs the store
      in without a session: `isLoggedIn` is true and `session` is empty. */
  lemma MissingSessionBreaksInvariant(target: string, values: FormValues, readSession: Js -> SessionStore.Session)
    requires Obfuscation.Btoa(Obfuscation.Xor(values.password)).Some?
    ensures var r := Submit(target, values, Responded(true, Some(Obj([]))), readSession);
      var after := SessionStore.ApplyEffects(SessionStore.Initial, r.effects);
      after.isLoggedIn && after.session.None? && !SessionStore.Consistent(after)
  {
    var r := Submit(target, values, Responded(true, Some(Obj([]))), readSession);
    assert r.effects == [SessionStore.SetSessionEffect(None), SessionStore.Navigate(target)];
    var st1 := SessionStore.AfterSetSession(SessionStore.Initial, None);
    assert SessionStore.ApplyEffects(SessionStore.Initial, r.effects) == SessionStore.ApplyEffects(st1, r.effects[1..]);
    assert SessionStore.ApplyEffects(st1, r.effects[1..]) == SessionStore.ApplyEffects(st1, []);
  }

  /** The evidently intended handling: an ok response without a session is reported as a
      failed login and neither `setSession` nor the navigation happens. */
  function SubmitChecked(target: string, values: FormValues, reply: Reply, readSession: Js -> SessionStore.Session): (r: Submitted)
    ensures r.request == Submit(target, values, reply, readSession).request
    ensures forall i :: 0 <= i < |r.effects| && r.effects[i].SetSessionEffect? ==> r.effects[i].s.Some?
  {
    var r := Submit(target, values, reply, readSession);
    if r.effects != [] && r.effects[0].SetSessionEffect? && r.effects[0].s.None? then
      Submitted(Str(DefaultError), r.request, [])
    else r
  }

  /** With the check, every login keeps the store's invariant, from any consistent state. */
  lemma CheckedKeepsInvariant(st: SessionStore.State, target: string, values: FormValues, reply: Reply,
                              readSession: Js -> SessionStore.Session)
    requires SessionStore.Consistent(st)
    ensures SessionStore.Consistent(SessionStore.ApplyEffects(st, SubmitChecked(target, values, reply, readSession).effects))
  {
    var effects := SubmitChecked(target, values, reply, readSession).effects;
    if effects != [] {
      var st1 := SessionStore.AfterSetSession(st, effects[0].s);
      assert SessionStore.ApplyEffects(st, effects) == SessionStore.ApplyEffects(st1, effects[1..]);
      assert SessionStore.ApplyEffects(st1, effects[1..]) == SessionStore.ApplyEffects(st1, []);
    }
  }

  /** A login screen's state. */
  class LoginForm {
    const target: string
    var error: Js
    var isLoading: bool

    /** The screen at src/views/common/Login.tsx lands on `/books`, the one at
        src/pages/auth/login.tsx on `/dashboard`. */
    constructor(target0: string)
      requires target0 == BooksPath || target0 == DashboardPath
      ensures target == target0 && error == Null && !isLoading
    {
      target := target0;
      error := Null;
      isLoading := false;
    }

    /** `handleSubmit(values)`: the store receives the unwrapped session and the router the
        target path, in that order, exactly as `Submit` says. */
    method HandleSubmit(store: SessionStore.Store, values: FormValues, reply: Reply,
                        readSession: Js -> SessionStore.Session)
      returns (request: Option<LoginRequest>, navigatedTo: Option<string>)
      modifies this, store
      ensures var r := Submit(target, values, reply, readSession);
        error == r.error && request == r.request &&
        store.Current() == SessionStore.ApplyEffects(old(store.Current()), r.effects) &&
        store.storage == (if r.effects == [] then old(store.storage)
                          else old(store.storage)[SessionStore.StorageKey := store.Current()]) &&
        navigatedTo == (if r.effects == [] then None else Some(target))
      ensures !isLoading
    {
      isLoading := true;
      error := Null;
      request, navigatedTo := None, None;
      var encrypted := Obfuscation.EncryptPassword(values.password);
      if encrypted.Some? {
        request := Some(LoginRequest(values.email, encrypted.value));
        var handled := AfterReply(target, reply, readSession);
        if handled.effects != [] {
          var setting := handled.effects[0];
          store.SetSession(setting.s);
          navigatedTo := Some(target);
          assert SessionStore.ApplyEffects(old(store.Current()), handled.effects) ==
            SessionStore.ApplyEffects(store.Current(), handled.effects[1..]);
          assert SessionStore.ApplyEffects(store.Current(), handled.effects[1..]) ==
            SessionStore.ApplyEffects(store.Current(), []);
        }
        error := handled.error;
      } else {
        error := Str(ConnectionError);
      }
      isLoading := false;
    }
  }
}
