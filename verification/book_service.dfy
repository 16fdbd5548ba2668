/** The catalogue's REST client (src/services/bookService.ts): the headers every request
    carries, the merge of a caller's request options over the defaults, the shared response
    handler with its forced logout on status 498, the search body of `getBooks`, the price
    conversion of `createBook`, the unwrapping of the server's `{ data }` envelope, and the
    error path of `deleteBook`, which does not go through the shared handler. */
module BookService {
  import opened Common
  import SessionStore
  import AuthInterceptor
  import BookSorting

  type Headers = seq<(string, string)>

  /** A request's options (`RequestInit`) as a plain object. */
  type Options = seq<(string, Js)>

  const SessionExpiredMessage: string := "Sesión expirada. Por favor, inicia sesión nuevamente."

  /** `HTTP error! status: ${status}`. */
  function HttpErrorMessage(status: int): string {
    "HTTP error! status: " + IntToString(status)
  }

  /** `getAuthHeaders()` for the access token the store hands out. */
  function AuthHeaders(token: Option<string>): Headers {
    if token.Some? && token.value != "" then Assign(JsonHeaders, "Authorization", "Bearer " + token.value)
    else JsonHeaders
  }

  /** The headers every request carries. */
  const JsonHeaders: Headers := [("Content-Type", "application/json"), ("Accept", "application/json")]

  lemma JsonHeadersShape()
    ensures Lookup(JsonHeaders, "Content-Type") == Some("application/json")
    ensures Lookup(JsonHeaders, "Accept") == Some("application/json")
    ensures Lookup(JsonHeaders, "Authorization").None?
    ensures Keys(JsonHeaders) == ["Content-Type", "Accept"]
  {
    var ct, ac := ("Content-Type", "application/json"), ("Accept", "application/json");
    assert JsonHeaders == [ct] + [ac];
    LookupCons(ct, [ac], "Content-Type");
    LookupCons(ct, [ac], "Accept");
    LookupCons(ac, [], "Accept");
    LookupCons(ct, [ac], "Authorization");
    LookupCons(ac, [], "Authorization");
    KeysCons(ct, [ac]);
    KeysCons(ac, []);
  }

  /** JSON content type and accept always; `Authorization: Bearer <token>` exactly when the
      token is a non-empty text, and then as the last header. */
  lemma HeadersShape(token: Option<string>)
    ensures Lookup(AuthHeaders(token), "Content-Type") == Some("application/json")
    ensures Lookup(AuthHeaders(token), "Accept") == Some("application/json")
    ensures Lookup(AuthHeaders(token), "Authorization").Some? <==> token.Some? && token.value != ""
    ensures Lookup(AuthHeaders(token), "Authorization").Some? ==>
      Lookup(AuthHeaders(token), "Authorization") == Some("Bearer " + token.value)
    ensures token.Some? && token.value != "" ==> Keys(AuthHeaders(token)) == ["Content-Type", "Accept", "Authorization"]
  {
    AuthHeaderLookup(token, "Content-Type");
    AuthHeaderLookup(token, "Accept");
    AuthHeaderLookup(token, "Authorization");
    AuthHeaderKeys(token);
  }

  /** One lookup in the headers. */
  lemma AuthHeaderLookup(token: Option<string>, k: string)
    ensures Lookup(AuthHeaders(token), k) ==
      if k == "Content-Type" || k == "Accept" then Some("application/json")
      else if k == "Authorization" && token.Some? && token.value != "" then Some("Bearer " + token.value)
      else Lookup(JsonHeaders, k)
  {
    JsonHeadersShape();
  }

  /** The header names, in order. */
  lemma AuthHeaderKeys(token: Option<string>)
    ensures token.Some? && token.value != "" ==> Keys(AuthHeaders(token)) == ["Content-Type", "Accept", "Authorization"]
  {
    JsonHeadersShape();
  }

  /** `getAuthHeaders()`, building the headers object step by step from the store's token. */
  method GetAuthHeaders(store: SessionStore.Store) returns (headers: Headers)
    ensures headers == AuthHeaders(SessionStore.AccessToken(store.Current()))
  {
    var token := store.GetAccessToken();
    headers := [("Content-Type", "application/json"), ("Accept", "application/json")];
    if token.Some? && token.value != "" {
      headers := Assign(headers, "Authorization", "Bearer " + token.value);
    }
  }

  /** The headers as a JavaScript object. */
  function HeadersObject(h: Headers): (r: seq<(string, Js)>)
    ensures |r| == |h| && forall i :: 0 <= i < |h| ==> r[i] == (h[i].0, Str(h[i].1))
  {
    if h == [] then [] else [(h[0].0, Str(h[0].1))] + HeadersObject(h[1..])
  }

  /** `defaultOptions` in `makeRequest`: CORS mode, credentials included, the auth headers. */
  function Defaults(headers: Headers): Options {
    [("mode", Str("cors")), ("credentials", Str("include")), ("headers", Obj(HeadersObject(headers)))]
  }

  lemma DefaultsShape(headers: Headers)
    ensures Lookup(Defaults(headers), "mode") == Some(Str("cors"))
    ensures Lookup(Defaults(headers), "credentials") == Some(Str("include"))
    ensures Lookup(Defaults(headers), "headers") == Some(Obj(HeadersObject(headers)))
  {
    var h := Obj(HeadersObject(headers));
    var d := Defaults(headers);
    assert "mode" != "credentials" && "mode" != "headers" && "credentials" != "headers";
    assert Lookup([("headers", h)], "headers") == Some(h);
    assert Lookup([("credentials", Str("include")), ("headers", h)], "headers") == Some(h);
    assert Lookup(d, "headers") == Some(h);
  }

  /** `{ ...defaultOptions, ...options }` in `makeRequest`. */
  function RequestInit(headers: Headers, options: Options): Options {
    Spread(Defaults(headers), options)
  }

  /** An option the caller gives wins, wholesale (`headers` too); the others are the
      defaults: CORS mode, credentials included, the auth headers. */
  lemma CallerOptionsWin(headers: Headers, options: Options, k: string)
    requires UniqueKeys(options)
    ensures Lookup(options, k).Some? ==> Lookup(RequestInit(headers, options), k) == Lookup(options, k)
    ensures Lookup(options, "mode").None? ==> Lookup(RequestInit(headers, options), "mode") == Some(Str("cors"))
    ensures Lookup(options, "credentials").None? ==>
      Lookup(RequestInit(headers, options), "credentials") == Some(Str("include"))
    ensures Lookup(options, "headers").None? ==>
      Lookup(RequestInit(headers, options), "headers") == Some(Obj(HeadersObject(headers)))
  {
    var defaults := Defaults(headers);
    DefaultsShape(headers);
    SpreadLookup(defaults, options, k);
    SpreadLookup(defaults, options, "mode");
    SpreadLookup(defaults, options, "credentials");
    SpreadLookup(defaults, options, "headers");
  }

  /** A response as the handler sees it: `ok`, `status`, and what `response.json()` yields
      (`None` when it rejects). */
  datatype Reply = Reply(ok: bool, status: int, body: Option<Js>)

  /** How a call settles: with a value, or by throwing an `Error` with a message (`None` for
      an error the engine raises, a `TypeError` or a JSON `SyntaxError`). */
  datatype Outcome = Returned(data: Js) | Thrown(message: Option<string>)

  /** The outcome, and what was asked of the store and of `window.location`, in order. */
  datatype Handled = Handled(outcome: Outcome, effects: seq<SessionStore.Effect>)

  /** The error of a failed response that is not a 498: `errorData.message` when truthy,
      else the HTTP error text, where `errorData` is the body or `{}` when it is unreadable. */
  function FailureError(reply: Reply): Outcome {
    var errorData := if reply.body.Some? then reply.body.value else Obj([]);
    match Member(errorData, "message")
    case None => Thrown(None)
    case Some(m) => Thrown(Some(ToText(Or(m, Str(HttpErrorMessage(reply.status))))))
  }

  /** `handleResponse(response)`. */
  function HandleResponse(reply: Reply): Handled {
    if !reply.ok then
      if reply.status == AuthInterceptor.SessionInvalidStatus then
        Handled(Thrown(Some(SessionExpiredMessage)), [SessionStore.LogoutEffect, SessionStore.Redirect(AuthInterceptor.LoginPath)])
      else Handled(FailureError(reply), [])
    else
      Handled(if reply.body.Some? then Returned(reply.body.value) else Thrown(None), [])
  }

  /** The handler reacts on exactly the responses the global fetch wrapper reacts on, with
      the same logout and redirect; unlike the wrapper, it throws the session-expired error
      instead of handing the response on, and the store ends logged out. */
  lemma SameTriggerAsInterceptor(st: SessionStore.State, id: nat, reply: Reply)
    ensures var wrapped := AuthInterceptor.Call(AuthInterceptor.Intercepting(AuthInterceptor.Native),
                                                AuthInterceptor.Resolved(AuthInterceptor.Response(id, reply.ok, reply.status)));
      HandleResponse(reply).effects == wrapped.1
    ensures HandleResponse(reply).effects != [] <==> !reply.ok && reply.status == 498
    ensures HandleResponse(reply).effects != [] ==>
      HandleResponse(reply).outcome == Thrown(Some(SessionExpiredMessage)) &&
      SessionStore.ApplyEffects(st, HandleResponse(reply).effects) == SessionStore.AfterClear(st)
  {
    var effects := HandleResponse(reply).effects;
    if effects != [] {
      var st1 := SessionStore.AfterClear(st);
      assert SessionStore.ApplyEffects(st, effects) == SessionStore.ApplyEffects(st1, effects[1..]);
      assert SessionStore.ApplyEffects(st1, effects[1..]) == SessionStore.ApplyEffects(st1, []);
    }
  }

  /** Any other failure throws the body's `message`, or the HTTP error text when the body has
      none or cannot be read; a success returns the body. */
  lemma FailureMessages(status: int, m: string, body: Js)
    requires status != 498
    ensures HandleResponse(Reply(false, status, Some(Obj([("message", Str(m))])))).outcome ==
      Thrown(Some(if m != "" then m else HttpErrorMessage(status)))
    ensures HandleResponse(Reply(false, status, Some(Obj([])))).outcome == Thrown(Some(HttpErrorMessage(status)))
    ensures HandleResponse(Reply(false, status, None)).outcome == Thrown(Some(HttpErrorMessage(status)))
    ensures HandleResponse(Reply(false, status, Some(body))).effects == []
    ensures HandleResponse(Reply(true, status, Some(body))) == Handled(Returned(body), [])
  {
    assert Lookup([("message", Str(m))], "message") == Some(Str(m));
  }

  /** The two error messages the service's own tests expect. */
  lemma ServerMessagesSurface()
    ensures HandleResponse(Reply(false, 500, Some(Obj([("message", Str("Internal Server Error"))])))).outcome ==
      Thrown(Some("Internal Server Error"))
    ensures HandleResponse(Reply(false, 404, Some(Obj([("message", Str("Book not found"))])))).outcome ==
      Thrown(Some("Book not found"))
  {
    FailureMessages(500, "Internal Server Error", Null);
    FailureMessages(404, "Book not found", Null);
  }

  /** `handleResponse` acting on the store and the window. */
  method HandleResponseOn(store: SessionStore.Store, window: AuthInterceptor.Window, reply: Reply)
    returns (outcome: Outcome)
    modifies store, window
    ensures outcome == HandleResponse(reply).outcome
    ensures store.Current() == SessionStore.ApplyEffects(old(store.Current()), HandleResponse(reply).effects)
    ensures HandleResponse(reply).effects != [] ==>
      store.storage == old(store.storage)[SessionStore.StorageKey := SessionStore.Initial] &&
      window.href == AuthInterceptor.LoginPath
    ensures HandleResponse(reply).effects == [] ==>
      store.storage == old(store.storage) && window.href == old(window.href)
    ensures window.fetch == old(window.fetch)
  {
    SameTriggerAsInterceptor(store.Current(), 0, reply);
    if !reply.ok {
      if reply.status == AuthInterceptor.SessionInvalidStatus {
        store.Logout();
        window.href := AuthInterceptor.LoginPath;
        return Thrown(Some(SessionExpiredMessage));
      }
      return FailureError(reply);
    }
    outcome := if reply.body.Some? then Returned(reply.body.value) else Thrown(None);
  }

  /** `deleteBook(id)`: its own error path, with no 498 case, and nothing returned. */
  function DeleteBook(reply: Reply): Handled {
    if !reply.ok then Handled(FailureError(reply), []) else Handled(Returned(Undefined), [])
  }

  /** A 498 on delete is an ordinary HTTP error: no logout, no redirect. */
  lemma DeleteIgnoresSentinel(body: Option<Js>)
    ensures DeleteBook(Reply(false, 498, body)).effects == []
    ensures body.None? || body == Some(Obj([])) ==>
      DeleteBook(Reply(false, 498, body)).outcome == Thrown(Some("HTTP error! status: 498"))
    ensures HandleResponse(Reply(false, 498, body)).effects != []
  {
    assert 498 / 10 == 49 && 498 % 10 == 8 && 49 / 10 == 4 && 49 % 10 == 9;
    assert NatToString(4) == "4";
    assert NatToString(49) == "49";
    assert NatToString(498) == "498";
    assert HttpErrorMessage(498) == "HTTP error! status: 498";
    assert Member(Obj([]), "message") == Some(Undefined);
  }

  function DirectionText(d: BookSorting.Direction): string {
    match d
    case Asc => "asc"
    case Desc => "desc"
  }

  /** The default sort and page of `getBooks`. */
  const DefaultSort: BookSorting.Sort := BookSorting.Sort("title", BookSorting.Asc)
  const DefaultPage: int := 1
  const DefaultLimit: int := 10

  /** The four entries `getBooks` writes after the filters, in order. */
  function Paging(sort: BookSorting.Sort, page: int, limit: int): Options {
    [("sortBy", Str(sort.field)), ("sortDir", Str(DirectionText(sort.direction))), ("page", Num(page)), ("limit", Num(limit))]
  }

  /** The four entries have distinct keys, in this order. */
  lemma PagingShape(sort: BookSorting.Sort, page: int, limit: int)
    ensures var t := Paging(sort, page, limit);
      UniqueKeys(t) && Keys(t) == ["sortBy", "sortDir", "page", "limit"] &&
      Lookup(t, "sortBy") == Some(Str(sort.field)) &&
      Lookup(t, "sortDir") == Some(Str(DirectionText(sort.direction))) &&
      Lookup(t, "page") == Some(Num(page)) && Lookup(t, "limit") == Some(Num(limit))
  {
    var t := Paging(sort, page, limit);
    assert "sortBy" != "sortDir" && "sortBy" != "page" && "sortBy" != "limit";
    assert "sortDir" != "page" && "sortDir" != "limit" && "page" != "limit";
    assert Keys(t)[0] == "sortBy" && Keys(t)[1] == "sortDir" && Keys(t)[2] == "page" && Keys(t)[3] == "limit";
    LookupAt(t, 0);
    LookupAt(t, 1);
    LookupAt(t, 2);
    LookupAt(t, 3);
  }

  /** The four entries have four different keys. */
  lemma PagingUnique(sort: BookSorting.Sort, page: int, limit: int)
    ensures UniqueKeys(Paging(sort, page, limit))
  {
    assert "sortBy" != "sortDir" && "sortBy" != "page" && "sortBy" != "limit";
    assert "sortDir" != "page" && "sortDir" != "limit" && "page" != "limit";
  }

  /** What each key looks up in the four entries. */
  lemma PagingLookup(sort: BookSorting.Sort, page: int, limit: int, k: string)
    ensures Lookup(Paging(sort, page, limit), k) ==
      if k == "sortBy" then Some(Str(sort.field))
      else if k == "sortDir" then Some(Str(DirectionText(sort.direction)))
      else if k == "page" then Some(Num(page))
      else if k == "limit" then Some(Num(limit))
      else None
  {
    var t := Paging(sort, page, limit);
    assert t == [t[0]] + ([t[1]] + ([t[2]] + [t[3]]));
    LookupCons(t[0], [t[1]] + ([t[2]] + [t[3]]), k);
    LookupCons(t[1], [t[2]] + [t[3]], k);
    LookupCons(t[2], [t[3]], k);
    LookupCons(t[3], [], k);
  }

  /** `{ ...filters, sortBy, sortDir, page, limit }`. */
  function SearchQuery(filters: Options, sort: BookSorting.Sort, page: int, limit: int): Options {
    Spread(filters, Paging(sort, page, limit))
  }

  /** The body `getBooks` posts: `{ query }`. */
  function SearchBody(filters: Options, sort: BookSorting.Sort, page: int, limit: int): Js {
    Obj([("query", Obj(SearchQuery(filters, sort, page, limit)))])
  }

  /** The query carries the sort and the page, which win over filters of the same name. */
  lemma QueryCarriesPaging(filters: Options, sort: BookSorting.Sort, page: int, limit: int)
    ensures var q := SearchQuery(filters, sort, page, limit);
      Lookup(q, "sortBy") == Some(Str(sort.field)) &&
      Lookup(q, "sortDir") == Some(Str(DirectionText(sort.direction))) &&
      Lookup(q, "page") == Some(Num(page)) && Lookup(q, "limit") == Some(Num(limit))
  {
    var t := Paging(sort, page, limit);
    PagingShape(sort, page, limit);
    SpreadLookup(filters, t, "sortBy");
    SpreadLookup(filters, t, "sortDir");
    SpreadLookup(filters, t, "page");
    SpreadLookup(filters, t, "limit");
  }

  /** Every filter of another name is kept. */
  lemma QueryKeepsFilters(filters: Options, sort: BookSorting.Sort, page: int, limit: int, k: string)
    requires k != "sortBy" && k != "sortDir" && k != "page" && k != "limit"
    ensures Lookup(SearchQuery(filters, sort, page, limit), k) == Lookup(filters, k)
  {
    var t := Paging(sort, page, limit);
    PagingLookup(sort, page, limit, k);
    SpreadLookup(filters, t, k);
  }

  /** Without filters of those names, the four come after the filters, in order. */
  lemma QueryAppendsPaging(filters: Options, sort: BookSorting.Sort, page: int, limit: int)
    requires Lookup(filters, "sortBy").None? && Lookup(filters, "sortDir").None?
    requires Lookup(filters, "page").None? && Lookup(filters, "limit").None?
    ensures SearchQuery(filters, sort, page, limit) == filters + Paging(sort, page, limit)
  {
    var t := Paging(sort, page, limit);
    PagingUnique(sort, page, limit);
    forall j | 0 <= j < |t|
      ensures Lookup(filters, t[j].0).None?
    {
      if j == 0 {} else if j == 1 {} else if j == 2 {} else {}
    }
    DisjointWhenAbsent(filters, t);
    SpreadAppends(filters, t);
  }

  /** With every default, the query is title ascending, page 1 of 10. */
  lemma DefaultSearch()
    ensures SearchQuery([], DefaultSort, DefaultPage, DefaultLimit) ==
      [("sortBy", Str("title")), ("sortDir", Str("asc")), ("page", Num(1)), ("limit", Num(10))]
  {
    PagingShape(DefaultSort, DefaultPage, DefaultLimit);
    SpreadAppends([], Paging(DefaultSort, DefaultPage, DefaultLimit));
    assert [] + Paging(DefaultSort, DefaultPage, DefaultLimit) == Paging(DefaultSort, DefaultPage, DefaultLimit);
  }

  /** `responseData.data || responseData`; `None` is the TypeError of a `null` body. */
  function Unwrap(data: Js): Option<Js> {
    match Member(data, "data")
    case None => None
    case Some(inner) => Some(Or(inner, data))
  }

  /** The envelope's `data` when truthy, else the whole body. */
  lemma UnwrapEnvelope(inner: Js, rest: seq<(string, Js)>)
    ensures Unwrap(Obj([("data", inner)] + rest)) == Some(if Truthy(inner) then inner else Obj([("data", inner)] + rest))
    ensures Unwrap(Obj([])) == Some(Obj([]))
    ensures Unwrap(Null).None?
  {
    assert Lookup([("data", inner)] + rest, "data") == Some(inner);
  }

  /** `getBooks(filters, sort, pagination)`: the body posted and how the call settles. */
  function GetBooks(filters: Options, sort: BookSorting.Sort, page: int, limit: int, reply: Reply): (Js, Handled) {
    var handled := HandleResponse(reply);
    var outcome :=
      match handled.outcome
      case Thrown(m) => Thrown(m)
      case Returned(data) => match Unwrap(data) case None => Thrown(None) case Some(books) => Returned(books);
    (SearchBody(filters, sort, page, limit), Handled(outcome, handled.effects))
  }

  /** `getGenres()` and `getPublishers()`: `responseData.data || []`, kept only if it is an
      array. */
  function ListOrEmpty(data: Js): Option<seq<Js>> {
    match Member(data, "data")
    case None => None
    case Some(inner) =>
      var v := Or(inner, Arr([]));
      if v.Arr? then Some(v.items) else Some([])
  }

  /** A list comes back only when the envelope's `data` is an array, anything else gives the
      empty list. */
  lemma ListsOnlyFromArrays(inner: Js)
    ensures ListOrEmpty(Obj([("data", inner)])) == Some(if inner.Arr? then inner.items else [])
    ensures ListOrEmpty(Arr([Str("Ficción")])) == Some([])
  {
    assert Lookup([("data", inner)], "data") == Some(inner);
  }

  /** `Number(value)` for the values whose conversion is exact; text and objects go through
      `numberOf`, since parsing text to a float is not modelled. */
  function ToNumber(v: Js, numberOf: Js -> Js): Js {
    match v
    case Num(n) => Num(n)
    case Bool(b) => Num(if b then 1 else 0)
    case Null => Num(0)
    case _ => numberOf(v)
  }

  /** The body `createBook` and `updateBook` send: the form data with a defined price
      converted to a number. */
  function PricedBody(data: Options, numberOf: Js -> Js): Options {
    match Lookup(data, "price")
    case Some(p) => if p.Undefined? then data else Assign(data, "price", ToNumber(p, numberOf))
    case None => data
  }

  /** A numeric or missing price leaves the body as it was; any other price becomes a
      number; no other field changes. */
  lemma PriceConversion(data: Options, numberOf: Js -> Js, k: string)
    ensures Lookup(data, "price").None? || Lookup(data, "price").value.Num? ==> PricedBody(data, numberOf) == data
    ensures Lookup(data, "price") == Some(Bool(true)) ==> Lookup(PricedBody(data, numberOf), "price") == Some(Num(1))
    ensures k != "price" ==> Lookup(PricedBody(data, numberOf), k) == Lookup(data, k)
  {
    if Lookup(data, "price").Some? && Lookup(data, "price").value.Num? {
      AssignSameValue(data, "price");
    }
  }

  /** The headers `createBook` sends, `{ ...getAuthHeaders(), 'Content-Type': ... }`, are
      the auth headers themselves. */
  lemma CreateHeadersAreAuthHeaders(token: Option<string>)
    ensures Assign(AuthHeaders(token), "Content-Type", "application/json") == AuthHeaders(token)
  {
    HeadersShape(token);
    AssignSameValue(AuthHeaders(token), "Content-Type");
  }
}
