/** The audit-log REST client (src/services/auditLogService.ts): its base URL, the single
    `Authorization` header, the loop that turns a filter object into query pairs, the shared
    response handler (the same code as the catalogue client's) and the export endpoints,
    whose error path does not know the 498 status. */
module AuditLogService {
  import opened Common
  import SessionStore
  import AuthInterceptor
  import BookService

  type Headers = seq<(string, string)>

  // ---------------------------------------------------------------------------------------
  // The base URL
  // ---------------------------------------------------------------------------------------

  /** `pat` occurs in `s` at position `i`. */
  predicate MatchAt(s: string, pat: string, i: int) {
    0 <= i && i + |pat| <= |s| && s[i..i + |pat|] == pat
  }

  /** The first position at or after `i` where `pat` occurs. */
  function FirstMatchFrom(s: string, pat: string, i: nat): (r: Option<nat>)
    ensures r.Some? ==> i <= r.value && MatchAt(s, pat, r.value)
    ensures r.Some? ==> forall j :: i <= j < r.value ==> !MatchAt(s, pat, j)
    ensures r.None? ==> forall j :: i <= j ==> !MatchAt(s, pat, j)
    decreases |s| - i
  {
    if i + |pat| > |s| then None
    else if MatchAt(s, pat, i) then Some(i)
    else FirstMatchFrom(s, pat, i + 1)
  }

  /** A match with none before it is the first one. */
  lemma FirstMatchIs(s: string, pat: string, m: nat)
    requires MatchAt(s, pat, m)
    requires forall j :: 0 <= j < m ==> !MatchAt(s, pat, j)
    ensures FirstMatchFrom(s, pat, 0) == Some(m)
  {
  }

  /** `s.replace(pat, rep)` with a text pattern: the first occurrence only. */
  function ReplaceFirst(s: string, pat: string, rep: string): (r: string)
    ensures FirstMatchFrom(s, pat, 0).None? ==> r == s
    ensures FirstMatchFrom(s, pat, 0).Some? ==>
      var i := FirstMatchFrom(s, pat, 0).value;
      r == s[..i] + rep + s[i + |pat|..]
  {
    match FirstMatchFrom(s, pat, 0)
    case None => s
    case Some(i) => s[..i] + rep + s[i + |pat|..]
  }

  /** `API_ENDPOINTS.BOOKS.GET_ALL`: the API base followed by `/books`. */
  function BooksUrl(apiBase: string): string {
    apiBase + "/books"
  }

  /** `baseUrl` as written: the first `/books` of the books URL becomes `/audit-logs`. */
  function BaseUrl(apiBase: string): string {
    ReplaceFirst(BooksUrl(apiBase), "/books", "/audit-logs")
  }

  /** The books URL has no `/books` before its own trailing segment when the base has none. */
  lemma TrailingSegmentIsFirst(apiBase: string)
    requires forall j :: !MatchAt(apiBase, "/books", j)
    ensures FirstMatchFrom(BooksUrl(apiBase), "/books", 0) == Some(|apiBase|)
  {
    var u := BooksUrl(apiBase);
    var pat := "/books";
    assert u[|apiBase|..|apiBase| + 6] == pat;
    forall j | 0 <= j < |apiBase|
      ensures !MatchAt(u, pat, j)
    {
      if j + 6 <= |apiBase| {
        assert u[j..j + 6] == apiBase[j..j + 6];
        assert !MatchAt(apiBase, pat, j);
      } else {
        var d := |apiBase| - j;
        assert 1 <= d <= 5;
        assert u[j + d] == '/';
        assert pat[d] != '/';
      }
    }
    FirstMatchIs(u, pat, |apiBase|);
  }

  /** As written, the audit URL is the sibling of the books URL exactly when the API base
      has no `/books` of its own. */
  lemma BaseUrlWithoutInnerSegment(apiBase: string)
    requires forall j :: !MatchAt(apiBase, "/books", j)
    ensures BaseUrl(apiBase) == apiBase + "/audit-logs"
  {
    TrailingSegmentIsFirst(apiBase);
    var u := BooksUrl(apiBase);
    assert u[..|apiBase|] == apiBase;
    assert u[|apiBase| + 6..] == "";
  }

  /** An API base that starts with `/books` (as `/bookstore/v1`, a relative base behind a
      proxy, does) has that text replaced in place of the trailing segment. */
  lemma BaseUrlRewritesLeadingSegment(rest: string)
    ensures BaseUrl("/books" + rest) == "/audit-logs" + rest + "/books"
    ensures BaseUrl("/books" + rest) != IntendedBaseUrl(BooksUrl("/books" + rest))
  {
    var base := "/books" + rest;
    LeadingSegmentReplaced(rest);
    IntendedIsSibling(base);
    var written, intended := BaseUrl(base), IntendedBaseUrl(BooksUrl(base));
    assert written == "/audit-logs" + rest + "/books" && written[1] == 'a';
    assert intended == base + "/audit-logs" && intended[1] == 'b';
  }

  /** The books URL of such a base starts with the pattern, so `replace` rewrites its head. */
  lemma LeadingSegmentReplaced(rest: string)
    ensures BaseUrl("/books" + rest) == "/audit-logs" + rest + "/books"
  {
    var u := BooksUrl("/books" + rest);
    assert u[..6] == "/books";
    ReplaceAtStart(u, "/books", "/audit-logs");
    assert u[6..] == rest + "/books";
  }

  /** A concrete instance of `BaseUrlRewritesLeadingSegment`: the API base `/bookstore/v1`,
      whose first `/books` is a prefix of `/bookstore`, gives `/audit-logstore/v1/books` as
      written instead of `/bookstore/v1/audit-logs`. */
  lemma BaseUrlRewritesInnerSegment(apiBase: string)
    requires apiBase == "/bookstore/v1"
    ensures BaseUrl(apiBase) == "/audit-logstore/v1/books"
    ensures BaseUrl(apiBase) != IntendedBaseUrl(BooksUrl(apiBase))
  {
    var rest := "tore/v1";
    BookstoreTexts(rest);
    BaseUrlRewritesLeadingSegment(rest);
  }

  /** How the texts of the `/bookstore/v1` example split. */
  lemma BookstoreTexts(rest: string)
    requires rest == "tore/v1"
    ensures "/bookstore/v1" == "/books" + rest
    ensures "/audit-logs" + rest + "/books" == "/audit-logstore/v1/books"
  {
  }

  /** A pattern at the very start is the occurrence `replace` rewrites. */
  lemma ReplaceAtStart(s: string, pat: string, rep: string)
    requires MatchAt(s, pat, 0)
    ensures ReplaceFirst(s, pat, rep) == rep + s[|pat|..]
  {
    assert FirstMatchFrom(s, pat, 0) == Some(0);
    assert s[..0] + rep == rep;
  }

  /** The evidently intended base URL: the trailing `/books` segment of the books URL
      replaced by `/audit-logs`. */
  function IntendedBaseUrl(booksUrl: string): string {
    var n := |"/books"|;
    if n <= |booksUrl| && booksUrl[|booksUrl| - n..] == "/books" then booksUrl[..|booksUrl| - n] + "/audit-logs"
    else booksUrl
  }

  /** For every API base the intended audit URL is the sibling `<apiBase>/audit-logs`, and
      it agrees with the written one wherever the base has no `/books` of its own. */
  lemma IntendedIsSibling(apiBase: string)
    ensures IntendedBaseUrl(BooksUrl(apiBase)) == apiBase + "/audit-logs"
    ensures (forall j :: !MatchAt(apiBase, "/books", j)) ==> BaseUrl(apiBase) == IntendedBaseUrl(BooksUrl(apiBase))
  {
    var u := BooksUrl(apiBase);
    assert u[|u| - 6..] == "/books";
    assert u[..|u| - 6] == apiBase;
    if forall j :: !MatchAt(apiBase, "/books", j) {
      BaseUrlWithoutInnerSegment(apiBase);
    }
  }

  // ---------------------------------------------------------------------------------------
  // Headers
  // ---------------------------------------------------------------------------------------

  /** `getAuthHeaders()`: `{ Authorization: Bearer <token> }` for a truthy token, else `{}`. */
  function AuditHeaders(token: Option<string>): Headers {
    if token.Some? && token.value != "" then [("Authorization", "Bearer " + token.value)] else []
  }

  /** The only header is `Authorization`, present exactly when the token is a non-empty
      text, and it is the catalogue client's `Authorization` header. */
  lemma AuditHeadersShape(token: Option<string>)
    ensures Lookup(AuditHeaders(token), "Authorization").Some? <==> token.Some? && token.value != ""
    ensures forall k :: k != "Authorization" ==> Lookup(AuditHeaders(token), k).None?
    ensures Lookup(AuditHeaders(token), "Authorization") == Lookup(BookService.AuthHeaders(token), "Authorization")
    ensures token.None? || token == Some("") ==> AuditHeaders(token) == []
  {
    AuditHeaderLookup(token, "Authorization");
    forall k | k != "Authorization" {
      AuditHeaderLookup(token, k);
    }
    BookService.HeadersShape(token);
  }

  /** The one lookup `AuditHeadersShape` rests on. */
  lemma AuditHeaderLookup(token: Option<string>, k: string)
    ensures Lookup(AuditHeaders(token), k) ==
      if k == "Authorization" && token.Some? && token.value != "" then Some("Bearer " + token.value) else None
  {
    if token.Some? && token.value != "" {
      LookupCons(("Authorization", "Bearer " + token.value), [], k);
    }
  }

  /** `getAuthHeaders()` reading the store's token. */
  method GetAuthHeaders(store: SessionStore.Store) returns (headers: Headers)
    ensures headers == AuditHeaders(SessionStore.AccessToken(store.Current()))
  {
    var token := store.GetAccessToken();
    if token.Some? && token.value != "" {
      headers := [("Authorization", "Bearer " + token.value)];
    } else {
      headers := [];
    }
  }

  // ---------------------------------------------------------------------------------------
  // Query pairs
  // ---------------------------------------------------------------------------------------

  /** `value !== undefined && value !== null && value !== ''`. */
  predicate Kept(v: Js) {
    !v.Undefined? && !v.Null? && v != Str("")
  }

  /** The pairs `params.append(key, value.toString())` collects, entry by entry. */
  function KeptPairs(entries: seq<(string, Js)>): seq<(string, string)> {
    if entries == [] then []
    else
      (if Kept(entries[0].1) then [(entries[0].0, ToText(entries[0].1))] else []) + KeptPairs(entries[1..])
  }

  /** The pairs of two runs of entries are the pairs of each, in order. */
  lemma {:induction false} KeptPairsAppend(a: seq<(string, Js)>, b: seq<(string, Js)>)
    ensures KeptPairs(a + b) == KeptPairs(a) + KeptPairs(b)
  {
    if a == [] {
      assert a + b == b;
    } else {
      var head := if Kept(a[0].1) then [(a[0].0, ToText(a[0].1))] else [];
      assert (a + b)[0] == a[0];
      assert (a + b)[1..] == a[1..] + b;
      assert KeptPairs(a + b) == head + KeptPairs(a[1..] + b);
      KeptPairsAppend(a[1..], b);
      assert head + (KeptPairs(a[1..]) + KeptPairs(b)) == (head + KeptPairs(a[1..])) + KeptPairs(b);
    }
  }

  /** A pair is collected exactly when it comes from an entry whose value is kept. */
  lemma {:induction false} KeptPairsMembers(entries: seq<(string, Js)>, p: (string, string))
    ensures p in KeptPairs(entries) <==>
      exists i :: 0 <= i < |entries| && Kept(entries[i].1) && p == (entries[i].0, ToText(entries[i].1))
  {
    if entries != [] {
      KeptPairsMembers(entries[1..], p);
      if p in KeptPairs(entries[1..]) {
        var i :| 0 <= i < |entries[1..]| && Kept(entries[1..][i].1) && p == (entries[1..][i].0, ToText(entries[1..][i].1));
        assert entries[i + 1] == entries[1..][i];
      }
      if exists i :: 0 <= i < |entries| && Kept(entries[i].1) && p == (entries[i].0, ToText(entries[i].1)) {
        var i :| 0 <= i < |entries| && Kept(entries[i].1) && p == (entries[i].0, ToText(entries[i].1));
        if i > 0 {
          assert entries[1..][i - 1] == entries[i];
        }
      }
    }
  }

  /** `0` and `false` are kept, the empty text, `null` and `undefined` are dropped, and the
      order of the entries is kept. */
  lemma FalsyNumbersAndFlagsKept()
    ensures KeptPairs([("page", Num(0)), ("search", Str("")), ("status", Null), ("level", Undefined), ("active", Bool(false))]) ==
      [("page", "0"), ("active", "false")]
  {
    var e: seq<(string, Js)> := [("page", Num(0)), ("search", Str("")), ("status", Null), ("level", Undefined), ("active", Bool(false))];
    assert ToText(Num(0)) == "0";
    assert e[1..][1..][1..][1..] == [("active", Bool(false))];
    assert KeptPairs(e[1..][1..][1..][1..]) == [("active", "false")];
    assert e[1..][1..][1..] == [("level", Undefined), ("active", Bool(false))];
    assert e[1..][1..] == [("status", Null), ("level", Undefined), ("active", Bool(false))];
    assert e[1..] == [("search", Str("")), ("status", Null), ("level", Undefined), ("active", Bool(false))];
  }

  /** The `Object.entries(filters).forEach(...)` loop appending to the search parameters. */
  method QueryPairs(filters: seq<(string, Js)>) returns (params: seq<(string, string)>)
    ensures params == KeptPairs(filters)
  {
    params := [];
    var i := 0;
    while i < |filters|
      invariant 0 <= i <= |filters|
      invariant params == KeptPairs(filters[..i])
    {
      var (key, value) := filters[i];
      assert filters[..i + 1] == filters[..i] + [filters[i]];
      KeptPairsAppend(filters[..i], [filters[i]]);
      if !value.Undefined? && !value.Null? && value != Str("") {
        params := params + [(key, ToText(value))];
      }
      i := i + 1;
    }
    assert filters[..i] == filters;
  }

  // ---------------------------------------------------------------------------------------
  // Responses
  // ---------------------------------------------------------------------------------------

  /** `handleResponse` of the audit service is the catalogue client's code: a 498 logs out,
      sends the browser to `/login` and throws the session-expired error, with the store
      ending logged out; any other failure throws the body's truthy `message` or the HTTP
      error text; a success returns the body. */
  lemma AuditHandlerContract(st: SessionStore.State, reply: BookService.Reply)
    ensures var h := BookService.HandleResponse(reply);
      (h.effects != [] <==> !reply.ok && reply.status == AuthInterceptor.SessionInvalidStatus) &&
      (h.effects != [] ==>
        h.effects == [SessionStore.LogoutEffect, SessionStore.Redirect(AuthInterceptor.LoginPath)] &&
        h.outcome == BookService.Thrown(Some(BookService.SessionExpiredMessage)) &&
        SessionStore.ApplyEffects(st, h.effects) == SessionStore.AfterClear(st)) &&
      (!reply.ok && reply.status != 498 ==> h.outcome == BookService.FailureError(reply)) &&
      (reply.ok && reply.body.Some? ==> h.outcome == BookService.Returned(reply.body.value))
  {
    BookService.SameTriggerAsInterceptor(st, 0, reply);
  }

  /** `exportLogs` and `exportInventoryLogs`: a failed response throws the HTTP error text,
      whatever its status and body; a success goes on to the download. */
  function ExportOutcome(reply: BookService.Reply): (r: BookService.Handled)
    ensures r.effects == []
    ensures !reply.ok <==> r.outcome.Thrown?
  {
    if !reply.ok then BookService.Handled(BookService.Thrown(Some(BookService.HttpErrorMessage(reply.status))), [])
    else BookService.Handled(BookService.Returned(Undefined), [])
  }

  /** A 498 on export neither logs out nor redirects, unlike every other audit call, and its
      message does not depend on the body. */
  lemma ExportIgnoresSentinel(body: Option<Js>, body': Option<Js>)
    ensures ExportOutcome(BookService.Reply(false, 498, body)).effects == []
    ensures BookService.HandleResponse(BookService.Reply(false, 498, body)).effects != []
    ensures ExportOutcome(BookService.Reply(false, 498, body)) == ExportOutcome(BookService.Reply(false, 498, body'))
    ensures ExportOutcome(BookService.Reply(false, 498, body)).outcome == BookService.Thrown(Some("HTTP error! status: 498"))
  {
    BookService.DeleteIgnoresSentinel(None);
  }

  /** What a call sends: the URL before `?`, the query pairs and the headers. */
  datatype Request = Request(url: string, query: seq<(string, string)>, headers: Headers)

  /** The service object and its base URL. */
  class Service {
    const baseUrl: string

    /** The service as written: its base URL is the books URL with its first `/books`
        replaced, which is the sibling `<apiBase>/audit-logs` only when the API base has no
        `/books` of its own. */
    constructor(apiBase: string)
      ensures baseUrl == BaseUrl(apiBase)
      ensures (forall j :: !MatchAt(apiBase, "/books", j)) ==> baseUrl == apiBase + "/audit-logs"
    {
      baseUrl := BaseUrl(apiBase);
      if forall j :: !MatchAt(apiBase, "/books", j) {
        BaseUrlWithoutInnerSegment(apiBase);
      }
    }

    /** `getLogs(filters)`: the request built from the filters and the store's token, and
        how the call settles on `reply`. */
    method GetLogs(store: SessionStore.Store, filters: seq<(string, Js)>, reply: BookService.Reply)
      returns (request: Request, handled: BookService.Handled)
      ensures request == Request(baseUrl, KeptPairs(filters), AuditHeaders(SessionStore.AccessToken(store.Current())))
      ensures handled == BookService.HandleResponse(reply)
    {
      var params := QueryPairs(filters);
      var headers := GetAuthHeaders(store);
      request := Request(baseUrl, params, headers);
      handled := BookService.HandleResponse(reply);
    }

    /** `exportLogs(filters)`: the request and its error path. */
    method ExportLogs(store: SessionStore.Store, filters: seq<(string, Js)>, reply: BookService.Reply)
      returns (request: Request, handled: BookService.Handled)
      ensures request == Request(baseUrl + "/export", KeptPairs(filters), AuditHeaders(SessionStore.AccessToken(store.Current())))
      ensures handled == ExportOutcome(reply)
    {
      var params := QueryPairs(filters);
      var headers := GetAuthHeaders(store);
      request := Request(baseUrl + "/export", params, headers);
      if !reply.ok {
        handled := BookService.Handled(BookService.Thrown(Some(BookService.HttpErrorMessage(reply.status))), []);
      } else {
        handled := BookService.Handled(BookService.Returned(Undefined), []);
      }
    }
  }
}
