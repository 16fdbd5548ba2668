# A verified model of the bookstore front end's decision rules

The repository is a React single-page application for a book catalogue with an audit
dashboard. Most of it is UI composition and `fetch` plumbing. This project models the
sequential decision rules beneath the UI and proves properties about them. Each module
follows one source file.

- `SessionStore` (src/store/index.ts) models the persisted `{ session, isLoggedIn }` store.
  It covers:
  - its actions: `setSession`, `updateUser`, the getters, and `clear`/`logout`;
  - the write-through copy under `cmpc-session`;
  - the expiry check run on rehydration.

  The `Store` class changes its fields in place, and each method is proved against a pure
  `After…` function. Handlers elsewhere describe what they ask of the store as an ordered
  trace of `Effect`s, and `ApplyEffects` gives the resulting state.
- `AuthInterceptor` (src/utils/authInterceptor.ts) models the global `fetch` wrapper: the
  forced logout and redirect on status 498, and the install/teardown of the wrapper. The
  wrapper is a `FetchImpl` value held in a `Window` object.
- `BookPagination`, `BookSorting`, `BookFilters` and `BookList` model the catalogue's query
  state:
  - the windowed page list with ellipses, built by a method with loops and proved against a
    function;
  - the sort toggle;
  - filter normalisation;
  - the page resets, no-op guards and reentrancy flag of the list page, as a `Catalogue`
    class.
- `BookForm` and `EditBookForm` model the two book forms: the field rules, the file checks,
  the state updates, and the image handling on submit.
- `Obfuscation` models the password encoding shared by the registration and login screens:
  an XOR with the cycled key `cmpc2024`, followed by base64 as in section 4 of RFC 4648
  (`btoa`). `Register` and `Login` model the two screens that use it.
- `Dashboard` models the statistics built from the loaded audit logs, the tag colours, and
  the filter and paging state. A filter holds a JavaScript value, because a cleared dropdown
  stores `undefined` in it.
- `BookService` and `AuditLogService` model request shaping in the two REST clients:
  - the auth headers;
  - the option merge;
  - the query composition;
  - the shared response handler with its forced logout;
  - response unwrapping;
  - the error paths that bypass the handler.
- `ImageFallback` models the bounded retry-then-fallback chain of `useImageWithFallback`.
  The outcome of each image load is an input function `ok`.

Values of JavaScript's dynamic world (`any` form fields, JSON bodies, filters) are the
`Common.Js` datatype. Plain objects are sequences of key/value pairs in insertion order.
`Common.Assign` models `{ ...o, [k]: v }` and `Common.Spread` models `{ ...o, ...p }`.

`auditLogService.ts`'s `handleResponse` (lines 91-120) is the same code as
`bookService.ts`'s (lines 42-70), apart from its log text. It also reaches `logout` through
`await import('../store')` (lines 100-101), which loads the same store module the file already
imports at line 2, so the behaviour is the same. It is therefore modelled once, as
`BookService.HandleResponse`, and `AuditLogService.AuditHandlerContract` restates the audit
service's promises about it.

## Model

| member | source | states |
|---|---|---|
| SessionStore.MergeUser | src/store/index.ts:71-74 | every user field the patch supplies is replaced, and every field it omits keeps its old value |
| SessionStore.AfterSetSession | src/store/index.ts:58-63 | the new state holds exactly the given session, replacing the old one wholesale, with `isLoggedIn` true; the invariant holds afterwards iff the session is non-null |
| SessionStore.AfterUpdateUser | src/store/index.ts:65-78 | without a session nothing changes; with one, tokens, meta and `isLoggedIn` are kept and the user becomes the merge; the invariant is preserved |
| SessionStore.AfterClear | src/store/index.ts:92-104 | session null and `isLoggedIn` false, so the invariant holds |
| SessionStore.AccessToken | src/store/index.ts:80-82 | the token is returned iff there is a session and its access token is non-empty; otherwise null (`\|\| null`) |
| SessionStore.RefreshToken | src/store/index.ts:84-86 | the same for the refresh token |
| SessionStore.UserOf | src/store/index.ts:88-90 | the user is returned iff there is a session, and it is the session's user |
| SessionStore.AfterRehydrate | src/store/index.ts:112-129 | no stored copy gives the initial state; a stored copy is discarded exactly when its non-empty token fails to decode or carries a non-zero `exp` in the past, and is kept otherwise; consistency is preserved |
| SessionStore.RehydrateSurvivors | src/store/index.ts:114-123 | an empty token, a token without `exp`, `exp == 0` and `exp == now` all survive; `exp` one second in the past is cleared |
| SessionStore.InvariantAlongRuns | src/store/index.ts:55-104 | `isLoggedIn <==> session != null` holds after any sequence of operations in which `setSession` receives a session |
| SessionStore.ClearIdempotent | src/store/index.ts:92-104 | `clear` and `logout` have the same effect, and doing either twice equals doing it once |
| SessionStore.Store.constructor | src/store/index.ts:106-129 | the store starts from the persisted slice under `cmpc-session` after the rehydration check, and a discarded slice is overwritten in storage |
| SessionStore.Store.SetSession | src/store/index.ts:58-63 | the new state is `AfterSetSession`, written through to storage |
| SessionStore.Store.UpdateUser | src/store/index.ts:65-78 | the new state is `AfterUpdateUser`; storage is written only when there is a session |
| SessionStore.Store.GetAccessToken | src/store/index.ts:80-82 | returns `AccessToken` of the current state and changes nothing |
| SessionStore.Store.GetRefreshToken | src/store/index.ts:84-86 | returns `RefreshToken` of the current state and changes nothing |
| SessionStore.Store.GetUser | src/store/index.ts:88-90 | returns `UserOf` of the current state and changes nothing |
| SessionStore.Store.Clear | src/store/index.ts:92-97 | the new state is `AfterClear`, and storage holds the initial slice |
| SessionStore.Store.Logout | src/store/index.ts:99-104 | the same as `Clear` |
| AuthInterceptor.Call | src/utils/authInterceptor.ts:7-37 | the outcome is returned unchanged, whether a response or a rejection; effects occur only on a non-ok 498, as one logout and one redirect to `/login` per wrapping layer |
| AuthInterceptor.LogoutPairExtends | src/utils/authInterceptor.ts:15-30 | one more logout and redirect keep the effects alternating |
| AuthInterceptor.ReactsExactlyOnSentinel | src/utils/authInterceptor.ts:15-36 | a rejection is re-thrown with no logout; 200/401/500 and an ok 498 pass through; a non-ok 498 gives exactly logout then redirect, and the same response |
| AuthInterceptor.InstallsNeverStack | src/utils/authInterceptor.ts:40-51 | any sequence of setups and teardowns leaves either the original fetch or one wrapper around it, and which one depends on the last operation |
| AuthInterceptor.OneLogoutPerResponse | src/utils/authInterceptor.ts:4-12 | because the wrapper calls the captured original, a 498 response triggers at most one logout and redirect whatever was installed before |
| AuthInterceptor.RepeatedLogoutSettles | src/utils/authInterceptor.ts:23-24 | replaying a 498 trace changes nothing further, and the store ends in the initial state |
| AuthInterceptor.SessionEndsOnSentinel | src/utils/authInterceptor.ts:15-29 | a logged-in store has no user and is logged out after a 498 |
| AuthInterceptor.Window.constructor | src/utils/authInterceptor.ts:4 | the window starts with the native fetch |
| AuthInterceptor.Interceptor.constructor | src/utils/authInterceptor.ts:4 | `originalFetch` is the window's fetch at module load |
| AuthInterceptor.Interceptor.Setup | src/utils/authInterceptor.ts:40-44 | the window's fetch becomes the wrapper around the captured original |
| AuthInterceptor.Interceptor.Teardown | src/utils/authInterceptor.ts:47-51 | the window's fetch is exactly the captured original |
| AuthInterceptor.Interceptor.InterceptedFetch | src/utils/authInterceptor.ts:7-37 | the same outcome is returned; on a non-ok 498 the store is cleared and `href` becomes `/login`, and otherwise store and window are unchanged |
| BookPagination.Range | src/components/BookPagination.tsx:27-29 | `lo..hi` as consecutive page items, empty when `lo > hi` |
| BookPagination.GetPageNumbers | src/components/BookPagination.tsx:22-55 | the loop-built list equals `PageNumbers(current, total)` |
| BookPagination.LocalOrderIsGlobal | src/components/BookPagination.tsx:31-51 | neighbouring-page order with gap-bridging ellipses implies strictly increasing numbers |
| BookPagination.BelowLater | src/components/BookPagination.tsx:31-51 | under local order, each number is below every later number |
| BookPagination.FewPagesAllShown | src/components/BookPagination.tsx:26-29 | with at most 5 pages the list is exactly `1..total`, and empty when `total <= 0` |
| BookPagination.ManyPagesShape | src/components/BookPagination.tsx:31-51 | with more than 5 pages the list has 6 or 7 entries, starts with 1 and ends with `total` |
| BookPagination.PageNumbersOrdered | src/components/BookPagination.tsx:26-51 | the numbers strictly increase within `[1, total]`, and every ellipsis stands for at least one omitted page |
| BookPagination.LeadingWindowOrdered | src/components/BookPagination.tsx:31-36 | the same for the leading window |
| BookPagination.TrailingWindowOrdered | src/components/BookPagination.tsx:37-42 | the same for the trailing window |
| BookPagination.MiddleWindowOrdered | src/components/BookPagination.tsx:43-51 | the same for the middle window |
| BookPagination.SevenOrdered | src/components/BookPagination.tsx:43-51 | the seven entries around a middle page are locally ordered and within `[1, total]` |
| BookPagination.CurrentPageShown | src/components/BookPagination.tsx:26-51 | for `1 <= current <= total`, the current page is in the list |
| BookPagination.ClickRequestsShownPage | src/components/BookPagination.tsx:57-61 | clicking `'...'` requests nothing; clicking a number requests that page, which lies in `[1, total]` |
| BookPagination.ShownRangeBounds | src/components/BookPagination.tsx:72 | on a page holding items, "Mostrando a a b" has `1 <= a <= b <= totalItems` and at most `perPage` items, and consecutive full pages' ranges abut |
| BookPagination.StepButtons | src/components/BookPagination.tsx:95-97 | prev is disabled exactly on page 1 and next exactly on the last page; otherwise they request `current - 1` and `current + 1`, both in range |
| BookSorting.FieldChanged | src/components/BookSorting.tsx:20-25 | the emitted sort carries the chosen field; the direction is descending iff the same field was ascending, and ascending otherwise |
| BookSorting.DirectionChanged | src/components/BookSorting.tsx:27-32 | the field is kept and the direction is exactly the given one |
| BookSorting.SameFieldAlternates | src/components/BookSorting.tsx:20-25 | choosing the same field again flips the direction, so two more choices return to the first result |
| BookSorting.DirectionChangeIdempotent | src/components/BookSorting.tsx:27-32 | a direction change is idempotent, and only the last of two changes counts |
| BookSorting.ChosenFieldIsOffered | src/components/BookSorting.tsx:10-17 | a chosen field is one of the six offered, and a direction change keeps an offered field |
| BookFilters.FilterChanged | src/components/BookFilters.tsx:46-54 | only the named key changes, and `''` becomes undefined; an existing key keeps its position |
| BookFilters.TermFolded | src/components/BookFilters.tsx:29-44 | an empty debounced term sets its filter to undefined, a non-empty one sets it to the term, and every other key is preserved |
| BookFilters.InitialTerm | src/components/BookFilters.tsx:21-22 | the search box starts from the incoming filter's non-empty text, or `''` |
| BookFilters.FoldingInitialTermIsStable | src/components/BookFilters.tsx:21-44 | folding the initial term back into the filters keeps a non-empty text filter and turns an absent or empty one into undefined |
| BookFilters.AvailabilityRoundTrip | src/components/BookFilters.tsx:150-153 | undefined, true and false round-trip through `''`, `'true'` and `'false'`, in both directions |
| BookFilters.FilterPanel.constructor | src/components/BookFilters.tsx:21-22 | the search and author boxes start from the incoming filters |
| BookFilters.FilterPanel.TypeSearch | src/components/BookFilters.tsx:21 | only the search box changes |
| BookFilters.FilterPanel.TypeAuthor | src/components/BookFilters.tsx:22 | only the author box changes |
| BookFilters.FilterPanel.SearchSettled | src/components/BookFilters.tsx:29-34 | the emitted filters are the search term folded into the current filters |
| BookFilters.FilterPanel.AuthorSettled | src/components/BookFilters.tsx:37-44 | the emitted filters are the author term folded into the current filters |
| BookFilters.FilterPanel.ClearFilters | src/components/BookFilters.tsx:56-60 | both boxes are emptied and `{}` is emitted |
| BookList.Serialized | src/pages/BookList.tsx:137 | `JSON.stringify` drops the undefined-valued keys and keeps the rest in order |
| BookList.AfterFiltersChange | src/pages/BookList.tsx:134-143 | the filters are replaced only when the serialisations differ; the page is reset to 1 with the limit kept; nothing else changes |
| BookList.UndefinedKeysIgnored | src/pages/BookList.tsx:137-140 | `{}` equals `{search: undefined}`, and key order matters for the comparison |
| BookList.AfterSortChange | src/pages/BookList.tsx:145-154 | the sort becomes the new one (an identical one keeps the old value), and the page is reset to 1 |
| BookList.AfterPageChange | src/pages/BookList.tsx:156-161 | the same page is a no-op; otherwise only `page` changes |
| BookList.AfterItemsPerPageChange | src/pages/BookList.tsx:163-168 | the same limit is a no-op; a new one gives page 1 with that limit |
| BookList.AfterLoadStarted | src/pages/BookList.tsx:101-107 | while `loadingRef` is set, nothing happens; otherwise the flag, `loading` and the cleared error are the only changes |
| BookList.AfterLoadFinished | src/pages/BookList.tsx:115-124 | `loading` and the flag are cleared on both paths; success stores the books and totals, and failure sets the load error and keeps the books |
| BookList.LoadGuard | src/pages/BookList.tsx:101-124 | a second load while one runs is a no-op, and after `finally` a new load can start |
| BookList.RequestsResetPage | src/pages/BookList.tsx:134-161 | any filter request resets the page, even unchanged filters; an unchanged sort still resets it; a page change touches neither filters nor sort |
| BookList.AfterEdit | src/pages/BookList.tsx:220-223 | the form opens on the chosen book, and nothing else changes |
| BookList.AfterFormCancel | src/pages/BookList.tsx:230-233 | `showForm` and `editingBook` are cleared, and nothing else changes |
| BookList.SubmitRoute | src/pages/BookList.tsx:235-241 | submit routes to update (with the book's id) iff a book is being edited, and to create otherwise |
| BookList.Reloaded | src/pages/BookList.tsx:101-124 | the awaited `loadBooks()`: skipped while a load runs, otherwise a whole load |
| BookList.AfterFormSaved | src/pages/BookList.tsx:170-204 | `formLoading` ends down; a failed save changes nothing else; a successful one reloads the books (new books and totals, or the load error, flags cleared; nothing while another load runs) and then closes the form, keeping filters, sort and page |
| BookList.EditThenSubmitOrCancel | src/pages/BookList.tsx:220-241 | after editing a book, submit updates it; after cancel or a save, submit creates |
| BookList.Catalogue.constructor | src/pages/BookList.tsx:101-125 | the page starts in the initial state (title ascending, page 1, limit 10) |
| BookList.Catalogue.HandleFiltersChange | src/pages/BookList.tsx:134-143 | the new state is `AfterFiltersChange` |
| BookList.Catalogue.HandleSortChange | src/pages/BookList.tsx:145-154 | the new state is `AfterSortChange` |
| BookList.Catalogue.HandlePageChange | src/pages/BookList.tsx:156-161 | the new state is `AfterPageChange` |
| BookList.Catalogue.HandleItemsPerPageChange | src/pages/BookList.tsx:163-168 | the new state is `AfterItemsPerPageChange` |
| BookList.Catalogue.StartLoad | src/pages/BookList.tsx:101-113 | a query is issued iff no load is running, with the current filters, sort and pagination |
| BookList.Catalogue.FinishLoad | src/pages/BookList.tsx:115-124 | the new state is `AfterLoadFinished` |
| BookList.Catalogue.HandleEditBook | src/pages/BookList.tsx:220-223 | the new state is `AfterEdit` |
| BookList.Catalogue.HandleFormCancel | src/pages/BookList.tsx:230-233 | the new state is `AfterFormCancel` |
| BookList.Catalogue.HandleFormSubmit | src/pages/BookList.tsx:235-241 | the route is `SubmitRoute` of the old state; the reload's query is the current one, sent exactly when the save succeeded and no load runs; the new state is `AfterFormSaved` |
| BookForm.InitialData | src/components/BookForm.tsx:27-37 | the form data has the nine keys in order, and the create-mode defaults are empty text, price 0, available, and no image |
| BookForm.ApplyVerdict | src/components/BookForm.tsx:91-95 | a failed rule sets that field's message, a passed one clears it, a skipped field leaves the errors alone, a rule that throws changes nothing, and other fields are untouched |
| BookForm.TitleAuthorRule | src/components/BookForm.tsx:77-80 | title/author error iff the value is falsy or its trimmed length is below 2, with the field's message; a truthy non-string throws |
| BookForm.PublisherGenreRule | src/components/BookForm.tsx:81-84 | publisher/genre error iff the value is falsy or trims to empty, with the field's message |
| BookForm.PriceRule | src/components/BookForm.tsx:85-88 | price error iff the value is not a number or is negative; 0 passes |
| BookForm.OptionalFieldsNeverFail | src/components/BookForm.tsx:73 | `image` and `description` are never validated and leave the errors unchanged |
| BookForm.AfterChange | src/components/BookForm.tsx:98-105 | only the named field changes, and only its error is cleared (the errors are untouched when it had none) |
| BookForm.FileAcceptance | src/components/BookForm.tsx:415-422 | a file is accepted iff its type starts with `image/` and its size is at most 5·1024·1024 (exactly 5 MiB passes); the type check comes first |
| BookForm.AfterUpload | src/components/BookForm.tsx:412-434 | a rejected file sets the image error and leaves the form data unchanged; an accepted one becomes `image`; removing the file clears it |
| BookForm.AfterRemovePreview | src/components/BookForm.tsx:455-458 | `image` and its error are cleared, and other fields and errors are untouched |
| BookForm.FinishImageHandling | src/components/BookForm.tsx:201-237 | with a file: edit mode uploads it and replaces `imageUrl`, and aborts (caught, not thrown) if the upload fails; create mode passes it as `imageFile`; the `image` key never reaches the submitted data |
| BookForm.Form.constructor | src/components/BookForm.tsx:27-41 | the form starts from `InitialData`, with no errors and the book's image as preview |
| BookForm.Form.HandleChange | src/components/BookForm.tsx:98-105 | the new fields are `AfterChange` |
| BookForm.Form.HandleBlur | src/components/BookForm.tsx:107-110 | the errors are `ApplyVerdict` of the field's rule on its current value, and the data is unchanged |
| BookForm.Form.UploadChanged | src/components/BookForm.tsx:412-434 | the new fields are `AfterUpload`, and the preview is dropped when the file list is emptied |
| BookForm.Form.PreviewLoaded | src/components/BookForm.tsx:423-424 | only the preview changes |
| BookForm.Form.RemovePreview | src/components/BookForm.tsx:455-458 | the preview is dropped and the fields are `AfterRemovePreview` |
| BookForm.Form.Submit | src/components/BookForm.tsx:201-237 | the result is `Finish` of the old data, and the form state is unchanged |
| EditBookForm.ImageFileRule | src/components/EditBookForm.tsx:44-58 | null iff the type is one of jpeg/jpg/png/gif/webp and the size is at most 5 MiB; a wrong type reports the type error even when oversized |
| EditBookForm.AllowedTypesAreImages | src/components/EditBookForm.tsx:44-58 | every file this rule accepts, BookForm's check accepts too |
| EditBookForm.NullablePrice | src/components/EditBookForm.tsx:98-103 | a null or undefined price passes; otherwise it must be a number of at least 0; the create form rejects undefined |
| EditBookForm.SameRulesAsBookForm | src/components/EditBookForm.tsx:84-97 | every field except price follows BookForm's rule |
| EditBookForm.AfterUpload | src/components/EditBookForm.tsx:357-380 | a rejected file sets the image error and leaves the data unchanged; an accepted one becomes `image` |
| EditBookForm.AfterRemovePreview | src/components/EditBookForm.tsx:402-407 | `image`, `imageUrl` and the image error are cleared, and nothing else changes |
| EditBookForm.UploadBeforeSubmit | src/components/EditBookForm.tsx:148-165 | without a file, the merged values are submitted; with one, it is uploaded first and its URL replaces `imageUrl`; a failed upload means no submit; `image` is removed |
| EditBookForm.FinishKeepsOthers | src/components/EditBookForm.tsx:148-165 | every key other than `image` and `imageUrl` is submitted with its merged value |
| EditBookForm.Form.constructor | src/components/EditBookForm.tsx:27-41 | the form starts from the book's data, with no errors |
| EditBookForm.Form.HandleChange | src/components/EditBookForm.tsx:112-119 | the new fields are `BookForm.AfterChange` |
| EditBookForm.Form.HandleBlur | src/components/EditBookForm.tsx:121-123 | the errors follow this form's rules |
| EditBookForm.Form.UploadChanged | src/components/EditBookForm.tsx:357-380 | the new fields are `AfterUpload` |
| EditBookForm.Form.PreviewLoaded | src/components/EditBookForm.tsx:367-368 | only the preview changes |
| EditBookForm.Form.RemovePreview | src/components/EditBookForm.tsx:402-407 | the preview is dropped and the fields are `AfterRemovePreview` |
| EditBookForm.Form.Submit | src/components/EditBookForm.tsx:148-165 | the result is `Finish` of the old data, and the form state is unchanged |
| Obfuscation.XorInvolution | src/views/common/Register.tsx:60-64 | applying the XOR stage twice returns the password |
| Obfuscation.XorKeepsWideUnits | src/views/common/Register.tsx:63 | a unit above 0xFF stays above it under XOR, and one at or below stays at or below |
| Obfuscation.DigitValue | src/views/common/Register.tsx:65 | a decoded base64 digit encodes back to the same character |
| Obfuscation.DigitRoundTrip | src/views/common/Register.tsx:65 | every sextet's digit decodes back to it and is never `=` |
| Obfuscation.EncodeGroup | src/views/common/Register.tsx:65 | one to three bytes encode to four characters |
| Obfuscation.DecodeGroup | src/views/common/Register.tsx:65 | a four-character group decodes to one to three bytes |
| Obfuscation.GroupRoundTrip | src/views/common/Register.tsx:65 | decoding an encoded group gives the bytes back |
| Obfuscation.Base64 | src/views/common/Register.tsx:65 | the output length is `4·⌈n/3⌉` |
| Obfuscation.Base64RoundTrip | src/views/common/Register.tsx:65 | decoding the base64 of any bytes gives them back |
| Obfuscation.ToBytes | src/views/common/Register.tsx:65 | a Latin-1 string gives one byte per unit, with the same value |
| Obfuscation.Widen | src/views/common/Register.tsx:65 | bytes give a Latin-1 string of the same values |
| Obfuscation.WidenUnit | src/views/common/Register.tsx:65 | a byte's code unit has the byte's value |
| Obfuscation.Btoa | src/views/common/Register.tsx:65 | `btoa` fails iff some unit is above 0xFF; otherwise it is `4·⌈n/3⌉` long |
| Obfuscation.EncryptPassword | src/views/common/Register.tsx:59-66 | the loop computes `btoa(xor(pw))`; it fails iff the password has a unit above 0xFF; the length is `4·⌈n/3⌉`, and `''` gives `''` |
| Obfuscation.Reveal | src/views/common/Register.tsx:59-66 | a revealed password obfuscates to a Latin-1 string |
| Obfuscation.WidenBytes | src/views/common/Register.tsx:59-66 | widening the bytes of a Latin-1 string gives it back |
| Obfuscation.RevealObfuscated | src/views/common/Register.tsx:59-66 | decoding and XOR-ing an obfuscated password gives it back |
| Register.CountMet | src/views/common/Register.tsx:74 | the count of rules met is at most the number of rules, and equals it iff all are met |
| Register.Validate | src/views/common/Register.tsx:39-44 | entry k of `met` is the k-th rule (upper, lower, digit, one of `@$!%*?&`); `isValid` iff all four hold, iff strength is 100; strength is 25 × rules met |
| Register.StrengthIsQuarterSteps | src/views/common/Register.tsx:75 | `Math.round(n/4·100)` is exactly `25·n` for n ≤ 4 |
| Register.StrengthColor | src/views/common/Register.tsx:82-86 | red below 40, orange below 70, and green otherwise |
| Register.ColourByRulesMet | src/views/common/Register.tsx:74-86 | red iff at most one rule is met, orange iff two, and green iff three or four |
| Register.Submit | src/views/common/Register.tsx:93-138 | an invalid password sets the password error and sends nothing; a request is sent iff the password is valid and encodes, carrying the encoded password |
| Register.WideCharacterShowsConnectionError | src/views/common/Register.tsx:102-134 | a unit above 0xFF shows the connection error and sends nothing |
| Register.ReplyOutcomes | src/views/common/Register.tsx:121-132 | ok navigates to `/login` with the message; otherwise `errors`, `message` or the default is shown |
| Register.RegisterForm.constructor | src/views/common/Register.tsx:50-56 | the screen starts with no rule met, no errors, and not loading |
| Register.RegisterForm.HandlePasswordChange | src/views/common/Register.tsx:68-91 | the validation becomes `Validate(p)`, and its `isValid` is returned |
| Register.RegisterForm.HandleSubmit | src/views/common/Register.tsx:93-138 | errors, request and navigation are those of `Submit`, and loading is cleared in `finally` |
| Login.UnwrapSession | src/views/common/Login.tsx:76 | `data.data?.session` when truthy, else `data.session`; a null body throws |
| Login.AfterReply | src/views/common/Login.tsx:72-84 | a reply sends nothing further, and a reply that sets a session shows no error |
| Login.Submit | src/views/common/Login.tsx:54-90 | a request is sent iff the password encodes, carrying the encoded password; the effects are either none or `setSession` then navigation to the screen's target |
| Login.SessionUnwrapping | src/pages/auth/login.tsx:77-81 | an ok reply sets the inner session when truthy and the outer one otherwise, then navigates |
| Login.FailureMessages | src/views/common/Login.tsx:82-83 | a non-ok reply shows `body.error` when truthy, else the default; a `null` or unreadable body and a network failure show the connection error |
| Login.WideCharacterShowsConnectionError | src/views/common/Login.tsx:85-86 | a unit above 0xFF gives the connection error, no request and no effects |
| Login.MissingSessionBreaksInvariant | src/views/common/Login.tsx:76-78 | an ok `{}` reply leaves the store logged in with no session |
| Login.SubmitChecked | src/views/common/Login.tsx:76-78 | the corrected handler sends the same request and never sets a missing session |
| Login.CheckedKeepsInvariant | src/views/common/Login.tsx:76-78 | with the check, every login keeps the store's invariant |
| Login.LoginForm.constructor | src/views/common/Login.tsx:41-42 | no error, and not loading |
| Login.LoginForm.HandleSubmit | src/views/common/Login.tsx:54-90 | error, request, store state and navigation are those of `Submit`, and loading is cleared |
| Dashboard.OccurrencesIsMultiplicity | src/pages/Dashboard.tsx:145-148 | the occurrence count is the multiset multiplicity |
| Dashboard.BumpLookup | src/pages/Dashboard.tsx:146 | one reduce step increments only its key |
| Dashboard.CountedLookup | src/pages/Dashboard.tsx:145-148 | each key's count is its number of occurrences, and it is absent iff that number is 0 |
| Dashboard.CountedUnique | src/pages/Dashboard.tsx:145-148 | each distinct value appears once |
| Dashboard.TotalAfterAssign | src/pages/Dashboard.tsx:146 | the sum of counts changes by the difference at the assigned key |
| Dashboard.CountedTotal | src/pages/Dashboard.tsx:145-158 | the counts sum to the number of logs |
| Dashboard.CountBy | src/pages/Dashboard.tsx:145-158 | the accumulator loop computes `Counted` of the projected values |
| Dashboard.TallyCounts | src/pages/Dashboard.tsx:145-159 | a tally sums to the number of keys, has unique keys and counts each key's occurrences |
| Dashboard.StatsShape | src/pages/Dashboard.tsx:141-171 | the stats of non-empty logs hold n, each field's tally and the first min(10, n) logs |
| Dashboard.StatsAreCounts | src/pages/Dashboard.tsx:141-171 | no stats iff there are no logs; `totalLogs` is n; each breakdown sums to n, has unique keys and counts occurrences; recent activity is the first min(10, n) logs in order |
| Dashboard.UnknownTagsAreDefault | src/pages/Dashboard.tsx:251-277 | an action or level outside its table maps to `default` |
| Dashboard.TableColor | src/pages/Dashboard.tsx:262 | a table entry with a non-empty colour maps to that colour |
| Dashboard.KnownTagColors | src/pages/Dashboard.tsx:251-277 | every listed action and level maps to its colour |
| Dashboard.StatusColors | src/pages/Dashboard.tsx:265-267 | SUCCESS→success, FAILURE→error, and anything else→warning, each as an iff |
| Dashboard.FilterNamesDistinct | src/pages/Dashboard.tsx:88-96 | the seven filter names are pairwise distinct |
| Dashboard.EmptyFiltersAreEmpty | src/pages/Dashboard.tsx:88-96 | the filters are exactly the seven named keys, each `''` |
| Dashboard.Panel.constructor | src/pages/Dashboard.tsx:83-96 | no logs, no stats, page 1, page size 20, and empty filters |
| Dashboard.Panel.GenerateStatsFromLogs | src/pages/Dashboard.tsx:141-171 | empty logs leave the stats untouched; otherwise the stats are `StatsFromLogs` |
| Dashboard.Panel.HandleFilterChange | src/pages/Dashboard.tsx:210-212 | only the one filter key changes, to the value given, which is `undefined` when an `allowClear` dropdown is cleared |
| Dashboard.ClearedFilterSendsSameQuery | src/pages/Dashboard.tsx:499-535 | clearing a dropdown (`undefined`) sends the same audit query pairs as choosing the empty text |
| Dashboard.DroppedValuesSendSameQuery | src/services/auditLogService.ts:126-130 | putting either of two values the query drops under a key gives the same query pairs |
| Dashboard.Panel.HandleSearch | src/pages/Dashboard.tsx:214-217 | only the page changes, to 1 |
| Dashboard.Panel.HandleReset | src/pages/Dashboard.tsx:219-231 | all seven filters become `''` and the page becomes 1 |
| Dashboard.Panel.PageChanged | src/pages/Dashboard.tsx:363-366 | the page and page size become the given ones |
| BookService.HeadersShape | src/services/bookService.ts:13-26 | JSON Content-Type and Accept always; `Authorization: Bearer <t>` iff the token is truthy; nothing else |
| BookService.JsonHeadersShape | src/services/bookService.ts:16-19 | the base headers are JSON Content-Type and Accept, in that order, without Authorization |
| BookService.AuthHeaderLookup | src/services/bookService.ts:13-26 | what each header name looks up for a given token |
| BookService.AuthHeaderKeys | src/services/bookService.ts:13-26 | with a truthy token the header names are Content-Type, Accept, Authorization |
| BookService.GetAuthHeaders | src/services/bookService.ts:13-26 | the headers for the store's current access token |
| BookService.HeadersObject | src/services/bookService.ts:35 | the headers as a JSON object, entry by entry |
| BookService.DefaultsShape | src/services/bookService.ts:32-36 | the defaults are mode cors, credentials include, and the headers |
| BookService.CallerOptionsWin | src/services/bookService.ts:28-40 | every option the caller gives wins, and each default is kept where the caller is silent |
| BookService.SameTriggerAsInterceptor | src/services/bookService.ts:42-70 | the handler's effects are the interceptor's: logout then redirect iff non-ok and 498, followed by the session-expired error |
| BookService.FailureMessages | src/services/bookService.ts:63-64 | a non-ok non-498 throws `body.message`, or `HTTP error! status: N` when it is empty, missing or unreadable |
| BookService.ServerMessagesSurface | src/services/bookService.ts:63-64 | a 500 or 404 with a message throws that message |
| BookService.HandleResponseOn | src/services/bookService.ts:42-70 | the outcome is `HandleResponse`'s, and the store and window change exactly as its effects say |
| BookService.DeleteIgnoresSentinel | src/services/bookService.ts:153-163 | a 498 on delete causes no logout and a plain HTTP error, unlike the shared handler |
| BookService.PagingShape | src/services/bookService.ts:78-86 | the paging part is sortBy, sortDir, page and limit, in that order and with the given values |
| BookService.PagingUnique | src/services/bookService.ts:78-86 | the four paging keys are distinct |
| BookService.PagingLookup | src/services/bookService.ts:78-86 | what each key looks up in the paging part |
| BookService.QueryCarriesPaging | src/services/bookService.ts:78-86 | the query always carries the four paging values, which win on a clash |
| BookService.QueryKeepsFilters | src/services/bookService.ts:78-86 | every other key keeps the filter's value |
| BookService.QueryAppendsPaging | src/services/bookService.ts:78-86 | without a clash, the query is the filters followed by the four paging entries |
| BookService.DefaultSearch | src/services/bookService.ts:72-86 | the defaults are title/asc/page 1/limit 10 |
| BookService.UnwrapEnvelope | src/services/bookService.ts:94 | `responseData.data` if truthy, else the whole body; a null body throws |
| BookService.ListsOnlyFromArrays | src/services/bookService.ts:175-177 | genres and publishers are the data only if it is an array, else `[]` |
| BookService.PriceConversion | src/services/bookService.ts:110-113 | a missing or numeric price leaves the body unchanged, `true` becomes 1 as `Number(true)` does, and other keys are untouched |
| BookService.CreateHeadersAreAuthHeaders | src/services/bookService.ts:116-119 | re-setting Content-Type leaves the auth headers unchanged |
| AuditLogService.FirstMatchFrom | src/services/auditLogService.ts:81 | the first index at or after i where the pattern occurs, if any |
| AuditLogService.FirstMatchIs | src/services/auditLogService.ts:81 | an occurrence with none before it is the first |
| AuditLogService.ReplaceFirst | src/services/auditLogService.ts:81 | `String.replace` with a string pattern: only the first occurrence is replaced, and no occurrence leaves the string alone |
| AuditLogService.TrailingSegmentIsFirst | src/services/auditLogService.ts:81 | without an inner `/books`, the first match is the trailing one |
| AuditLogService.BaseUrlWithoutInnerSegment | src/services/auditLogService.ts:81 | then the base URL is `<apiBase>/audit-logs` |
| AuditLogService.ReplaceAtStart | src/services/auditLogService.ts:81 | a pattern at the start of the text is the occurrence replaced |
| AuditLogService.LeadingSegmentReplaced | src/services/auditLogService.ts:81 | for an API base `/books<rest>` the base URL is `/audit-logs<rest>/books` |
| AuditLogService.BaseUrlRewritesLeadingSegment | src/services/auditLogService.ts:81 | for every API base starting with `/books` the written base URL differs from the intended sibling |
| AuditLogService.BaseUrlRewritesInnerSegment | src/services/auditLogService.ts:81 | `/bookstore/v1` gives `/audit-logstore/v1/books`, which is not the audit endpoint |
| AuditLogService.IntendedIsSibling | src/services/auditLogService.ts:81 | replacing the trailing segment always gives `<apiBase>/audit-logs`, and agrees with the code when there is no inner segment |
| AuditLogService.AuditHeadersShape | src/services/auditLogService.ts:83-89 | Authorization iff the token is truthy, with the same value as the book service's, and no other header |
| AuditLogService.AuditHeaderLookup | src/services/auditLogService.ts:83-89 | a header name looks up `Bearer <t>` for Authorization with a truthy token, and nothing otherwise |
| AuditLogService.GetAuthHeaders | src/services/auditLogService.ts:83-89 | the headers for the store's current token |
| AuditLogService.KeptPairsAppend | src/services/auditLogService.ts:126-130 | filtering distributes over concatenation |
| AuditLogService.KeptPairsMembers | src/services/auditLogService.ts:126-130 | a pair is sent iff some entry has that key, is not undefined, null or `''`, and stringifies to that value |
| AuditLogService.FalsyNumbersAndFlagsKept | src/services/auditLogService.ts:127 | `0` and `false` are kept, and `''`, null and undefined are dropped, in order |
| AuditLogService.QueryPairs | src/services/auditLogService.ts:124-130 | the loop appends exactly `KeptPairs(filters)`, in insertion order |
| AuditLogService.AuditHandlerContract | src/services/auditLogService.ts:91-120 | a 498 logs out, redirects and throws the session-expired error; other failures throw `message` or the HTTP error; success returns the body |
| AuditLogService.ExportOutcome | src/services/auditLogService.ts:235-237 | export never logs out, and throws iff the response is not ok |
| AuditLogService.ExportIgnoresSentinel | src/services/auditLogService.ts:235-237 | a 498 on export is a plain HTTP error independent of the body, unlike the shared handler |
| AuditLogService.Service.constructor | src/services/auditLogService.ts:81 | the base URL is the one the code builds (first `/books` replaced), which is `<apiBase>/audit-logs` whenever the API base has no `/books` of its own |
| AuditLogService.Service.GetLogs | src/services/auditLogService.ts:122-142 | the request goes to the base URL with the kept pairs and auth headers, and the reply goes through the shared handler |
| AuditLogService.Service.ExportLogs | src/services/auditLogService.ts:219-254 | the request goes to `/export` with the same pairs and headers, and the reply goes through `ExportOutcome` |
| ImageFallback.ChainSettles | src/hooks/useImageWithFallback.ts:37-63 | a chain ends with loading cleared; every load before the last failed; success shows the last URL with attempts 0 and no error; failure sets the error and null src with no fallback left |
| ImageFallback.ChainStops | src/hooks/useImageWithFallback.ts:37-63 | a successful load, or a failed one with no retry and no fallback left, ends the chain with that state |
| ImageFallback.ChainRetries | src/hooks/useImageWithFallback.ts:47-51 | a failed load with retries left continues on the same URL with the next attempt |
| ImageFallback.ChainFallsBack | src/hooks/useImageWithFallback.ts:52-54 | a failed last attempt continues on the fallback from attempt 0 |
| ImageFallback.ChainUrls | src/hooks/useImageWithFallback.ts:48-55 | the URL is loaded `retryAttempts + 1` times, and only then the fallback, from attempt 0, if it exists and differs |
| ImageFallback.ChainIsBounded | src/hooks/useImageWithFallback.ts:48-58 | at most `2·(retryAttempts + 1)` loads; by default at most 6, with the URL itself at most 3 times |
| ImageFallback.AfterEffect | src/hooks/useImageWithFallback.ts:72-80 | no src gives null src, no error and not loading; a first load that succeeds shows src |
| ImageFallback.AfterRetry | src/hooks/useImageWithFallback.ts:65-70 | no src does nothing; otherwise the chain settles with the error iff no image is shown |
| ImageFallback.Loader.constructor | src/hooks/useImageWithFallback.ts:17-26 | the options are kept, and the state starts null, with no error and attempts 0 |
| ImageFallback.Loader.TryLoadImage | src/hooks/useImageWithFallback.ts:37-63 | the loop ends in the state `Chain` gives and loads the URLs it lists |
| ImageFallback.Loader.RunEffect | src/hooks/useImageWithFallback.ts:72-80 | the new state is `AfterEffect` |
| ImageFallback.Loader.OptionsChanged | src/hooks/useImageWithFallback.ts:72-80 | the options are replaced and the effect reruns |
| ImageFallback.Loader.Retry | src/hooks/useImageWithFallback.ts:65-70 | the new state is `AfterRetry` |
| Common.Trim | src/components/BookForm.tsx:78 | `String.prototype.trim`: the result is the factor of the input left once the white space before and after it is removed, and it neither starts nor ends with white space |
| Common.TrimmedFactor | src/components/BookForm.tsx:78 | removing white space from the start and then from the end leaves a factor of the input with only white space before and after it |
| Common.TrimEmptyIff | src/components/BookForm.tsx:82 | a string trims to empty iff every unit is trimmable |
| Common.LookupPresent | src/components/BookForm.tsx:99 | a key looks something up iff it is one of the object's keys |
| Common.Assign | src/components/BookForm.tsx:99 | `{ ...o, [k]: v }`: k maps to v, other keys are unchanged, and an existing key keeps its position, while a new one is appended |
| Common.SpreadLookup | src/services/bookService.ts:38 | in `{ ...o, ...p }`, p's keys win and o's other keys are kept |
| Common.SpreadAppends | src/services/bookService.ts:78-86 | spreading disjoint keys appends them in order |

## Left out

- Network and browser I/O: `fetch`, `response.json()`, URLSearchParams percent-encoding,
  FileReader previews, `Image` loading, blob/CSV downloads and `window.location` are
  modelled as inputs (a `Reply`, an `ok` outcome function, an upload result) or as emitted
  effects. The exported files' content is not modelled.
- Foreign libraries: `jwtDecode` is the parameter `decode`. The zustand `persist`
  middleware is the `storage` map. Antd's own form rules (`required`, `type: 'email'`) are
  library behaviour and are not modelled. `Number(...)` on form values is the parameter
  `numberOf`.
- Login.readSession: turning the JSON session into the store's typed session is a
  parameter. The JSON parse is outside the model.
- Floats and time: `Date.now() / 1000` is compared as `exp * 1000 < nowMs`, on integers.
  Prices are integers. The dashboard's progress percentages and the locale/date formatting
  are not modelled.
- Timing and React scheduling: the 500 ms debounce, the retry delay, effect ordering and
  stale closures (e.g. `fetchLogs` after `handleSearch`) are not modelled. Each handler runs
  to completion on the state it sees.
- ImageFallback.Loader.TryLoadImage: a retry chain runs to its end before anything else
  happens. Two chains that overlap in time (a `src` change while retries are pending) are
  not modelled.
- Console logging and `message.success`/`warning`/`error` toasts are not modelled.
- The other audit endpoints (inventory logs, statistics, actions, delete-all, cleanup, a
  single log, filter options) are not modelled. They reuse the base URL, headers, query
  loop and handler that are modelled. `exportInventoryLogs` shares `ExportOutcome`.
- The book service's other calls (`getBookById`, exports, image upload) and the body of
  `updateBook` are not modelled, beyond the headers and unwrapping they share.
- JavaScript objects are insertion-ordered pairs. Integer-like keys, which JavaScript
  orders first, and prototype properties are not modelled.
- BookList.ShowPagination: `totalPages > 1` is stated as a definition, with no separate
  property.
- Login.LoginForm.HandleSubmit: it follows the code as written (`Submit`), so it can log the
  store in without a session. The corrected handler is `SubmitChecked` (see Findings).
- Status 498 is an application convention, not a standard status code. The XOR stage is
  obfuscation, and no security property is claimed for it.

## Findings

| source | as written | input that shows it | evidently intended | confidence | as-written member | corrected member |
|---|---|---|---|---|---|---|
| src/views/common/Login.tsx:76-78 | `setSession(data.data?.session \|\| data.session)` runs on every ok response, so a body with neither field stores `undefined` with `isLoggedIn: true` (the same code is in src/pages/auth/login.tsx:77-79) | an ok response whose body is `{}` | set the session only when one was returned, so that `isLoggedIn <==> session != null` is kept | not executed | Login.MissingSessionBreaksInvariant | Login.CheckedKeepsInvariant |
| src/services/auditLogService.ts:81 | the books URL's first `/books` is replaced by `/audit-logs` | an API base of `/bookstore/v1` gives `/audit-logstore/v1/books` | the sibling endpoint `<apiBase>/audit-logs`, replacing the trailing segment | not executed | AuditLogService.BaseUrlRewritesInnerSegment | AuditLogService.IntendedIsSibling |
