/** The catalogue page (src/pages/BookList.tsx): the query state (filters, sort,
    pagination) and its transitions, the `loadingRef` guard around loading a page of books,
    and the book form's open/edit/submit/cancel state. The pure functions give each
    transition on the whole page state; the class `Catalogue` performs them in place. */
module BookList {
  import opened Common
  import BookFilters
  import BookSorting

  datatype Book = Book(id: string, title: string, author: string, publisher: string,
                       price: int, availability: bool, genre: string)

  datatype Pagination = Pagination(page: int, limit: int)

  /** The page's state. */
  datatype ListState = ListState(
    filters: BookFilters.Filters,
    sort: BookSorting.Sort,
    pagination: Pagination,
    loadingRef: bool,
    loading: bool,
    error: Option<string>,
    books: seq<Book>,
    totalItems: int,
    totalPages: int,
    showForm: bool,
    editing: Option<Book>,
    formLoading: bool)

  const InitialFilters: BookFilters.Filters := []
  const InitialSort: BookSorting.Sort := BookSorting.Sort("title", BookSorting.Asc)
  const InitialPagination: Pagination := Pagination(1, 10)

  const Initial: ListState :=
    ListState(InitialFilters, InitialSort, InitialPagination, false, true, None, [], 0, 0, false, None, false)

  const LoadError: string := "Error al cargar los libros"

  /** The entries `JSON.stringify` writes: those whose value is not `undefined`, in order. */
  function Serialized(f: BookFilters.Filters): (r: BookFilters.Filters)
    ensures |r| <= |f|
    ensures forall i :: 0 <= i < |r| ==> !r[i].1.Undefined?
    ensures (forall i :: 0 <= i < |f| ==> !f[i].1.Undefined?) ==> r == f
  {
    if f == [] then []
    else if f[0].1.Undefined? then Serialized(f[1..])
    else [f[0]] + Serialized(f[1..])
  }

  /** `JSON.stringify(a) === JSON.stringify(b)`: the filter values are texts and flags, on
      which the JSON text determines the defined entries and their order, and conversely. */
  predicate SameJson(a: BookFilters.Filters, b: BookFilters.Filters) {
    Serialized(a) == Serialized(b)
  }

  /** `handleFiltersChange(newFilters)`: the filters are replaced only when their JSON texts
      differ, and the page goes back to 1 in every case, the limit kept. */
  function AfterFiltersChange(st: ListState, newFilters: BookFilters.Filters): (r: ListState)
    ensures SameJson(r.filters, newFilters)
    ensures SameJson(st.filters, newFilters) ==> r.filters == st.filters
    ensures !SameJson(st.filters, newFilters) ==> r.filters == newFilters
    ensures r.pagination == Pagination(1, st.pagination.limit)
    ensures r.(filters := st.filters, pagination := st.pagination) == st
  {
    var filters := if SameJson(st.filters, newFilters) then st.filters else newFilters;
    st.(filters := filters, pagination := st.pagination.(page := 1))
  }

  /** `{}` and `{ search: undefined }` are the same filters: changing one to the other keeps
      the old object, while reordering two defined keys counts as a change. */
  lemma UndefinedKeysIgnored(st: ListState, a: Js, b: Js)
    requires st.filters == [] && !a.Undefined? && !b.Undefined?
    ensures AfterFiltersChange(st, [("search", Undefined)]).filters == []
    ensures var ab := [("genre", a), ("author", b)];
      AfterFiltersChange(st.(filters := ab), [("author", b), ("genre", a)]).filters == [("author", b), ("genre", a)]
  {
    var ab := [("genre", a), ("author", b)];
    var ba := [("author", b), ("genre", a)];
    assert Serialized([("search", Undefined)]) == [];
    assert Serialized(ab) == ab;
    assert Serialized(ba) == ba;
    assert ab[0] != ba[0];
  }

  /** `handleSortChange(newSort)`: an identical field and direction keeps the old sort;
      the page goes back to 1 in every case. */
  function AfterSortChange(st: ListState, newSort: BookSorting.Sort): (r: ListState)
    ensures r.sort == newSort
    ensures r.pagination == Pagination(1, st.pagination.limit)
    ensures r.(sort := st.sort, pagination := st.pagination) == st
  {
    var sort := if st.sort.field == newSort.field && st.sort.direction == newSort.direction then st.sort else newSort;
    st.(sort := sort, pagination := st.pagination.(page := 1))
  }

  /** `handlePageChange(page)`: the current page changes nothing, any other page changes only
      the page. */
  function AfterPageChange(st: ListState, page: int): (r: ListState)
    ensures st.pagination.page == page ==> r == st
    ensures r.pagination == Pagination(page, st.pagination.limit)
    ensures r.(pagination := st.pagination) == st
  {
    if st.pagination.page == page then st else st.(pagination := st.pagination.(page := page))
  }

  /** `handleItemsPerPageChange(limit)`: the same limit changes nothing, a new one goes to
      page 1 with that limit. */
  function AfterItemsPerPageChange(st: ListState, limit: int): (r: ListState)
    ensures st.pagination.limit == limit ==> r == st
    ensures st.pagination.limit != limit ==> r.pagination == Pagination(1, limit)
    ensures r.pagination.limit == limit
    ensures r.(pagination := st.pagination) == st
  {
    if st.pagination.limit == limit then st else st.(pagination := Pagination(1, limit))
  }

  /** The query a load sends. */
  datatype Query = Query(filters: BookFilters.Filters, sort: BookSorting.Sort, pagination: Pagination)

  /** How `BookService.getBooks` settles. */
  datatype LoadOutcome = Loaded(books: seq<Book>, total: int, totalPages: int) | LoadFailed

  /** The first half of `loadBooks()`, up to the request: nothing while `loadingRef` is set;
      otherwise the flag is raised, `loading` set and the error cleared. */
  function AfterLoadStarted(st: ListState): (r: ListState)
    ensures st.loadingRef ==> r == st
    ensures !st.loadingRef ==> (r.loadingRef && r.loading && r.error.None? &&
      r.(loadingRef := st.loadingRef, loading := st.loading, error := st.error) == st)
  {
    if st.loadingRef then st else st.(loadingRef := true, loading := true, error := None)
  }

  /** The second half, once the request settled: the results or the error, and in the
      `finally` the flags are cleared on both outcomes. */
  function AfterLoadFinished(st: ListState, outcome: LoadOutcome): (r: ListState)
    ensures !r.loadingRef && !r.loading
    ensures outcome.Loaded? ==> (r.books == outcome.books && r.totalItems == outcome.total &&
      r.totalPages == outcome.totalPages && r.error == st.error)
    ensures outcome.LoadFailed? ==> (r.error == Some(LoadError) && r.books == st.books &&
      r.totalItems == st.totalItems && r.totalPages == st.totalPages)
    ensures r.filters == st.filters && r.sort == st.sort && r.pagination == st.pagination
    ensures r.showForm == st.showForm && r.editing == st.editing && r.formLoading == st.formLoading
  {
    var st1 := match outcome
      case Loaded(books, total, pages) => st.(books := books, totalItems := total, totalPages := pages)
      case LoadFailed => st.(error := Some(LoadError));
    st1.(loading := false, loadingRef := false)
  }

  /** The guard at work: a second load started while one is running does nothing, and after
      the running one settles, whatever its outcome, the next load starts again. */
  lemma LoadGuard(st: ListState, outcome: LoadOutcome)
    requires !st.loadingRef
    ensures var running := AfterLoadStarted(st);
      AfterLoadStarted(running) == running &&
      AfterLoadStarted(AfterLoadFinished(running, outcome)).loadingRef &&
      !AfterLoadFinished(AfterLoadStarted(running), outcome).loadingRef
  {
  }

  /** Any filter or sort request resets the page, even one that changes nothing else; a
      page request keeps the filters and sort the next load will send. */
  lemma RequestsResetPage(st: ListState, f: BookFilters.Filters, s: BookSorting.Sort, p: int)
    ensures AfterFiltersChange(st, f).pagination.page == 1
    ensures AfterFiltersChange(st, st.filters) == st.(pagination := Pagination(1, st.pagination.limit))
    ensures AfterSortChange(st, st.sort) == st.(pagination := Pagination(1, st.pagination.limit))
    ensures AfterPageChange(st, p).filters == st.filters && AfterPageChange(st, p).sort == st.sort
  {
  }

  /** `handleEditBook(book)`: the form opens on that book. */
  function AfterEdit(st: ListState, book: Book): (r: ListState)
    ensures r.editing == Some(book) && r.showForm
    ensures r.(editing := st.editing, showForm := st.showForm) == st
  {
    st.(editing := Some(book), showForm := true)
  }

  /** `handleFormCancel()`: the form closes and forgets the book. */
  function AfterFormCancel(st: ListState): (r: ListState)
    ensures !r.showForm && r.editing.None?
    ensures r.(showForm := st.showForm, editing := st.editing) == st
  {
    st.(showForm := false, editing := None)
  }

  /** Where `handleFormSubmit(bookData)` sends the data. */
  datatype Route = UpdateRoute(id: string) | CreateRoute

  function SubmitRoute(st: ListState): (r: Route)
    ensures r.UpdateRoute? <==> st.editing.Some?
    ensures r.UpdateRoute? ==> r.id == st.editing.value.id
  {
    match st.editing
    case Some(book) => UpdateRoute(book.id)
    case None => CreateRoute
  }

  /** `await loadBooks()` as the save handlers call it: skipped while `loadingRef` is set,
      otherwise a whole load that settles with `outcome`. */
  function Reloaded(st: ListState, outcome: LoadOutcome): (r: ListState)
    ensures st.loadingRef ==> r == st
    ensures !st.loadingRef ==> r == AfterLoadFinished(AfterLoadStarted(st), outcome)
  {
    if st.loadingRef then st else AfterLoadFinished(AfterLoadStarted(st), outcome)
  }

  /** `handleCreateBook` / `handleUpdateBook` once everything settled: `formLoading` is
      raised for the save and dropped in the `finally`. A successful save (`succeeded`)
      reloads the books with the current query, the reload settling with `reload`, and then
      closes the form; a failed one re-throws before the reload, leaving everything else as
      it was. */
  function AfterFormSaved(st: ListState, succeeded: bool, reload: LoadOutcome): (r: ListState)
    ensures !r.formLoading
    ensures r.filters == st.filters && r.sort == st.sort && r.pagination == st.pagination
    ensures !succeeded ==> r == st.(formLoading := false)
    ensures succeeded ==> !r.showForm && r.editing.None?
    ensures succeeded && !st.loadingRef ==> !r.loadingRef && !r.loading
    ensures succeeded && !st.loadingRef && reload.Loaded? ==>
      r.books == reload.books && r.totalItems == reload.total && r.totalPages == reload.totalPages && r.error.None?
    ensures succeeded && !st.loadingRef && reload.LoadFailed? ==>
      r.error == Some(LoadError) && r.books == st.books && r.totalItems == st.totalItems && r.totalPages == st.totalPages
    ensures succeeded && st.loadingRef ==>
      r == st.(showForm := false, editing := None, formLoading := false)
    ensures succeeded ==> r == AfterFormCancel(Reloaded(st.(formLoading := true), reload)).(formLoading := false)
  {
    var saving := st.(formLoading := true);
    var settled := if succeeded then AfterFormCancel(Reloaded(saving, reload)) else saving;
    settled.(formLoading := false)
  }

  /** Editing then submitting goes to the update of that book; cancelling forgets it, so a
      submit after that creates. */
  lemma EditThenSubmitOrCancel(st: ListState, book: Book, outcome: LoadOutcome)
    ensures SubmitRoute(AfterEdit(st, book)) == UpdateRoute(book.id)
    ensures SubmitRoute(AfterFormCancel(AfterEdit(st, book))) == CreateRoute
    ensures SubmitRoute(AfterFormSaved(AfterEdit(st, book), true, outcome)) == CreateRoute
  {
  }

  /** `totalPages > 1 && <BookPagination ... />`. */
  predicate ShowPagination(st: ListState) {
    st.totalPages > 1
  }

  /** The page itself. */
  class Catalogue {
    var filters: BookFilters.Filters
    var sort: BookSorting.Sort
    var pagination: Pagination
    var loadingRef: bool
    var loading: bool
    var error: Option<string>
    var books: seq<Book>
    var totalItems: int
    var totalPages: int
    var showForm: bool
    var editing: Option<Book>
    var formLoading: bool

    function Current(): ListState
      reads this
    {
      ListState(filters, sort, pagination, loadingRef, loading, error, books, totalItems, totalPages, showForm, editing, formLoading)
    }

    constructor()
      ensures Current() == Initial
    {
      filters, sort, pagination := InitialFilters, InitialSort, InitialPagination;
      loadingRef, loading, error := false, true, None;
      books, totalItems, totalPages := [], 0, 0;
      showForm, editing, formLoading := false, None, false;
    }

    method HandleFiltersChange(newFilters: BookFilters.Filters)
      modifies this
      ensures Current() == AfterFiltersChange(old(Current()), newFilters)
    {
      if Serialized(filters) != Serialized(newFilters) {
        filters := newFilters;
      }
      pagination := pagination.(page := 1);
    }

    method HandleSortChange(newSort: BookSorting.Sort)
      modifies this
      ensures Current() == AfterSortChange(old(Current()), newSort)
    {
      if !(sort.field == newSort.field && sort.direction == newSort.direction) {
        sort := newSort;
      }
      pagination := pagination.(page := 1);
    }

    method HandlePageChange(page: int)
      modifies this
      ensures Current() == AfterPageChange(old(Current()), page)
    {
      if pagination.page != page {
        pagination := pagination.(page := page);
      }
    }

    method HandleItemsPerPageChange(limit: int)
      modifies this
      ensures Current() == AfterItemsPerPageChange(old(Current()), limit)
    {
      if pagination.limit != limit {
        pagination := Pagination(1, limit);
      }
    }

    /** `loadBooks()` up to its `await`: the query sent, if the guard lets it through. */
    method StartLoad() returns (query: Option<Query>)
      modifies this
      ensures Current() == AfterLoadStarted(old(Current()))
      ensures query.Some? <==> !old(loadingRef)
      ensures query.Some? ==> query.value == Query(filters, sort, pagination)
    {
      if loadingRef {
        return None;
      }
      loadingRef := true;
      loading := true;
      error := None;
      query := Some(Query(filters, sort, pagination));
    }

    /** `loadBooks()` after its `await`, through the `finally`. */
    method FinishLoad(outcome: LoadOutcome)
      modifies this
      ensures Current() == AfterLoadFinished(old(Current()), outcome)
    {
      match outcome {
        case Loaded(b, total, pages) =>
          books, totalItems, totalPages := b, total, pages;
        case LoadFailed =>
          error := Some(LoadError);
      }
      loading := false;
      loadingRef := false;
    }

    method HandleEditBook(book: Book)
      modifies this
      ensures Current() == AfterEdit(old(Current()), book)
    {
      editing := Some(book);
      showForm := true;
    }

    method HandleFormCancel()
      modifies this
      ensures Current() == AfterFormCancel(old(Current()))
    {
      showForm := false;
      editing := None;
    }

    /** `handleFormSubmit(bookData)`: the route taken, the query the reload sends (if the
        save succeeded and the guard lets the reload through), and the page state once the
        service call settled with `succeeded` and the reload with `reload`. */
    method HandleFormSubmit(succeeded: bool, reload: LoadOutcome) returns (route: Route, query: Option<Query>)
      modifies this
      ensures route == SubmitRoute(old(Current()))
      ensures query.Some? <==> succeeded && !old(loadingRef)
      ensures query.Some? ==> query.value == Query(old(filters), old(sort), old(pagination))
      ensures Current() == AfterFormSaved(old(Current()), succeeded, reload)
    {
      if editing.Some? {
        route := UpdateRoute(editing.value.id);
      } else {
        route := CreateRoute;
      }
      formLoading := true;
      query := None;
      if succeeded {
        query := StartLoad();
        if query.Some? {
          FinishLoad(reload);
        }
        showForm := false;
        editing := None;
      }
      formLoading := false;
    }
  }
}
