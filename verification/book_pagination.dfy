/** The pagination control of the catalogue (src/components/BookPagination.tsx): the list of
    page buttons with ellipses that `getPageNumbers` builds, the click handler, the
    "Mostrando a a b" range and the previous/next buttons. */
module BookPagination {
  import opened Common

  /** A button of the list: a page number or the `'...'` placeholder. */
  datatype PageItem = Page(n: int) | Ellipsis

  /** `maxVisiblePages`. */
  const MaxVisiblePages: int := 5

  /** The pages `lo, lo + 1, ..., hi`, as a `for` loop from `lo` to `hi` pushes them. */
  function Range(lo: int, hi: int): (r: seq<PageItem>)
    ensures |r| == if lo <= hi then hi - lo + 1 else 0
    ensures forall k :: 0 <= k < |r| ==> r[k] == Page(lo + k)
    decreases hi - lo
  {
    if lo > hi then [] else Range(lo, hi - 1) + [Page(hi)]
  }

  /** The list `getPageNumbers()` returns. */
  function PageNumbers(current: int, total: int): seq<PageItem> {
    if total <= MaxVisiblePages then Range(1, total)
    else if current <= 3 then Range(1, 4) + [Ellipsis, Page(total)]
    else if current >= total - 2 then [Page(1), Ellipsis] + Range(total - 3, total)
    else [Page(1), Ellipsis] + Range(current - 1, current + 1) + [Ellipsis, Page(total)]
  }

  /** `getPageNumbers()`, pushing onto `pages` as the component does. */
  method GetPageNumbers(current: int, total: int) returns (pages: seq<PageItem>)
    ensures pages == PageNumbers(current, total)
  {
    pages := [];
    if total <= MaxVisiblePages {
      var i := 1;
      while i <= total
        invariant 1 <= i && (i <= total + 1 || i == 1)
        invariant pages == Range(1, i - 1)
        decreases total - i
      {
        pages := pages + [Page(i)];
        i := i + 1;
      }
    } else if current <= 3 {
      var i := 1;
      while i <= 4
        invariant 1 <= i <= 5
        invariant pages == Range(1, i - 1)
      {
        pages := pages + [Page(i)];
        i := i + 1;
      }
      pages := pages + [Ellipsis];
      pages := pages + [Page(total)];
    } else if current >= total - 2 {
      pages := pages + [Page(1)];
      pages := pages + [Ellipsis];
      var i := total - 3;
      while i <= total
        invariant total - 3 <= i <= total + 1
        invariant pages == [Page(1), Ellipsis] + Range(total - 3, i - 1)
        decreases total - i
      {
        pages := pages + [Page(i)];
        i := i + 1;
      }
    } else {
      pages := pages + [Page(1)];
      pages := pages + [Ellipsis];
      var i := current - 1;
      while i <= current + 1
        invariant current - 1 <= i <= current + 2
        invariant pages == [Page(1), Ellipsis] + Range(current - 1, i - 1)
        decreases current + 1 - i
      {
        pages := pages + [Page(i)];
        i := i + 1;
      }
      pages := pages + [Ellipsis];
      pages := pages + [Page(total)];
    }
  }

  /** Neighbouring numbers are neighbouring pages, and an ellipsis sits between two numbers
      and stands for at least one page that is not shown. */
  predicate LocallyOrdered(items: seq<PageItem>) {
    && (forall i :: 0 <= i < |items| - 1 && items[i].Page? && items[i + 1].Page? ==>
          items[i + 1].n == items[i].n + 1)
    && (forall i :: 0 <= i < |items| && items[i].Ellipsis? ==>
          0 < i < |items| - 1 && items[i - 1].Page? && items[i + 1].Page? &&
          items[i + 1].n - items[i - 1].n >= 2)
  }

  /** The numbers of the list, taken pairwise, increase strictly. */
  predicate StrictlyIncreasing(items: seq<PageItem>) {
    forall i, j :: 0 <= i < j < |items| && items[i].Page? && items[j].Page? ==> items[i].n < items[j].n
  }

  /** Local order gives global order: a number is below every later number. */
  lemma {:induction false} LocalOrderIsGlobal(items: seq<PageItem>)
    requires LocallyOrdered(items)
    ensures StrictlyIncreasing(items)
  {
    forall i, j | 0 <= i < j < |items| && items[i].Page? && items[j].Page?
      ensures items[i].n < items[j].n
    {
      BelowLater(items, i, j);
    }
  }

  lemma {:induction false} BelowLater(items: seq<PageItem>, i: int, j: int)
    requires LocallyOrdered(items)
    requires 0 <= i < j < |items| && items[i].Page? && items[j].Page?
    ensures items[i].n < items[j].n
    decreases j - i
  {
    if items[i + 1].Page? {
      if i + 1 < j {
        BelowLater(items, i + 1, j);
      }
    } else {
      assert items[i + 2].Page?;
      if i + 2 < j {
        BelowLater(items, i + 2, j);
      }
    }
  }

  /** Up to five pages, the list is exactly the pages `1..total`, empty when `total <= 0`. */
  lemma FewPagesAllShown(current: int, total: int)
    requires total <= MaxVisiblePages
    ensures |PageNumbers(current, total)| == if total >= 1 then total else 0
    ensures forall k :: 0 <= k < |PageNumbers(current, total)| ==> PageNumbers(current, total)[k] == Page(k + 1)
    ensures total <= 0 ==> PageNumbers(current, total) == []
  {
  }

  /** Above five pages, the list starts with page 1, ends with the last page and has six or
      seven entries. */
  lemma ManyPagesShape(current: int, total: int)
    requires total > MaxVisiblePages
    ensures var items := PageNumbers(current, total);
      (|items| == 6 || |items| == 7) && items[0] == Page(1) && items[|items| - 1] == Page(total)
  {
  }

  /** Every list is well ordered: its numbers lie in `[1, total]` and increase strictly, and
      every ellipsis hides at least one page. */
  lemma PageNumbersOrdered(current: int, total: int)
    ensures var items := PageNumbers(current, total);
      LocallyOrdered(items) && StrictlyIncreasing(items) &&
      forall k :: 0 <= k < |items| && items[k].Page? ==> 1 <= items[k].n <= total
  {
    var items := PageNumbers(current, total);
    if total <= MaxVisiblePages {
    } else if current <= 3 {
      LeadingWindowOrdered(total);
    } else if current >= total - 2 {
      TrailingWindowOrdered(total);
    } else {
      MiddleWindowOrdered(current, total);
    }
    LocalOrderIsGlobal(items);
  }

  lemma LeadingWindowOrdered(total: int)
    requires total > MaxVisiblePages
    ensures var items := Range(1, 4) + [Ellipsis, Page(total)];
      LocallyOrdered(items) && forall k :: 0 <= k < |items| && items[k].Page? ==> 1 <= items[k].n <= total
  {
    assert Range(1, 4) == [Page(1), Page(2), Page(3), Page(4)];
  }

  lemma TrailingWindowOrdered(total: int)
    requires total > MaxVisiblePages
    ensures var items := [Page(1), Ellipsis] + Range(total - 3, total);
      LocallyOrdered(items) && forall k :: 0 <= k < |items| && items[k].Page? ==> 1 <= items[k].n <= total
  {
    assert Range(total - 3, total) == [Page(total - 3), Page(total - 2), Page(total - 1), Page(total)];
  }

  lemma MiddleWindowOrdered(current: int, total: int)
    requires total > MaxVisiblePages && 3 < current < total - 2
    ensures var items := [Page(1), Ellipsis] + Range(current - 1, current + 1) + [Ellipsis, Page(total)];
      LocallyOrdered(items) && forall k :: 0 <= k < |items| && items[k].Page? ==> 1 <= items[k].n <= total
  {
    var items := [Page(1), Ellipsis] + Range(current - 1, current + 1) + [Ellipsis, Page(total)];
    assert Range(current - 1, current + 1) == [Page(current - 1), Page(current), Page(current + 1)];
    SevenOrdered(items, current, total);
  }

  /** The seven entries around a middle page are locally ordered and within `[1, total]`. */
  lemma SevenOrdered(items: seq<PageItem>, current: int, total: int)
    requires items == [Page(1), Ellipsis, Page(current - 1), Page(current), Page(current + 1), Ellipsis, Page(total)]
    requires 3 < current < total - 2
    ensures LocallyOrdered(items) && forall k :: 0 <= k < |items| && items[k].Page? ==> 1 <= items[k].n <= total
  {
    forall i | 0 <= i < |items| - 1 && items[i].Page? && items[i + 1].Page?
      ensures items[i + 1].n == items[i].n + 1
    {
      assert i == 2 || i == 3;
    }
    forall i | 0 <= i < |items| && items[i].Ellipsis?
      ensures 0 < i < |items| - 1 && items[i - 1].Page? && items[i + 1].Page? && items[i + 1].n - items[i - 1].n >= 2
    {
      assert i == 1 || i == 5;
    }
  }

  /** A current page within `[1, total]` is always one of the buttons. */
  lemma CurrentPageShown(current: int, total: int)
    requires 1 <= current <= total
    ensures Page(current) in PageNumbers(current, total)
  {
    var items := PageNumbers(current, total);
    if total <= MaxVisiblePages {
      assert items[current - 1] == Page(current);
    } else if current <= 3 {
      assert items[current - 1] == Page(current);
    } else if current >= total - 2 {
      assert items[2 + current - (total - 3)] == Page(current);
    } else {
      assert items[3] == Page(current);
    }
  }

  /** `handlePageClick(page)`: the page a click asks for, if any. */
  function Click(item: PageItem): Option<int> {
    match item
    case Page(n) => Some(n)
    case Ellipsis => None
  }

  /** Clicking `'...'` asks for nothing; clicking a number asks for that page, which lies in
      `[1, total]`. */
  lemma ClickRequestsShownPage(current: int, total: int, k: int)
    requires 0 <= k < |PageNumbers(current, total)|
    ensures var item := PageNumbers(current, total)[k];
      (item.Ellipsis? <==> Click(item).None?) &&
      (item.Page? ==> Click(item) == Some(item.n) && 1 <= item.n <= total)
  {
    PageNumbersOrdered(current, total);
  }

  /** The first and last item numbers of "Mostrando a a b de total resultados". */
  function FirstShown(page: int, perPage: int): int {
    (page - 1) * perPage + 1
  }

  function LastShown(page: int, perPage: int, totalItems: int): int {
    if page * perPage <= totalItems then page * perPage else totalItems
  }

  /** On a page that holds items the range is non-empty, within `[1, totalItems]`, holds at
      most `perPage` items, and a full page's range ends right before the next page's. */
  lemma ShownRangeBounds(page: int, perPage: int, totalItems: int)
    requires page >= 1 && perPage >= 1 && (page - 1) * perPage < totalItems
    ensures 1 <= FirstShown(page, perPage) <= LastShown(page, perPage, totalItems) <= totalItems
    ensures LastShown(page, perPage, totalItems) - FirstShown(page, perPage) + 1 <= perPage
    ensures page * perPage < totalItems ==>
      LastShown(page, perPage, totalItems) + 1 == FirstShown(page + 1, perPage)
  {
    assert page * perPage == (page - 1) * perPage + perPage;
    assert (page - 1) * perPage >= 0;
  }

  /** What the previous and next buttons ask for: `None` when disabled. */
  function Previous(current: int): (r: Option<int>) {
    if current == 1 then None else Some(current - 1)
  }

  function Next(current: int, total: int): (r: Option<int>) {
    if current == total then None else Some(current + 1)
  }

  /** Previous is disabled exactly on the first page and next exactly on the last; from a
      page within `[1, total]` the enabled buttons ask for a page within `[1, total]`. */
  lemma StepButtons(current: int, total: int)
    requires 1 <= current <= total
    ensures Previous(current).None? <==> current == 1
    ensures Next(current, total).None? <==> current == total
    ensures Previous(current).Some? ==> Previous(current).value == current - 1 && 1 <= Previous(current).value
    ensures Next(current, total).Some? ==> Next(current, total).value == current + 1 && Next(current, total).value <= total
  {
  }
}
