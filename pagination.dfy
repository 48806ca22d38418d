/** The task table's pager (frontend/src/components/TaskTable/Pagination.js):
    the list of page numbers, the previous and next buttons, the
    "Showing x to y of n" text, and which page buttons and ellipses appear. */
module Pagination {

  /** `Math.ceil(total / perPage)`: the least number of pages of `perPage`
      items that hold `total` items, none for no items. */
  function PageCount(total: nat, perPage: nat): (n: nat)
    requires perPage > 0
    ensures n * perPage >= total
    ensures n > 0 ==> (n - 1) * perPage < total
    ensures n == 0 <==> total == 0
  {
    var n := (total + perPage - 1) / perPage;
    var r := (total + perPage - 1) % perPage;
    assert total + perPage - 1 == n * perPage + r;
    assert n * perPage == total + perPage - 1 - r;
    assert (n - 1) * perPage == n * perPage - perPage;
    n
  }

  /** The loop that builds `pageNumbers`: `1, 2, ..., PageCount`. */
  method PageNumbers(total: nat, perPage: nat) returns (pages: seq<int>)
    requires perPage > 0
    ensures |pages| == PageCount(total, perPage)
    ensures forall k :: 0 <= k < |pages| ==> pages[k] == k + 1
  {
    pages := [];
    var i := 1;
    while i <= PageCount(total, perPage)
      invariant 1 <= i <= PageCount(total, perPage) + 1
      invariant |pages| == i - 1
      invariant forall k :: 0 <= k < |pages| ==> pages[k] == k + 1
      decreases PageCount(total, perPage) + 1 - i
    {
      pages := pages + [i];
      i := i + 1;
    }
  }

  /** `handlePrevious`: the page the previous button leads to. */
  function Previous(current: int): int {
    if current > 1 then current - 1 else current
  }

  /** `handleNext`: the page the next button leads to. */
  function Next(current: int, pageCount: nat): int {
    if current < pageCount then current + 1 else current
  }

  /** Previous moves back by exactly one page unless on the first page, next
      forward by exactly one unless on the last; both stay among the pages. */
  lemma NavigationInRange(current: int, pageCount: nat)
    requires 1 <= current <= pageCount
    ensures 1 <= Previous(current) <= pageCount && 1 <= Next(current, pageCount) <= pageCount
    ensures Previous(current) != current <==> current > 1
    ensures Next(current, pageCount) != current <==> current < pageCount
    ensures Previous(current) >= current - 1 && Next(current, pageCount) <= current + 1
  {
  }

  /** The first number of the "Showing" text. */
  function ShowingFrom(current: int, perPage: nat): int {
    (current - 1) * perPage + 1
  }

  /** `Math.min(currentPage * tasksPerPage, totalTasks)`. */
  function ShowingTo(current: int, perPage: nat, total: nat): int {
    if current * perPage < total then current * perPage else total
  }

  /** On any page that exists, the text names a non-empty range of items
      inside `1..total` that holds at most `perPage` items. */
  lemma ShowingRange(current: int, perPage: nat, total: nat)
    requires perPage > 0 && 1 <= current <= PageCount(total, perPage)
    ensures 1 <= ShowingFrom(current, perPage) <= ShowingTo(current, perPage, total) <= total
    ensures ShowingTo(current, perPage, total) - ShowingFrom(current, perPage) < perPage
  {
    assert (current - 1) * perPage <= (PageCount(total, perPage) - 1) * perPage;
  }

  /** What the pager renders in place of one page number. */
  datatype PageItem = EllipsisBefore | EllipsisAfter | PageButton | NoItem

  /** `showPageNumber`: first, last, and within two of the current page. */
  predicate ShowPageNumber(number: int, current: int, pageCount: nat) {
    number == 1 || number == pageCount || (current - 2 <= number <= current + 2)
  }

  /** The `map` over `pageNumbers`: ellipses take precedence over numbers. */
  function ItemFor(number: int, current: int, pageCount: nat): (item: PageItem)
  {
    if number == current - 3 && current > 4 then EllipsisBefore
    else if number == current + 3 && current < pageCount - 3 then EllipsisAfter
    else if ShowPageNumber(number, current, pageCount) then PageButton
    else NoItem
  }

  /** While the current page exists: the first, last and current pages and
      the pages within two of it always have buttons, an ellipsis only ever
      stands for a page that would not have had one, and there is at most one
      ellipsis on each side. */
  lemma ItemsOnPager(number: int, current: int, pageCount: nat)
    requires 1 <= current <= pageCount && 1 <= number <= pageCount
    ensures ShowPageNumber(number, current, pageCount) <==> ItemFor(number, current, pageCount) == PageButton
    ensures ItemFor(number, current, pageCount) == EllipsisBefore ==> number == current - 3 && 1 < number
    ensures ItemFor(number, current, pageCount) == EllipsisAfter ==> number == current + 3 && number < pageCount
    ensures ItemFor(number, current, pageCount) == NoItem
            ==> (number < current - 3 && number > 1) || (number > current + 3 && number < pageCount)
  {
  }
}
