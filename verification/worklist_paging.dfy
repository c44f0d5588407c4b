/**
 * Paging and row state of the work list: the guard on moving to a later
 * page, the offsets of the page inside the current window of at most 101
 * studies, the page-number reset on every filter update, and the set of
 * expanded rows.
 *
 * The page arithmetic divides 101 by the page size, so a size of zero
 * gives Infinity and a size above 101 gives 0 (and the remainder by 0 is
 * NaN); both cases are written out below.
 */
module WorkListPaging {
  import opened Options
  import opened WorkListTypes
  import opened WorkListQuery

  /** The number of studies the work list loads at a time. */
  const StudiesLimit := 101

  /** `Math.floor(a / b)` for a non-zero integer divisor. */
  function FloorDiv(a: int, b: int): (q: int)
    requires b != 0
    ensures b > 0 ==> q * b <= a < q * b + b
    ensures b < 0 ==> q * b >= a > q * b + b
  {
    if b > 0 then a / b else (-a) / (-b)
  }

  /** JavaScript's `a % b` on integers: the remainder takes the sign of `a`. */
  function JsRem(a: int, b: int): (r: int)
    requires b != 0
    ensures a >= 0 ==> 0 <= r < if b > 0 then b else -b
    ensures a < 0 ==> 0 >= r > if b > 0 then -b else b
    ensures (a - r) % (if b > 0 then b else -b) == 0
  {
    var m := if b > 0 then b else -b;
    var r := if a >= 0 then a % m else -((-a) % m);
    if a >= 0 then
      DivModUnique(a - r, m, a / m, 0);
      r
    else
      DivModUnique(a - r, m, -((-a) / m), 0);
      r
  }

  function Max(a: int, b: int): int
  {
    if a > b then a else b
  }

  /**
   * `hasNextPage` in `onPageNumberChange`: whether the rows up to the
   * current page, counted inside the rolling window, are fewer than the
   * total.
   */
  function HasNextPage(oldPageNumber: int, resultsPerPage: int, numOfStudies: nat): bool
  {
    if resultsPerPage == 0 then
      // 101 / 0 is Infinity, p % Infinity is p, and max(p, 1) * 0 is 0.
      0 < numOfStudies
    else
      var rollingPageNumberMod := FloorDiv(StudiesLimit, resultsPerPage);
      if rollingPageNumberMod == 0 then
        // p % 0 is NaN, and a comparison with NaN is false.
        false
      else
        Max(JsRem(oldPageNumber, rollingPageNumberMod), 1) * resultsPerPage < numOfStudies
  }

  lemma MulMonotone(a: int, b: int, c: int)
    requires a <= b && c >= 0
    ensures a * c <= b * c
  {
  }

  /** Quotient and remainder are determined by `a == m * q + r` with `0 <= r < m`. */
  lemma DivModUnique(a: int, m: int, q: int, r: int)
    requires m > 0 && a == m * q + r && 0 <= r < m
    ensures a / m == q && a % m == r
  {
    var q0, r0 := a / m, a % m;
    assert a == m * q0 + r0;
    if q0 > q {
      MulMonotone(q + 1, q0, m);
      assert false;
    } else if q0 < q {
      MulMonotone(q0 + 1, q, m);
      assert false;
    }
  }

  /** Inside the first window, a next page is allowed exactly when rows remain after this page. */
  lemma HasNextPageFirstWindow(oldPageNumber: int, resultsPerPage: int, numOfStudies: nat)
    requires 1 <= resultsPerPage <= StudiesLimit
    requires 1 <= oldPageNumber < StudiesLimit / resultsPerPage
    ensures HasNextPage(oldPageNumber, resultsPerPage, numOfStudies) <==> oldPageNumber * resultsPerPage < numOfStudies
  {
    DivModUnique(oldPageNumber, StudiesLimit / resultsPerPage, 0, oldPageNumber);
  }

  /** At the end of a window the count restarts: only one page of rows needs to remain. */
  lemma HasNextPageAtWindowEnd(oldPageNumber: int, resultsPerPage: int, numOfStudies: nat)
    requires 1 <= resultsPerPage <= StudiesLimit && oldPageNumber >= 0
    requires oldPageNumber % (StudiesLimit / resultsPerPage) == 0
    ensures HasNextPage(oldPageNumber, resultsPerPage, numOfStudies) <==> resultsPerPage < numOfStudies
  {
  }

  /** A page size above the limit never lets the user move forward. */
  lemma NoNextPageForLargePageSize(oldPageNumber: int, resultsPerPage: int, numOfStudies: nat)
    requires resultsPerPage > StudiesLimit
    ensures !HasNextPage(oldPageNumber, resultsPerPage, numOfStudies)
  {
  }

  /** A negative page size always lets the user move forward. */
  lemma NextPageForNegativePageSize(oldPageNumber: int, resultsPerPage: int, numOfStudies: nat)
    requires resultsPerPage < 0
    ensures HasNextPage(oldPageNumber, resultsPerPage, numOfStudies)
  {
    var m := Max(JsRem(oldPageNumber, FloorDiv(StudiesLimit, resultsPerPage)), 1);
    MulMonotone(1, m, -resultsPerPage);
  }

  /** `offset` and `offsetAndTake`, or NaN when the remainder is by zero. */
  datatype Window = Window(offset: int, offsetAndTake: int) | NotANumber

  /** The offsets of page `pageNumber` inside the current window of 101 studies. */
  function RollingWindow(pageNumber: int, resultsPerPage: int): Window
  {
    if resultsPerPage == 0 then
      // (p - 1) % Infinity is p - 1, and 0 times it is 0.
      Window(0, 0)
    else
      var rollingPageNumberMod := FloorDiv(StudiesLimit, resultsPerPage);
      if rollingPageNumberMod == 0 then NotANumber
      else
        var rollingPageNumber := JsRem(pageNumber - 1, rollingPageNumberMod);
        var offset := resultsPerPage * rollingPageNumber;
        Window(offset, offset + resultsPerPage)
  }

  /** For a page size up to the limit, the page lies inside the window of 101 studies. */
  lemma WindowWithinLimit(pageNumber: int, resultsPerPage: int)
    requires 1 <= resultsPerPage <= StudiesLimit && pageNumber >= 1
    ensures var w := RollingWindow(pageNumber, resultsPerPage);
            w.Window? && 0 <= w.offset && w.offset % resultsPerPage == 0 &&
            w.offsetAndTake == w.offset + resultsPerPage && w.offsetAndTake <= StudiesLimit
  {
    var mod := FloorDiv(StudiesLimit, resultsPerPage);
    if mod <= 0 {
      MulMonotone(mod, 0, resultsPerPage);
      assert false;
    }
    var rolling := JsRem(pageNumber - 1, mod);
    MulMonotone(0, rolling, resultsPerPage);
    MulMonotone(rolling + 1, mod, resultsPerPage);
    DivModUnique(resultsPerPage * rolling, resultsPerPage, rolling, 0);
  }

  /** Consecutive pages inside one window are adjacent: one starts where the other ends. */
  lemma WindowsAdjoin(pageNumber: int, resultsPerPage: int)
    requires 1 <= resultsPerPage <= StudiesLimit && pageNumber >= 1
    requires pageNumber % (StudiesLimit / resultsPerPage) != 0
    ensures RollingWindow(pageNumber + 1, resultsPerPage).offset == RollingWindow(pageNumber, resultsPerPage).offsetAndTake
  {
    var mod := StudiesLimit / resultsPerPage;
    var q := (pageNumber - 1) / mod;
    var r := (pageNumber - 1) % mod;
    assert pageNumber - 1 == mod * q + r;
    if r + 1 == mod {
      DivModUnique(pageNumber, mod, q + 1, 0);
    }
    DivModUnique(pageNumber, mod, q, r + 1);
  }

  /** A page size above the limit leaves the offsets NaN. */
  lemma WindowNaNForLargePageSize(pageNumber: int, resultsPerPage: int)
    requires resultsPerPage > StudiesLimit
    ensures RollingWindow(pageNumber, resultsPerPage) == NotANumber
  {
  }

  /** `updateFilterValues`: a value that keeps the current page number goes back to page 1. */
  function Reconciled(current: FilterValues, val: FilterValues): (r: FilterValues)
    ensures r.pageNumber == (if val.pageNumber == current.pageNumber then 1 else val.pageNumber)
    ensures r.(pageNumber := val.pageNumber) == val
  {
    if current.pageNumber == val.pageNumber then val.(pageNumber := 1) else val
  }

  /**
   * An update that leaves the page number as it is (a filter change, say)
   * goes back to page 1 and keeps every other field; only a different page
   * number is kept.
   */
  lemma SamePageGoesToFirst(current: FilterValues, val: FilterValues)
    ensures val.pageNumber == current.pageNumber ==> Reconciled(current, val) == val.(pageNumber := 1)
    ensures val.pageNumber != current.pageNumber ==> Reconciled(current, val) == val
  {
    var r := Reconciled(current, val);
    assert r.(pageNumber := val.pageNumber) == val;
  }

  /** `onClickRow`: an expanded row is collapsed, any other row is appended. */
  function ToggleRow(rows: seq<int>, rowKey: int): (r: seq<int>)
    ensures rowKey in r <==> rowKey !in rows
    ensures forall k :: k != rowKey ==> (k in r <==> k in rows)
  {
    if rowKey in rows then Without(rows, rowKey) else rows + [rowKey]
  }

  /** `rows.filter(n => n !== k)`. */
  function Without(rows: seq<int>, k: int): (r: seq<int>)
    ensures forall x :: x in r <==> x in rows && x != k
    ensures rows == r <== k !in rows
  {
    if rows == [] then []
    else
      var rest := Without(rows[1..], k);
      assert rows == [rows[0]] + rows[1..];
      if rows[0] == k then rest else [rows[0]] + rest
  }

  /** Expanding a collapsed row and clicking it again restores the list. */
  lemma ToggleTwice(rows: seq<int>, rowKey: int)
    requires rowKey !in rows
    ensures ToggleRow(ToggleRow(rows, rowKey), rowKey) == rows
  {
    WithoutLast(rows, rowKey);
  }

  lemma {:induction false} WithoutLast(rows: seq<int>, k: int)
    requires k !in rows
    ensures Without(rows + [k], k) == rows
    decreases |rows|
  {
    if rows == [] {
      assert [k][1..] == [];
    } else {
      assert (rows + [k])[1..] == rows[1..] + [k];
      WithoutLast(rows[1..], k);
    }
  }

  /**
   * The work list's state: the filter state it shows, the copy it keeps in
   * session storage, and the keys (1-based row numbers) of the expanded
   * rows.
   */
  class WorkListState {
    var filterValues: FilterValues
    var sessionFilterValues: FilterValues
    var expandedRows: seq<int>

    /**
     * The shown filter state starts from the defaults; session storage
     * starts from the state read from the query.
     */
    constructor(query: Query)
      ensures filterValues == DefaultFilterValues()
      ensures sessionFilterValues == QueryFilterValues(LowerKeyed(query))
      ensures expandedRows == []
    {
      var queryFilterValues := GetQueryFilterValues(query);
      sessionFilterValues := queryFilterValues;
      filterValues := DefaultFilterValues();
      expandedRows := [];
    }

    /** Stores a new filter state (page 1 if the page number did not change) and collapses every row. */
    method UpdateFilterValues(val: FilterValues)
      modifies this
      ensures filterValues == Reconciled(old(filterValues), val)
      ensures sessionFilterValues == filterValues
      ensures expandedRows == []
    {
      var v := val;
      if filterValues.pageNumber == v.pageNumber {
        v := v.(pageNumber := 1);
      }
      filterValues := v;
      sessionFilterValues := v;
      expandedRows := [];
    }

    /** Moves to another page, unless it is a later page and no next page exists. */
    method OnPageNumberChange(newPageNumber: int, numOfStudies: nat)
      modifies this
      ensures var oldPageNumber := old(filterValues.pageNumber);
              if newPageNumber > oldPageNumber && !HasNextPage(oldPageNumber, old(filterValues.resultsPerPage), numOfStudies)
              then filterValues == old(filterValues) && sessionFilterValues == old(sessionFilterValues) &&
                   expandedRows == old(expandedRows)
              else filterValues == Reconciled(old(filterValues), old(filterValues).(pageNumber := newPageNumber)) &&
                   sessionFilterValues == filterValues && expandedRows == []
    {
      var oldPageNumber := filterValues.pageNumber;
      var isNextPage := newPageNumber > oldPageNumber;
      var hasNextPage := HasNextPage(oldPageNumber, filterValues.resultsPerPage, numOfStudies);
      if isNextPage && !hasNextPage {
        return;
      }
      UpdateFilterValues(filterValues.(pageNumber := newPageNumber));
    }

    /** A new page size always starts again from page 1. */
    method OnResultsPerPageChange(newResultsPerPage: int)
      modifies this
      ensures filterValues == old(filterValues).(pageNumber := 1, resultsPerPage := newResultsPerPage)
      ensures sessionFilterValues == filterValues
      ensures expandedRows == []
    {
      UpdateFilterValues(filterValues.(pageNumber := 1, resultsPerPage := newResultsPerPage));
    }

    /** Expands or collapses row `rowKey`; the filter state is untouched. */
    method OnClickRow(rowKey: int)
      modifies this
      ensures expandedRows == ToggleRow(old(expandedRows), rowKey)
      ensures filterValues == old(filterValues) && sessionFilterValues == old(sessionFilterValues)
    {
      var isExpanded := rowKey in expandedRows;
      expandedRows := if isExpanded then Without(expandedRows, rowKey) else expandedRows + [rowKey];
    }
  }
}
