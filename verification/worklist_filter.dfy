/**
 * `combinedStudies`: the backend rows narrowed by each active filter in a
 * fixed order (name or ID, description, accession, modality, date range,
 * source), sorted, then cut down to one page.
 */
module WorkListFilter {
  import opened Options
  import opened JsArrays
  import opened JsStrings
  import opened WorkListTypes
  import opened WorkListSort
  import opened WorkListRows

  /** The patient-name filter: the name or the ID contains the (lower-cased) term. */
  predicate NameOrIdMatches(row: Row, term: string)
  {
    (row.Name != "" && Contains(Lower(row.Name), term)) || (row.ID != "" && Contains(Lower(row.ID), term))
  }

  predicate DescriptionMatches(row: Row, term: string)
  {
    row.Description != "" && Contains(Lower(row.Description), term)
  }

  predicate AccessionMatches(row: Row, term: string)
  {
    row.Accession != "" && Contains(Lower(row.Accession), term)
  }

  /** The row has a modality equal, ignoring case, to one of the selected ones. */
  predicate ModalityMatches(row: Row, modalities: seq<string>)
  {
    row.Modality != "" && exists m | m in modalities :: Upper(row.Modality) == Upper(m)
  }

  /** The row has a date and it lies within the set bounds, both inclusive. */
  predicate DateInRange(row: Row, range: DateRange)
  {
    row.Date != "" &&
    (Truthy(range.startDate) ==> StrLe(range.startDate.value, row.Date)) &&
    (Truthy(range.endDate) ==> StrLe(row.Date, range.endDate.value))
  }

  predicate SourceMatches(row: Row, datasources: string)
  {
    row.SourceAE == datasources
  }

  /** Whether filter number `j` (in the order the work list applies them) is switched on. */
  predicate Active(fv: FilterValues, j: nat)
  {
    match j
    case 0 => fv.patientName != ""
    case 1 => fv.description != ""
    case 2 => fv.accession != ""
    case 3 => |fv.modalities| > 0
    case 4 => Truthy(fv.studyDate.startDate) || Truthy(fv.studyDate.endDate)
    case 5 => fv.datasources != ""
    case _ => false
  }

  /** The condition filter number `j` keeps rows by. */
  predicate Test(fv: FilterValues, j: nat, row: Row)
  {
    match j
    case 0 => NameOrIdMatches(row, Lower(fv.patientName))
    case 1 => DescriptionMatches(row, Lower(fv.description))
    case 2 => AccessionMatches(row, Lower(fv.accession))
    case 3 => ModalityMatches(row, fv.modalities)
    case 4 => DateInRange(row, fv.studyDate)
    case 5 => SourceMatches(row, fv.datasources)
    case _ => true
  }

  /** The row survives the first `j` filters. */
  predicate Stage(fv: FilterValues, j: nat, row: Row)
  {
    j == 0 || (Stage(fv, j - 1, row) && (!Active(fv, j - 1) || Test(fv, j - 1, row)))
  }

  /** A row is listed when it meets every filter that is switched on. */
  predicate Matches(fv: FilterValues, row: Row)
  {
    && (fv.patientName != "" ==> NameOrIdMatches(row, Lower(fv.patientName)))
    && (fv.description != "" ==> DescriptionMatches(row, Lower(fv.description)))
    && (fv.accession != "" ==> AccessionMatches(row, Lower(fv.accession)))
    && (|fv.modalities| > 0 ==> ModalityMatches(row, fv.modalities))
    && (Truthy(fv.studyDate.startDate) || Truthy(fv.studyDate.endDate) ==> DateInRange(row, fv.studyDate))
    && (fv.datasources != "" ==> SourceMatches(row, fv.datasources))
  }

  lemma AllStagesAreMatches(fv: FilterValues, row: Row)
    ensures Stage(fv, 6, row) == Matches(fv, row)
  {
    assert Stage(fv, 6, row) == (Stage(fv, 5, row) && (!Active(fv, 5) || Test(fv, 5, row)));
    assert Stage(fv, 5, row) == (Stage(fv, 4, row) && (!Active(fv, 4) || Test(fv, 4, row)));
    assert Stage(fv, 4, row) == (Stage(fv, 3, row) && (!Active(fv, 3) || Test(fv, 3, row)));
    assert Stage(fv, 3, row) == (Stage(fv, 2, row) && (!Active(fv, 2) || Test(fv, 2, row)));
    assert Stage(fv, 2, row) == (Stage(fv, 1, row) && (!Active(fv, 1) || Test(fv, 1, row)));
    assert Stage(fv, 1, row) == (!Active(fv, 0) || Test(fv, 0, row));
  }

  /** The rows that pass the first `j` filters, in their original order. */
  function StageRows(rows: seq<Row>, fv: FilterValues, j: nat): seq<Row>
  {
    Filter(rows, (s: Row) => Stage(fv, j, s))
  }

  /** Applying filter `j` (when it is on) to the rows that passed filters 0..j-1. */
  lemma NextStage(rows: seq<Row>, fv: FilterValues, j: nat, keep: Row -> bool, after: seq<Row>)
    requires j < 6
    requires forall s :: keep(s) == Test(fv, j, s)
    requires after == if Active(fv, j) then Filter(StageRows(rows, fv, j), keep) else StageRows(rows, fv, j)
    ensures after == StageRows(rows, fv, j + 1)
  {
    if Active(fv, j) {
      FilterTwice(rows, (s: Row) => Stage(fv, j, s), keep, (s: Row) => Stage(fv, j + 1, s));
    } else {
      FilterSame(rows, (s: Row) => Stage(fv, j, s), (s: Row) => Stage(fv, j + 1, s));
    }
  }

  /** Before any filter, every row is kept. */
  lemma NoStage(rows: seq<Row>, fv: FilterValues)
    ensures StageRows(rows, fv, 0) == rows
  {
    FilterAll(rows, (s: Row) => Stage(fv, 0, s));
  }

  /** After all six filters, the kept rows are those that `Matches`. */
  lemma AllStages(rows: seq<Row>, fv: FilterValues, last: nat)
    requires last == 6
    ensures StageRows(rows, fv, last) == Filter(rows, (row: Row) => Matches(fv, row))
  {
    forall s ensures Stage(fv, 6, s) == Matches(fv, s) {
      AllStagesAreMatches(fv, s);
    }
    FilterSame(rows, (s: Row) => Stage(fv, 6, s), (row: Row) => Matches(fv, row));
  }

  /** The first index of page `pageNumber`: `(pageNumber - 1) * resultsPerPage`. */
  function PageStart(pageNumber: int, resultsPerPage: int): (start: int)
    ensures pageNumber >= 1 && resultsPerPage >= 0 ==> start >= 0
  {
    (pageNumber - 1) * resultsPerPage
  }

  /** `rows.slice(start, start + resultsPerPage)`. */
  function Paginate(rows: seq<Row>, pageNumber: int, resultsPerPage: int): (page: seq<Row>)
    ensures multiset(page) <= multiset(rows)
    ensures resultsPerPage >= 0 ==> |page| <= resultsPerPage
  {
    var start := PageStart(pageNumber, resultsPerPage);
    SliceBounds(rows, start, start + resultsPerPage);
    JsSlice(rows, start, start + resultsPerPage)
  }

  lemma SliceBounds(rows: seq<Row>, start: int, end: int)
    ensures multiset(JsSlice(rows, start, end)) <= multiset(rows)
    ensures start <= end ==> |JsSlice(rows, start, end)| <= end - start
  {
    var from, to := SliceIndex(start, |rows|), SliceIndex(end, |rows|);
    if from < to {
      SubrangeMultiset(rows, from, to);
    }
  }

  lemma SubrangeMultiset(rows: seq<Row>, from: nat, to: nat)
    requires from <= to <= |rows|
    ensures multiset(rows[from..to]) <= multiset(rows)
  {
    assert rows == rows[..from] + rows[from..to] + rows[to..];
    assert multiset(rows) == multiset(rows[..from]) + multiset(rows[from..to]) + multiset(rows[to..]);
  }

  /**
   * For a page number from 1 and a non-negative page size, the page is the
   * run of rows from the page start, cut short at the end of the list.
   */
  lemma PageIsSlice(rows: seq<Row>, pageNumber: int, resultsPerPage: int)
    requires pageNumber >= 1 && resultsPerPage >= 0
    ensures var start := (pageNumber - 1) * resultsPerPage;
            start >= 0 &&
            Paginate(rows, pageNumber, resultsPerPage) == rows[Min(start, |rows|)..Min(start + resultsPerPage, |rows|)]
  {
    var start := PageStart(pageNumber, resultsPerPage);
    assert start == (pageNumber - 1) * resultsPerPage;
  }

  /**
   * A negative page size is not rejected: page 1 is then `slice(0, r)`,
   * every row but the last `-r`.
   */
  lemma NegativePageSize(rows: seq<Row>, resultsPerPage: int)
    requires resultsPerPage < 0
    ensures Paginate(rows, 1, resultsPerPage) == rows[..if |rows| + resultsPerPage < 0 then 0 else |rows| + resultsPerPage]
  {
  }

  /** Consecutive pages of the same size do not overlap and leave no gap. */
  lemma PagesAdjoin(rows: seq<Row>, pageNumber: int, resultsPerPage: int)
    requires pageNumber >= 1 && resultsPerPage >= 0
    ensures Paginate(rows, pageNumber, resultsPerPage) + Paginate(rows, pageNumber + 1, resultsPerPage)
            == rows[Min((pageNumber - 1) * resultsPerPage, |rows|)..Min((pageNumber + 1) * resultsPerPage, |rows|)]
  {
    PageIsSlice(rows, pageNumber, resultsPerPage);
    PageIsSlice(rows, pageNumber + 1, resultsPerPage);
    var start := (pageNumber - 1) * resultsPerPage;
    assert (pageNumber + 1 - 1) * resultsPerPage == start + resultsPerPage;
    assert (pageNumber + 1) * resultsPerPage == start + resultsPerPage + resultsPerPage;
    var a, b, c := Min(start, |rows|), Min(start + resultsPerPage, |rows|), Min(start + resultsPerPage + resultsPerPage, |rows|);
    assert rows[a..c] == rows[a..b] + rows[b..c];
  }

  function Min(a: int, b: int): int
  {
    if a < b then a else b
  }

  /**
   * The filtering half of `combinedStudies`: the filters run one after
   * another and together keep exactly the rows that `Matches`, in their
   * original order.
   */
  method FilterStudies(backendStudies: seq<Row>, filterValues: FilterValues) returns (filteredStudies: seq<Row>)
    ensures filteredStudies == Filter(backendStudies, (row: Row) => Matches(filterValues, row))
  {
    filteredStudies := FilterByText(backendStudies, filterValues);
    filteredStudies := FilterByFields(backendStudies, filterValues, filteredStudies);
    AllStages(backendStudies, filterValues, 6);
  }

  /** The three text filters (patient name or ID, description, accession), each on a lower-cased term. */
  method FilterByText(backendStudies: seq<Row>, filterValues: FilterValues) returns (filteredStudies: seq<Row>)
    ensures filteredStudies == StageRows(backendStudies, filterValues, 3)
  {
    filteredStudies := backendStudies;
    // `stage` counts the filters applied so far; it is a variable, not a
    // literal, so that the solver does not unfold `Stage` eagerly.
    ghost var stage: nat := 0;
    NoStage(backendStudies, filterValues);

    var nameTerm := Lower(filterValues.patientName);
    var byName := (s: Row) => NameOrIdMatches(s, nameTerm);
    filteredStudies := if filterValues.patientName != "" then Filter(filteredStudies, byName) else filteredStudies;
    NextStage(backendStudies, filterValues, stage, byName, filteredStudies);
    stage := stage + 1;

    var descriptionTerm := Lower(filterValues.description);
    var byDescription := (s: Row) => DescriptionMatches(s, descriptionTerm);
    filteredStudies := if filterValues.description != "" then Filter(filteredStudies, byDescription) else filteredStudies;
    NextStage(backendStudies, filterValues, stage, byDescription, filteredStudies);
    stage := stage + 1;

    var accessionTerm := Lower(filterValues.accession);
    var byAccession := (s: Row) => AccessionMatches(s, accessionTerm);
    filteredStudies := if filterValues.accession != "" then Filter(filteredStudies, byAccession) else filteredStudies;
    NextStage(backendStudies, filterValues, stage, byAccession, filteredStudies);
  }

  /** The modality, date-range and source filters, applied to the rows the text filters kept. */
  method FilterByFields(backendStudies: seq<Row>, filterValues: FilterValues, textMatches: seq<Row>)
    returns (filteredStudies: seq<Row>)
    requires textMatches == StageRows(backendStudies, filterValues, 3)
    ensures filteredStudies == StageRows(backendStudies, filterValues, 6)
  {
    filteredStudies := textMatches;
    ghost var stage: nat := 3;

    var byModality := (s: Row) => ModalityMatches(s, filterValues.modalities);
    filteredStudies := if |filterValues.modalities| > 0 then Filter(filteredStudies, byModality) else filteredStudies;
    NextStage(backendStudies, filterValues, stage, byModality, filteredStudies);
    stage := stage + 1;

    var byDate := (s: Row) => DateInRange(s, filterValues.studyDate);
    filteredStudies := if Truthy(filterValues.studyDate.startDate) || Truthy(filterValues.studyDate.endDate) then Filter(filteredStudies, byDate) else filteredStudies;
    NextStage(backendStudies, filterValues, stage, byDate, filteredStudies);
    stage := stage + 1;

    var bySource := (s: Row) => SourceMatches(s, filterValues.datasources);
    filteredStudies := if filterValues.datasources != "" then Filter(filteredStudies, bySource) else filteredStudies;
    NextStage(backendStudies, filterValues, stage, bySource, filteredStudies);
  }

  /**
   * The page `combinedStudies` shows: the filtered rows, sorted, then sliced.
   */
  method CombinedStudies(backendStudies: seq<Row>, filterValues: FilterValues) returns (page: seq<Row>)
    ensures page == Paginate(SortStudies(Filter(backendStudies, (row: Row) => Matches(filterValues, row)),
                                         filterValues.sortBy, filterValues.sortDirection),
                             filterValues.pageNumber, filterValues.resultsPerPage)
    ensures forall row :: row in page ==> Matches(filterValues, row)
    ensures multiset(page) <= multiset(backendStudies)
  {
    var filteredStudies := FilterStudies(backendStudies, filterValues);
    filteredStudies := SortStudies(filteredStudies, filterValues.sortBy, filterValues.sortDirection);
    page := Paginate(filteredStudies, filterValues.pageNumber, filterValues.resultsPerPage);
    PageOfMatches(backendStudies, filterValues);
  }

  /** Every row on the page matches the filters and comes from the backend list. */
  lemma PageOfMatches(rows: seq<Row>, fv: FilterValues)
    ensures var page := Paginate(SortStudies(Filter(rows, (row: Row) => Matches(fv, row)), fv.sortBy, fv.sortDirection),
                                 fv.pageNumber, fv.resultsPerPage);
            (forall row :: row in page ==> Matches(fv, row)) && multiset(page) <= multiset(rows)
  {
    var filtered := Filter(rows, (row: Row) => Matches(fv, row));
    var sorted := SortStudies(filtered, fv.sortBy, fv.sortDirection);
    var page := Paginate(sorted, fv.pageNumber, fv.resultsPerPage);
    FilterKeeps(rows, (row: Row) => Matches(fv, row));
    forall row | row in page ensures Matches(fv, row) {
      assert row in multiset(page);
      assert row in multiset(sorted);
      assert row in filtered;
    }
    calc {
      multiset(page);
    <=
      multiset(sorted);
    ==
      multiset(filtered);
    <=
      multiset(rows);
    }
  }

  /**
   * Every mapped backend row has source `"Local"`, so a source filter set to
   * anything else leaves nothing, and one set to `"Local"` removes nothing.
   */
  lemma SourceFilterOnMappedRows(studies: seq<BackendStudy>, datasources: string)
    ensures datasources != "" && datasources != "Local" ==>
              Filter(MapStudies(studies), (row: Row) => SourceMatches(row, datasources)) == []
    ensures datasources == "Local" ==>
              Filter(MapStudies(studies), (row: Row) => SourceMatches(row, datasources)) == MapStudies(studies)
  {
    var rows := MapStudies(studies);
    var keep := (row: Row) => SourceMatches(row, datasources);
    if datasources != "" && datasources != "Local" {
      FilterNone(rows, keep);
    }
    if datasources == "Local" {
      forall row | row in rows ensures keep(row) {
      }
      FilterAll(rows, keep);
    }
  }
}
