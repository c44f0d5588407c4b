/**
 * The work list's row order. The comparator handed to `Array.prototype.sort`
 * answers -1 for equal keys, so it does not fix the order of ties; what it
 * does fix is the key order below. A stable insertion sort stands in for
 * the engine's sort.
 */
module WorkListSort {
  import opened Options
  import opened JsStrings
  import opened WorkListTypes

  /** The `sortBy` values the comparator knows. */
  datatype SortKey = PatientName | StudyDate | ModalityKey | AccessionKey

  function SortKeyOf(sortBy: string): Option<SortKey>
  {
    if sortBy == "patientName" then Some(PatientName)
    else if sortBy == "studyDate" then Some(StudyDate)
    else if sortBy == "modality" then Some(ModalityKey)
    else if sortBy == "accession" then Some(AccessionKey)
    else None
  }

  /** Only `"ascending"` gives the modifier 1; every other direction sorts descending. */
  predicate IsAscending(sortDirection: string)
  {
    sortDirection == "ascending"
  }

  predicate Ordered(x: string, y: string, ascending: bool)
  {
    if ascending then StrLe(x, y) else StrLe(y, x)
  }

  /**
   * `a` may come before `b`. For the study date, a row without a date comes
   * after every dated row when ascending and before them when descending.
   */
  predicate InOrder(key: SortKey, ascending: bool, a: Row, b: Row)
  {
    match key
    case PatientName => Ordered(a.Name, b.Name, ascending)
    case ModalityKey => Ordered(a.Modality, b.Modality, ascending)
    case AccessionKey => Ordered(a.Accession, b.Accession, ascending)
    case StudyDate =>
      if a.Date == "" || b.Date == "" then (if ascending then b.Date == "" else a.Date == "")
      else Ordered(a.Date, b.Date, ascending)
  }

  lemma InOrderTotal(key: SortKey, ascending: bool, a: Row, b: Row)
    ensures InOrder(key, ascending, a, b) || InOrder(key, ascending, b, a)
  {
    match key
    case PatientName => StrLeTotal(a.Name, b.Name);
    case ModalityKey => StrLeTotal(a.Modality, b.Modality);
    case AccessionKey => StrLeTotal(a.Accession, b.Accession);
    case StudyDate => StrLeTotal(a.Date, b.Date);
  }

  lemma InOrderTransitive(key: SortKey, ascending: bool, a: Row, b: Row, c: Row)
    requires InOrder(key, ascending, a, b) && InOrder(key, ascending, b, c)
    ensures InOrder(key, ascending, a, c)
  {
    match key
    case PatientName =>
      if ascending { StrLeTransitive(a.Name, b.Name, c.Name); }
      else { StrLeTransitive(c.Name, b.Name, a.Name); }
    case ModalityKey =>
      if ascending { StrLeTransitive(a.Modality, b.Modality, c.Modality); }
      else { StrLeTransitive(c.Modality, b.Modality, a.Modality); }
    case AccessionKey =>
      if ascending { StrLeTransitive(a.Accession, b.Accession, c.Accession); }
      else { StrLeTransitive(c.Accession, b.Accession, a.Accession); }
    case StudyDate =>
      if a.Date != "" && b.Date != "" && c.Date != "" {
        if ascending { StrLeTransitive(a.Date, b.Date, c.Date); }
        else { StrLeTransitive(c.Date, b.Date, a.Date); }
      }
  }

  predicate SortedBy(key: SortKey, ascending: bool, s: seq<Row>)
  {
    forall i, j :: 0 <= i < j < |s| ==> InOrder(key, ascending, s[i], s[j])
  }

  /** Puts `x` before the first row it may precede. */
  function Insert(key: SortKey, ascending: bool, x: Row, s: seq<Row>): (r: seq<Row>)
    ensures multiset(r) == multiset(s) + multiset{x}
  {
    if s == [] then [x]
    else if InOrder(key, ascending, x, s[0]) then [x] + s
    else
      assert s == [s[0]] + s[1..];
      [s[0]] + Insert(key, ascending, x, s[1..])
  }

  lemma {:induction false} InsertSorted(key: SortKey, ascending: bool, x: Row, s: seq<Row>)
    requires SortedBy(key, ascending, s)
    ensures SortedBy(key, ascending, Insert(key, ascending, x, s))
    decreases |s|
  {
    var r := Insert(key, ascending, x, s);
    if s == [] {
    } else if InOrder(key, ascending, x, s[0]) {
      forall j | 1 <= j < |r| ensures InOrder(key, ascending, r[0], r[j]) {
        if j > 1 { InOrderTransitive(key, ascending, x, s[0], s[j - 1]); }
      }
    } else {
      InsertSorted(key, ascending, x, s[1..]);
      InsertAfterHead(key, ascending, x, s);
    }
  }

  lemma {:induction false} InsertMembers(key: SortKey, ascending: bool, x: Row, s: seq<Row>)
    ensures forall y :: y in Insert(key, ascending, x, s) ==> y == x || y in s
    decreases |s|
  {
    if s != [] && !InOrder(key, ascending, x, s[0]) {
      InsertMembers(key, ascending, x, s[1..]);
    }
  }

  /** When `x` goes after the first row, that row still precedes everything after it. */
  lemma InsertAfterHead(key: SortKey, ascending: bool, x: Row, s: seq<Row>)
    requires s != [] && SortedBy(key, ascending, s) && !InOrder(key, ascending, x, s[0])
    requires SortedBy(key, ascending, Insert(key, ascending, x, s[1..]))
    ensures SortedBy(key, ascending, Insert(key, ascending, x, s))
  {
    InOrderTotal(key, ascending, x, s[0]);
    var t := Insert(key, ascending, x, s[1..]);
    var r := [s[0]] + t;
    assert Insert(key, ascending, x, s) == r;
    InsertMembers(key, ascending, x, s[1..]);
    forall j | 0 <= j < |t| ensures InOrder(key, ascending, s[0], t[j]) {
      assert t[j] in t;
      if t[j] != x {
        var k :| 0 <= k < |s[1..]| && s[1..][k] == t[j];
        assert s[k + 1] == t[j];
      }
    }
    SortedCons(key, ascending, s[0], t);
  }

  lemma SortedCons(key: SortKey, ascending: bool, h: Row, t: seq<Row>)
    requires SortedBy(key, ascending, t)
    requires forall j :: 0 <= j < |t| ==> InOrder(key, ascending, h, t[j])
    ensures SortedBy(key, ascending, [h] + t)
  {
    var r := [h] + t;
    forall i, j | 0 <= i < j < |r| ensures InOrder(key, ascending, r[i], r[j]) {
      if i == 0 {
        assert r[j] == t[j - 1];
      } else {
        assert r[i] == t[i - 1] && r[j] == t[j - 1];
      }
    }
  }

  function InsertionSort(key: SortKey, ascending: bool, s: seq<Row>): (r: seq<Row>)
    ensures multiset(r) == multiset(s)
    ensures SortedBy(key, ascending, r)
  {
    if s == [] then []
    else
      assert s == [s[0]] + s[1..];
      var t := InsertionSort(key, ascending, s[1..]);
      InsertSorted(key, ascending, s[0], t);
      Insert(key, ascending, s[0], t)
  }

  /**
   * `filteredStudies.sort(…)`: a permutation of the rows, ordered by the
   * chosen key and direction; an unknown `sortBy` (comparator 0) keeps the
   * order. For the study date, undated rows end up last when ascending and
   * first when descending.
   */
  function SortStudies(rows: seq<Row>, sortBy: string, sortDirection: string): (r: seq<Row>)
    ensures multiset(r) == multiset(rows)
    ensures SortKeyOf(sortBy).Some? ==> SortedBy(SortKeyOf(sortBy).value, IsAscending(sortDirection), r)
    ensures SortKeyOf(sortBy).None? ==> r == rows
    ensures sortBy == "studyDate" ==> forall i, j :: 0 <= i < j < |r| ==>
              (IsAscending(sortDirection) && r[i].Date == "" ==> r[j].Date == "") &&
              (!IsAscending(sortDirection) && r[j].Date == "" ==> r[i].Date == "")
  {
    match SortKeyOf(sortBy)
    case None => rows
    case Some(key) => InsertionSort(key, IsAscending(sortDirection), rows)
  }
}
