/**
 * The work list's URL query: reading the filter state from the query
 * parameters (`_getQueryFilterValues`, `_tryParseInt`) and writing it back
 * (the query object the work list builds before navigating).
 *
 * A query is a sequence of (name, value) pairs in the order the browser
 * lists them. Percent-encoding is left to the browser and not modelled.
 */
module WorkListQuery {
  import opened Options
  import opened JsStrings
  import opened JsNumbers
  import opened WorkListTypes
  import opened WorkListRows

  type Query = seq<(string, string)>

  /**
   * `_tryParseInt` as written: when `Number(str)` is not NaN the result is
   * `parseInt(str)`, which can still be NaN (for " " or ".5", say).
   */
  function TryParseIntAsWritten(str: Option<string>, defaultValue: int): (r: JsInt)
    ensures !Truthy(str) || NumberIsNaN(str.value) ==> r == Int(defaultValue)
    ensures Truthy(str) && !NumberIsNaN(str.value) ==> r == ParseInt(str.value)
  {
    if Truthy(str) && !NumberIsNaN(str.value) then ParseInt(str.value) else Int(defaultValue)
  }

  /** A blank value: `Number(" ")` is 0, but `parseInt(" ")` is NaN. */
  lemma BlankGivesNaN()
    ensures TryParseIntAsWritten(Some(" "), 1) == NaN
  {
    assert TrimStart(" ") == "" by {
      assert IsWhiteSpace(' ');
      assert " "[1..] == "";
    }
    assert !NumberIsNaN(" ");
  }

  /** A fraction without an integer part: `Number(".5")` is 0.5, but `parseInt(".5")` is NaN. */
  lemma FractionGivesNaN()
    ensures TryParseIntAsWritten(Some(".5"), 25) == NaN
  {
    var s := ".5";
    assert !IsWhiteSpace(s[0]) && !IsWhiteSpace(s[1]);
    assert TrimStart(s) == s;
    assert TrimEnd(s) == s;
    assert ExponentIndex(s) == 2 by {
      assert s[1..] == "5" && "5"[1..] == "";
    }
    assert DotIndex(s) == 0;
    assert s[..2] == s && s[..0] == "" && s[1..] == "5";
    assert IsMantissa(s);
    assert IsStrNumericLiteral(s);
    assert LeadingDigits(s, 10) == 0;
  }

  /**
   * Trailing text makes `Number` NaN, so the default wins even though
   * `parseInt("1x")` would read 1.
   */
  lemma TrailingTextGivesDefault()
    ensures ParseInt("1x") == Int(1)
    ensures TryParseIntAsWritten(Some("1x"), 25) == Int(25)
  {
    var s := "1x";
    assert !IsWhiteSpace(s[0]) && !IsWhiteSpace(s[1]);
    assert TrimStart(s) == s;
    assert TrimEnd(s) == s;
    assert ExponentIndex(s) == 2 by {
      assert s[1..] == "x" && "x"[1..] == "";
    }
    assert DotIndex(s) == 2 by {
      assert s[1..] == "x" && "x"[1..] == "";
    }
    assert s[..2] == s && !IsRadixDigit(s[1], 10);
    assert !IsMantissa(s);
    assert !IsStrNumericLiteral(s);
    assert NumberIsNaN(s);
    assert LeadingDigits(s, 10) == 1 by {
      assert s[1..] == "x";
    }
    assert s[..1] == "1" && "1"[..0] == "";
  }

  /**
   * `_tryParseInt` as intended: the number `parseInt` reads, or the default
   * when the text is missing, empty, not a number, or has no leading digits.
   */
  function TryParseInt(str: Option<string>, defaultValue: int): (r: int)
    ensures r == defaultValue || (Truthy(str) && ParseInt(str.value) == Int(r))
    ensures !Truthy(str) || NumberIsNaN(str.value) ==> r == defaultValue
    ensures Truthy(str) && !NumberIsNaN(str.value) && ParseInt(str.value).Int? ==> r == ParseInt(str.value).value
    ensures Truthy(str) && !NumberIsNaN(str.value) && ParseInt(str.value).NaN? ==> r == defaultValue
  {
    match TryParseIntAsWritten(str, defaultValue)
    case Int(v) => v
    case NaN => defaultValue
  }

  /** The corrected version differs from the original only where the original gives NaN. */
  lemma TryParseIntCorrects(str: Option<string>, defaultValue: int)
    ensures TryParseIntAsWritten(str, defaultValue).Int? ==> TryParseInt(str, defaultValue) == TryParseIntAsWritten(str, defaultValue).value
    ensures TryParseIntAsWritten(str, defaultValue).NaN? ==> TryParseInt(str, defaultValue) == defaultValue
  {
  }

  /** A number written in decimal is read back; a missing or empty value gives the default. */
  lemma TryParseIntOfDecimal(n: int, defaultValue: int)
    ensures TryParseInt(Some(IntToString(n)), defaultValue) == n
    ensures TryParseInt(None, defaultValue) == defaultValue
    ensures TryParseInt(Some(""), defaultValue) == defaultValue
  {
    IntToStringIsLiteral(n);
    ParseIntToString(n);
  }

  /** The parameter names lower-cased; a later parameter replaces an earlier one of the same name. */
  function LowerKeyed(params: Query): (m: map<string, string>)
    ensures m.Keys == set i | 0 <= i < |params| :: Lower(params[i].0)
  {
    if params == [] then map[]
    else
      var last := params[|params| - 1];
      var m := LowerKeyed(params[..|params| - 1]);
      assert forall i :: 0 <= i < |params| - 1 ==> params[..|params| - 1][i] == params[i];
      m[Lower(last.0) := last.1]
  }

  /** The value of the last parameter whose lower-cased name is `name`. */
  function Param(params: Query, name: string): (r: Option<string>)
    ensures r.Some? <==> exists i :: 0 <= i < |params| && Lower(params[i].0) == name
  {
    if params == [] then None
    else if Lower(params[|params| - 1].0) == name then Some(params[|params| - 1].1)
    else
      var r := Param(params[..|params| - 1], name);
      assert forall i :: 0 <= i < |params| - 1 ==> params[..|params| - 1][i] == params[i];
      r
  }

  /** `params.get(name)` after the names were lower-cased. */
  function Get(m: map<string, string>, name: string): Option<string>
  {
    if name in m then Some(m[name]) else None
  }

  lemma {:induction false} LowerKeyedParam(params: Query, name: string)
    ensures Get(LowerKeyed(params), name) == Param(params, name)
    decreases |params|
  {
    if params != [] {
      LowerKeyedParam(params[..|params| - 1], name);
    }
  }

  /** Parameter names are matched ignoring case: renaming in another case changes nothing. */
  lemma {:induction false} LowerKeyedIgnoresCase(params: Query, renamed: Query)
    requires |params| == |renamed|
    requires forall i :: 0 <= i < |params| ==> Lower(params[i].0) == Lower(renamed[i].0) && params[i].1 == renamed[i].1
    ensures LowerKeyed(params) == LowerKeyed(renamed)
    decreases |params|
  {
    if params != [] {
      LowerKeyedIgnoresCase(params[..|params| - 1], renamed[..|renamed| - 1]);
    }
  }

  /** The loop that copies the parameters under lower-cased names. */
  method LowerCaseParams(params: Query) returns (newParams: map<string, string>)
    ensures newParams == LowerKeyed(params)
  {
    newParams := map[];
    for i := 0 to |params|
      invariant newParams == LowerKeyed(params[..i])
    {
      assert params[..i + 1][..i] == params[..i];
      var (key, value) := params[i];
      newParams := newParams[Lower(key) := value];
    }
    assert params[..|params|] == params;
  }

  /** `value || null`: an empty string counts as absent. */
  function OrNull(o: Option<string>): (r: Option<string>)
    ensures r == None || (r == o && Truthy(o))
  {
    if Truthy(o) then o else None
  }

  /** The filter state the query (with lower-cased names) describes. */
  function QueryFilterValues(params: map<string, string>): FilterValues
  {
    var modalities := Get(params, "modalities");
    FilterValues(
      patientName := OrElse(Get(params, "patientname"), ""),
      mrn := OrElse(Get(params, "mrn"), ""),
      studyDate := DateRange(OrNull(Get(params, "startdate")), OrNull(Get(params, "enddate"))),
      description := OrElse(Get(params, "description"), ""),
      modalities := if Truthy(modalities) then Split(modalities.value, ',') else [],
      accession := OrElse(Get(params, "accession"), ""),
      pageNumber := TryParseInt(Get(params, "pagenumber"), 1),
      resultsPerPage := TryParseInt(Get(params, "resultsperpage"), 25),
      sortBy := OrElse(Get(params, "sortby"), "studyDate"),
      sortDirection := OrElse(Get(params, "sortdirection"), "descending"),
      datasources := OrElse(Get(params, "datasources"), ""),
      configUrl := OrNull(Get(params, "configurl")))
  }

  /** `_getQueryFilterValues`. */
  method GetQueryFilterValues(params: Query) returns (fv: FilterValues)
    ensures fv == QueryFilterValues(LowerKeyed(params))
  {
    var newParams := LowerCaseParams(params);
    fv := QueryFilterValues(newParams);
  }

  /** An empty query gives the default filter state. */
  lemma EmptyQueryIsDefault()
    ensures QueryFilterValues(LowerKeyed([])) == DefaultFilterValues()
  {
  }

  /** A query entry: whether it is written, its name and its value. */
  type Entry = (bool, string, string)

  /** The entries written, in order. */
  function Written(entries: seq<Entry>): Query
  {
    if entries == [] then []
    else
      var e := entries[|entries| - 1];
      Written(entries[..|entries| - 1]) + (if e.0 then [(e.1, e.2)] else [])
  }

  /**
   * The entries the work list writes for a filter state, in the order of
   * the filter object's fields: each truthy field under its own name, the
   * date bounds as `startDate` and `endDate`, the modalities joined by ','.
   * A number is written in decimal and zero is falsy. An empty modality
   * list, and a join that gives the empty string, are dropped (the query
   * serializer skips empty values).
   */
  function QueryEntries(fv: FilterValues): (es: seq<Entry>)
    ensures |es| == 13
  {
    [ (fv.patientName != "", "patientName", fv.patientName),
      (fv.mrn != "", "mrn", fv.mrn),
      (Truthy(fv.studyDate.startDate), "startDate", OrElse(fv.studyDate.startDate, "")),
      (Truthy(fv.studyDate.endDate), "endDate", OrElse(fv.studyDate.endDate, "")),
      (fv.description != "", "description", fv.description),
      (|fv.modalities| > 0 && Join(fv.modalities, ',') != "", "modalities", Join(fv.modalities, ',')),
      (fv.accession != "", "accession", fv.accession),
      (fv.pageNumber != 0, "pageNumber", IntToString(fv.pageNumber)),
      (fv.resultsPerPage != 0, "resultsPerPage", IntToString(fv.resultsPerPage)),
      (fv.sortBy != "", "sortBy", fv.sortBy),
      (fv.sortDirection != "", "sortDirection", fv.sortDirection),
      (fv.datasources != "", "datasources", fv.datasources),
      (Truthy(fv.configUrl), "configUrl", OrElse(fv.configUrl, "")) ]
  }

  /** The query the work list navigates to for a filter state. */
  function FilterQuery(fv: FilterValues): Query
  {
    Written(QueryEntries(fv))
  }

  /** No name occurs twice once lower-cased. */
  predicate DistinctNames(entries: seq<Entry>)
  {
    forall a, b :: 0 <= a < b < |entries| ==> Lower(entries[a].1) != Lower(entries[b].1)
  }

  /** A name no entry has is not in the written query. */
  lemma {:induction false} ParamAbsent(entries: seq<Entry>, name: string)
    requires forall a :: 0 <= a < |entries| ==> Lower(entries[a].1) != name
    ensures Param(Written(entries), name) == None
    decreases |entries|
  {
    if entries != [] {
      var prefix := entries[..|entries| - 1];
      assert forall a :: 0 <= a < |prefix| ==> prefix[a] == entries[a];
      ParamAbsent(prefix, name);
      var e := entries[|entries| - 1];
      if e.0 {
        var q := Written(prefix);
        assert (q + [(e.1, e.2)])[..|q|] == q;
      }
    }
  }

  /** With distinct names, looking a name up gives that entry's value when it was written. */
  lemma {:induction false} ParamOfEntry(entries: seq<Entry>, j: nat)
    requires j < |entries| && DistinctNames(entries)
    ensures Param(Written(entries), Lower(entries[j].1)) == if entries[j].0 then Some(entries[j].2) else None
    decreases |entries|
  {
    var prefix := entries[..|entries| - 1];
    var e := entries[|entries| - 1];
    var q := Written(prefix);
    assert forall a :: 0 <= a < |prefix| ==> prefix[a] == entries[a];
    if e.0 {
      assert (q + [(e.1, e.2)])[..|q|] == q;
    } else {
      assert Written(entries) == q + [] == q;
    }
    if j == |entries| - 1 {
      ParamAbsent(prefix, Lower(e.1));
    } else {
      assert prefix[j] == entries[j];
      assert Lower(entries[j].1) != Lower(e.1);
      ParamOfEntry(prefix, j);
    }
  }

  lemma NamesLowered1()
    ensures Lower("patientName") == "patientname" &&
            Lower("mrn") == "mrn" &&
            Lower("startDate") == "startdate" &&
            Lower("endDate") == "enddate"
  {
    assert Lower("patientName") == "patientname";
    assert Lower("mrn") == "mrn";
    assert Lower("startDate") == "startdate";
    assert Lower("endDate") == "enddate";
  }

  lemma NamesLowered2()
    ensures Lower("description") == "description" &&
            Lower("modalities") == "modalities" &&
            Lower("accession") == "accession" &&
            Lower("pageNumber") == "pagenumber"
  {
    assert Lower("description") == "description";
    assert Lower("modalities") == "modalities";
    assert Lower("accession") == "accession";
    assert Lower("pageNumber") == "pagenumber";
  }

  lemma NamesLowered3()
    ensures Lower("resultsPerPage") == "resultsperpage" &&
            Lower("sortBy") == "sortby" &&
            Lower("sortDirection") == "sortdirection" &&
            Lower("datasources") == "datasources" &&
            Lower("configUrl") == "configurl"
  {
    assert Lower("resultsPerPage") == "resultsperpage";
    assert Lower("sortBy") == "sortby";
    assert Lower("sortDirection") == "sortdirection";
    assert Lower("datasources") == "datasources";
    assert Lower("configUrl") == "configurl";
  }

  /** The query names, lower-cased. */
  lemma QueryNamesLowered(fv: FilterValues)
    ensures var es := QueryEntries(fv);
      Lower(es[0].1) == "patientname" &&
      Lower(es[1].1) == "mrn" &&
      Lower(es[2].1) == "startdate" &&
      Lower(es[3].1) == "enddate" &&
      Lower(es[4].1) == "description" &&
      Lower(es[5].1) == "modalities" &&
      Lower(es[6].1) == "accession" &&
      Lower(es[7].1) == "pagenumber" &&
      Lower(es[8].1) == "resultsperpage" &&
      Lower(es[9].1) == "sortby" &&
      Lower(es[10].1) == "sortdirection" &&
      Lower(es[11].1) == "datasources" &&
      Lower(es[12].1) == "configurl"
  {
    NamesLowered1();
    NamesLowered2();
    NamesLowered3();
  }

  lemma QueryNamesDistinct(fv: FilterValues)
    ensures DistinctNames(QueryEntries(fv))
  {
    QueryNamesLowered(fv);
    var names := ["patientname", "mrn", "startdate", "enddate", "description", "modalities", "accession",
                  "pagenumber", "resultsperpage", "sortby", "sortdirection", "datasources", "configurl"];
    var es := QueryEntries(fv);
    assert forall a :: 0 <= a < 13 ==> Lower(es[a].1) == names[a];
    assert forall a, b :: 0 <= a < b < 13 ==> names[a] != names[b];
  }

  /**
   * The filter states the query keeps exactly: no empty date bound or
   * configuration URL (they read back as absent), modalities without ','
   * and not the single empty name, non-zero numbers (zero is not written
   * and reads back as the default) and a sort key and direction.
   */
  predicate Normalized(fv: FilterValues)
  {
    fv.studyDate.startDate != Some("") && fv.studyDate.endDate != Some("") && fv.configUrl != Some("") &&
    (forall m :: m in fv.modalities ==> ',' !in m) && fv.modalities != [""] &&
    fv.pageNumber != 0 && fv.resultsPerPage != 0 && fv.sortBy != "" && fv.sortDirection != ""
  }

  /** Looking up entry `j`'s lower-cased name in the written query. */
  lemma QueryLookup(fv: FilterValues, j: nat)
    requires j < 13
    ensures var e := QueryEntries(fv)[j];
            Get(LowerKeyed(FilterQuery(fv)), Lower(e.1)) == if e.0 then Some(e.2) else None
  {
    var es := QueryEntries(fv);
    QueryNamesDistinct(fv);
    LowerKeyedParam(FilterQuery(fv), Lower(es[j].1));
    ParamOfEntry(es, j);
  }

  lemma TextFieldsRoundTrip(fv: FilterValues)
    requires Normalized(fv)
    ensures var got := QueryFilterValues(LowerKeyed(FilterQuery(fv)));
            got.patientName == fv.patientName && got.mrn == fv.mrn && got.description == fv.description &&
            got.accession == fv.accession && got.sortBy == fv.sortBy && got.sortDirection == fv.sortDirection &&
            got.datasources == fv.datasources
  {
    QueryNamesLowered(fv);
    QueryLookup(fv, 0);
    QueryLookup(fv, 1);
    QueryLookup(fv, 4);
    QueryLookup(fv, 6);
    QueryLookup(fv, 9);
    QueryLookup(fv, 10);
    QueryLookup(fv, 11);
  }

  lemma OptionalFieldsRoundTrip(fv: FilterValues)
    requires Normalized(fv)
    ensures var got := QueryFilterValues(LowerKeyed(FilterQuery(fv)));
            got.studyDate == fv.studyDate && got.configUrl == fv.configUrl
  {
    QueryNamesLowered(fv);
    QueryLookup(fv, 2);
    QueryLookup(fv, 3);
    QueryLookup(fv, 12);
  }

  lemma ModalitiesRoundTrip(fv: FilterValues)
    requires Normalized(fv)
    ensures QueryFilterValues(LowerKeyed(FilterQuery(fv))).modalities == fv.modalities
  {
    QueryNamesLowered(fv);
    QueryLookup(fv, 5);
    if |fv.modalities| > 0 {
      JoinNotEmpty(fv.modalities, ',');
      SplitJoin(fv.modalities, ',');
    }
  }

  lemma NumbersRoundTrip(fv: FilterValues)
    requires Normalized(fv)
    ensures var got := QueryFilterValues(LowerKeyed(FilterQuery(fv)));
            got.pageNumber == fv.pageNumber && got.resultsPerPage == fv.resultsPerPage
  {
    QueryNamesLowered(fv);
    QueryLookup(fv, 7);
    QueryLookup(fv, 8);
    TryParseIntOfDecimal(fv.pageNumber, 1);
    TryParseIntOfDecimal(fv.resultsPerPage, 25);
  }

  /** Writing a filter state to the query and reading it back gives the same state. */
  lemma QueryRoundTrip(fv: FilterValues)
    requires Normalized(fv)
    ensures QueryFilterValues(LowerKeyed(FilterQuery(fv))) == fv
  {
    TextFieldsRoundTrip(fv);
    OptionalFieldsRoundTrip(fv);
    ModalitiesRoundTrip(fv);
    NumbersRoundTrip(fv);
  }

  /** A non-empty list other than `[""]` joins to a non-empty string. */
  lemma JoinNotEmpty(parts: seq<string>, sep: char)
    requires |parts| > 0 && parts != [""]
    ensures Join(parts, sep) != ""
  {
    if |parts| > 1 {
      assert |Join(parts, sep)| >= |parts[0] + [sep]|;
    } else {
      assert parts == [parts[0]];
    }
  }

  /**
   * A state read from a query is normalized unless a page number or page
   * size of zero was given, so reading, writing and reading again is
   * stable.
   */
  lemma ParsedIsNormalized(params: map<string, string>)
    ensures var fv := QueryFilterValues(params);
            fv.pageNumber != 0 && fv.resultsPerPage != 0 ==> Normalized(fv)
  {
    var fv := QueryFilterValues(params);
    var modalities := Get(params, "modalities");
    if Truthy(modalities) {
      SplitPartsHaveNoSeparator(modalities.value, ',');
      SplitOfNonEmpty(modalities.value, ',');
    }
  }
}
