# Study work list, `/open-dicom` endpoint and `/viewer/open` route

This project models three parts of the viewer in Dafny and proves properties about them.

- **The study work list** (`platform/app/src/routes/WorkList/WorkList.tsx`):
  - how backend study records become table rows;
  - how `combinedStudies` filters, sorts and pages them;
  - how the filter state is read from the URL query (`_getQueryFilterValues`, `_tryParseInt`) and written back to it;
  - the paging guard and the offsets of the rolling window of 101 studies;
  - the page-number reset in `updateFilterValues`;
  - the expanded-row toggle;
  - the valid-modes-first order of the mode buttons.
- **The Express endpoint `POST /open-dicom`** (`server.js`). It decides whether a URL names one DICOM file, a remote folder or a local folder. It lists the local folder and redirects into the viewer.
- **The viewer's `/viewer/open` route** (`platform/app/src/routes/OpenDicom.tsx`):
  - how it resolves its query parameters into remote DICOM URLs (a single URL, a comma-separated list, or a folder read through a manifest or by probing `image-00000.dcm`, `image-00001.dcm`, …);
  - the route of the local viewer it finally navigates to.

JavaScript behaviour that matters to these parts is written out:

- truthiness of strings;
- `slice` with clamped indexes;
- `%` with the sign of the dividend and `Math.floor` of a quotient;
- `Number()`'s literal grammar and `parseInt`;
- `split` and `join`;
- ASCII case mapping;
- `path.extname`'s rules for a directory entry.

The environment is passed in as parameters:

- URL parsing, `encodeURIComponent` and `decodeURIComponent`;
- `path.join` and `path.basename`;
- the file system (`stat` followed by `readdir`);
- the manifest requests, the `HEAD` probes and form encoding.

Modules:

- `Options`, `JsStrings`, `JsNumbers`, `JsArrays`: language support.
- `WorkListTypes`, `WorkListRows`, `WorkListFilter`, `WorkListSort`, `WorkListQuery`, `WorkListPaging` (with the class `WorkListState`), `WorkListModes`: the work list.
- `OpenDicomServer`: the endpoint.
- `OpenDicomRoute`: the viewer route.

## Model

| member | source | states |
|---|---|---|
| WorkListRows.ToRow | platform/app/src/routes/WorkList/WorkList.tsx:191-209 | ID, accession, description and the file URLs are the study's values, or empty when missing. The modality comes from the backend's `modularity` field. The name is never empty and is the study's name when it has one. The date and time columns are empty exactly when the study has none. The report column is `No Report` without a report URL. Otherwise it is the URL's last `/` segment: a suffix with no `/`, preceded by `/` or the whole URL. The source is always `Local` and the UID is the study id. |
| WorkListRows.FormatDateOfIsoDate | platform/app/src/routes/WorkList/WorkList.tsx:199-201 | For an ISO `YYYY-MM-DD…` date, the date column is its first ten characters. |
| WorkListRows.MapStudies | platform/app/src/routes/WorkList/WorkList.tsx:188-210 | One row per study, in order: row `i` is `ToRow` of study `i`, with source `Local` and the study's id as UID. |
| WorkListFilter.FilterStudies | platform/app/src/routes/WorkList/WorkList.tsx:270-337 | The six filters, run one after another, keep exactly the rows that meet every active filter, in backend order. |
| WorkListFilter.FilterByText | platform/app/src/routes/WorkList/WorkList.tsx:273-294 | After the patient name/ID, description and accession filters, the kept rows are those passing the first three filters. |
| WorkListFilter.FilterByFields | platform/app/src/routes/WorkList/WorkList.tsx:296-337 | After the modality, date-range and source filters, the kept rows are those passing all six filters. |
| WorkListFilter.NextStage | platform/app/src/routes/WorkList/WorkList.tsx:273-337 | Applying a filter only when it is switched on, to the rows kept so far, gives the rows passing one more filter. |
| WorkListFilter.AllStages | platform/app/src/routes/WorkList/WorkList.tsx:273-337 | Passing all six filters in turn is the same as meeting the conjunction `Matches` of every active filter. |
| WorkListFilter.CombinedStudies | platform/app/src/routes/WorkList/WorkList.tsx:268-370 | The page shown is the matching rows, sorted, then sliced. Every row on it matches the filters. It is a sub-multiset of the backend rows. |
| WorkListFilter.PageOfMatches | platform/app/src/routes/WorkList/WorkList.tsx:268-370 | Every row on the page matches the filters, and no backend row appears more often than it occurs. |
| WorkListFilter.Paginate | platform/app/src/routes/WorkList/WorkList.tsx:367-369 | The page is a sub-multiset of the rows. It holds at most `resultsPerPage` rows when that size is non-negative. |
| WorkListFilter.PageIsSlice | platform/app/src/routes/WorkList/WorkList.tsx:367-369 | For a page number from 1 and a non-negative size, the page is the run of rows from `(pageNumber - 1) * resultsPerPage`, clamped to the list. |
| WorkListFilter.NegativePageSize | platform/app/src/routes/WorkList/WorkList.tsx:367-369 | A negative page size is not rejected: page 1 then drops the last `-resultsPerPage` rows. |
| WorkListFilter.PagesAdjoin | platform/app/src/routes/WorkList/WorkList.tsx:367-369 | Two consecutive pages of one size are contiguous: no overlap and no gap. |
| WorkListFilter.SourceFilterOnMappedRows | platform/app/src/routes/WorkList/WorkList.tsx:333-337 | Every mapped row has source `Local`. A source filter set to anything else keeps nothing; set to `Local` it keeps everything. |
| WorkListSort.InOrderTotal | platform/app/src/routes/WorkList/WorkList.tsx:340-364 | Any two rows are comparable under the comparator's key order. |
| WorkListSort.InOrderTransitive | platform/app/src/routes/WorkList/WorkList.tsx:340-364 | The key order is transitive, including the placement of undated rows. |
| WorkListSort.InsertSorted | platform/app/src/routes/WorkList/WorkList.tsx:340-364 | Inserting a row into a sorted list keeps it sorted. |
| WorkListSort.InsertionSort | platform/app/src/routes/WorkList/WorkList.tsx:340-364 | The result is a permutation of the input and sorted by the key order. |
| WorkListSort.SortStudies | platform/app/src/routes/WorkList/WorkList.tsx:340-364 | The result is a permutation of the rows, sorted by the chosen key and direction. An unknown `sortBy` keeps the order. Undated rows come last when ascending and first otherwise. |
| WorkListQuery.TryParseIntAsWritten | platform/app/src/routes/WorkList/WorkList.tsx:1163-1171 | A missing or empty value, or one `Number` rejects, gives the default. Any other value gives `parseInt` of it, which may be NaN. |
| WorkListQuery.TrailingTextGivesDefault | platform/app/src/routes/WorkList/WorkList.tsx:1165-1168 | `_tryParseInt("1x", 25)` is 25, although `parseInt("1x")` is 1, because `Number("1x")` is NaN. |
| WorkListQuery.BlankGivesNaN | platform/app/src/routes/WorkList/WorkList.tsx:1163-1171 | `_tryParseInt(" ", 1)` is NaN, not the default. |
| WorkListQuery.FractionGivesNaN | platform/app/src/routes/WorkList/WorkList.tsx:1163-1171 | `_tryParseInt(".5", 25)` is NaN, not the default. |
| WorkListQuery.TryParseInt | platform/app/src/routes/WorkList/WorkList.tsx:1163-1171 | A missing or empty value, or one `Number` rejects, gives the default. Otherwise the result is the integer `parseInt` reads, or the default where `parseInt` gives NaN; never NaN. |
| WorkListQuery.TryParseIntCorrects | platform/app/src/routes/WorkList/WorkList.tsx:1163-1171 | The corrected parse agrees with the original whenever the original gives a number, and gives the default where it gives NaN. |
| WorkListQuery.TryParseIntOfDecimal | platform/app/src/routes/WorkList/WorkList.tsx:1163-1171 | Any integer written in decimal is read back. A missing or empty value gives the default. |
| WorkListQuery.LowerKeyed | platform/app/src/routes/WorkList/WorkList.tsx:1174-1178 | Its keys are exactly the lower-cased parameter names. |
| WorkListQuery.Param | platform/app/src/routes/WorkList/WorkList.tsx:1174-1178 | A lower-cased name has a value exactly when some parameter's name lower-cases to it. |
| WorkListQuery.LowerKeyedParam | platform/app/src/routes/WorkList/WorkList.tsx:1174-1178 | A lookup after lower-casing gives the value of the last parameter with that name, ignoring case. |
| WorkListQuery.LowerKeyedIgnoresCase | platform/app/src/routes/WorkList/WorkList.tsx:1174-1178 | Renaming parameters in another case changes nothing. |
| WorkListQuery.LowerCaseParams | platform/app/src/routes/WorkList/WorkList.tsx:1174-1178 | The copying loop builds exactly the lower-cased map; a later parameter replaces an earlier one. |
| WorkListQuery.GetQueryFilterValues | platform/app/src/routes/WorkList/WorkList.tsx:1173-1204 | The filter state is the one the lower-cased query describes, with the page number and size read by the corrected `TryParseInt`. |
| WorkListQuery.EmptyQueryIsDefault | platform/app/src/routes/WorkList/WorkList.tsx:1180-1197 | An empty query gives the default filter state (`studyDate`, `descending`, page 1, 25 per page). |
| WorkListQuery.QueryNamesDistinct | platform/app/src/routes/WorkList/WorkList.tsx:481-495 | No two query keys written for a filter state coincide once lower-cased. |
| WorkListQuery.QueryLookup | platform/app/src/routes/WorkList/WorkList.tsx:481-495 | Reading back any written key gives the value written, and an unwritten key reads as absent. |
| WorkListQuery.TextFieldsRoundTrip | platform/app/src/routes/WorkList/WorkList.tsx:481-495 | The text fields come back unchanged from a written query. |
| WorkListQuery.OptionalFieldsRoundTrip | platform/app/src/routes/WorkList/WorkList.tsx:481-495 | The date bounds and the configuration URL come back unchanged. |
| WorkListQuery.ModalitiesRoundTrip | platform/app/src/routes/WorkList/WorkList.tsx:490-491 | The modality list, joined with commas and split again, comes back unchanged. |
| WorkListQuery.NumbersRoundTrip | platform/app/src/routes/WorkList/WorkList.tsx:492-493 | The page number and page size come back unchanged. |
| WorkListQuery.QueryRoundTrip | platform/app/src/routes/WorkList/WorkList.tsx:481-495 | Writing a normalized filter state to the query and reading it back gives the same state. |
| WorkListQuery.ParsedIsNormalized | platform/app/src/routes/WorkList/WorkList.tsx:1180-1197 | A state read from a query is normalized unless it has a zero page number or size, so reading it back after writing is stable. |
| WorkListPaging.FloorDiv | platform/app/src/routes/WorkList/WorkList.tsx:449 | `Math.floor(a / b)`: the quotient rounded toward minus infinity. |
| WorkListPaging.JsRem | platform/app/src/routes/WorkList/WorkList.tsx:450 | The remainder differs from the dividend by a multiple of the divisor, has the dividend's sign and is smaller in size than the divisor. Together these fix its value. |
| WorkListPaging.HasNextPageFirstWindow | platform/app/src/routes/WorkList/WorkList.tsx:447-459 | Inside the first window, moving to a later page is allowed exactly when rows remain after the current page. |
| WorkListPaging.HasNextPageAtWindowEnd | platform/app/src/routes/WorkList/WorkList.tsx:447-459 | At the end of a window the count restarts: only one page of rows needs to remain. |
| WorkListPaging.NoNextPageForLargePageSize | platform/app/src/routes/WorkList/WorkList.tsx:449-452 | A page size above 101 makes the remainder NaN, so the user can never move forward. |
| WorkListPaging.NextPageForNegativePageSize | platform/app/src/routes/WorkList/WorkList.tsx:449-452 | A negative page size always lets the user move forward. |
| WorkListPaging.WindowWithinLimit | platform/app/src/routes/WorkList/WorkList.tsx:536-539 | For a page size from 1 to 101, the offset is a non-negative multiple of the size. `offsetAndTake` is one page further and stays within 101. |
| WorkListPaging.WindowsAdjoin | platform/app/src/routes/WorkList/WorkList.tsx:536-539 | Within a window, the next page's offset is this page's `offsetAndTake`. |
| WorkListPaging.WindowNaNForLargePageSize | platform/app/src/routes/WorkList/WorkList.tsx:536-539 | A page size above 101 leaves the offsets NaN. |
| WorkListPaging.Reconciled | platform/app/src/routes/WorkList/WorkList.tsx:438-442 | The stored state is the new one, except that an unchanged page number becomes 1. |
| WorkListPaging.SamePageGoesToFirst | platform/app/src/routes/WorkList/WorkList.tsx:438-441 | An update that keeps the current page number (a filter change) becomes that update on page 1. An update to another page is kept as it is. |
| WorkListPaging.ToggleRow | platform/app/src/routes/WorkList/WorkList.tsx:735-736 | The clicked row becomes expanded exactly when it was not. Every other row keeps its state. |
| WorkListPaging.Without | platform/app/src/routes/WorkList/WorkList.tsx:736 | Removes every occurrence of the key and nothing else; a list without the key is unchanged. |
| WorkListPaging.ToggleTwice | platform/app/src/routes/WorkList/WorkList.tsx:735-736 | Expanding a collapsed row and clicking it again restores the list. |
| WorkListPaging.WorkListState.constructor | platform/app/src/routes/WorkList/WorkList.tsx:148-171 | The shown state starts from the defaults. Session storage starts from the state parsed from the query. No row is expanded. |
| WorkListPaging.WorkListState.UpdateFilterValues | platform/app/src/routes/WorkList/WorkList.tsx:438-445 | The new state, reconciled on the page number, is shown and stored in the session, and every row collapses. |
| WorkListPaging.WorkListState.OnPageNumberChange | platform/app/src/routes/WorkList/WorkList.tsx:447-459 | A later page with no next page changes nothing. Any other page number goes through `updateFilterValues`. |
| WorkListPaging.WorkListState.OnResultsPerPageChange | platform/app/src/routes/WorkList/WorkList.tsx:461-467 | A new page size always starts again from page 1, is stored in the session and collapses every row. |
| WorkListPaging.WorkListState.OnClickRow | platform/app/src/routes/WorkList/WorkList.tsx:735-736 | Toggles the clicked row and leaves the filter state untouched. |
| WorkListModes.ReplaceAllChar | platform/app/src/routes/WorkList/WorkList.tsx:669 | The string keeps its length and every occurrence of the character is replaced. |
| WorkListModes.ModalitiesArgument | platform/app/src/routes/WorkList/WorkList.tsx:669 | The argument is the joined modalities with no `/` left in it. |
| WorkListModes.ModesShown | platform/app/src/routes/WorkList/WorkList.tsx:666-679 | The same modes are shown either way. With grouping on, no invalid mode precedes a valid one; with it off, the loaded order is kept. |
| WorkListModes.ValidModesFirstPermutation | platform/app/src/routes/WorkList/WorkList.tsx:666-679 | The sort neither drops nor duplicates a mode. |
| WorkListModes.ValidModesFirstOrdered | platform/app/src/routes/WorkList/WorkList.tsx:667-678 | Every pair of modes is in the comparator's order. |
| WorkListModes.ValidModesFirstStable | platform/app/src/routes/WorkList/WorkList.tsx:667-678 | Valid modes keep their loaded order, and so do the invalid ones. |
| WorkListModes.ValidFirstIsGrouped | platform/app/src/routes/WorkList/WorkList.tsx:667-678 | A list in the comparator's order is its valid modes followed by the rest. |
| WorkListModes.ValidModesFirstUnique | platform/app/src/routes/WorkList/WorkList.tsx:667-678 | Any arrangement in comparator order that keeps the order within each group is the valid-first one, which is what a stable sort gives. |
| JsArrays.FilterKeeps | platform/app/src/routes/WorkList/WorkList.tsx:275-336 | `filter` keeps exactly the elements meeting the test and no element more often than it occurs. |
| OpenDicomServer.IsUrlExactly | server.js:19-21 | A path is a URL exactly when it starts with `http://` or `https://`. |
| OpenDicomServer.GetActualPath | server.js:24-37 | A URL that parses gives its pathname. Anything not a URL, or a URL that does not parse, is returned unchanged. |
| OpenDicomServer.GetActualPathIdempotent | server.js:24-37 | A URL's pathname starts with `/`, so extracting the path twice is the same as once. |
| OpenDicomServer.LastIndexOf | server.js:134 | The index is -1 when the character is absent; otherwise it is the character's last occurrence. |
| OpenDicomServer.ExtName | server.js:75 | The extension is empty or a suffix of the name that starts with its only `.`, and the name is longer. |
| OpenDicomServer.ExtNameEmpty | server.js:75 | An entry has no extension exactly when it has no dot, its only dot comes first, or it is `..`. |
| OpenDicomServer.DicomPathsExactly | server.js:74-76 | The listing keeps exactly the `.dcm`, `.DCM` and `.dicom` entries and the entries without an extension, in `readdir` order. Each is joined onto the directory path. |
| OpenDicomServer.GetDicomFilesFromDirectory | server.js:40-84 | A URL gives `['REMOTE_FOLDER']`. Otherwise the result is the local listing, which is empty when the path cannot be read or is not a directory. |
| OpenDicomServer.StudyListSplits | server.js:130-139 | The `studyList` value splits at its commas back into the encoded paths, one per file, in order. |
| OpenDicomServer.OpenDicom | server.js:86-156 | A missing or empty `url` is a 400. A DICOM file path goes out as `dicomUrl`, and any other URL as `dicomFolderUrl`. A local folder without DICOM entries is a 404 carrying the input. Otherwise the response is a 302 with the encoded listing as `studyList`. |
| OpenDicomRoute.DecodeAll | platform/app/src/routes/OpenDicom.tsx:32 | Each piece is decoded in order. When decoding fails, some piece does not decode. |
| OpenDicomRoute.ReadManifest | platform/app/src/routes/OpenDicom.tsx:37-51 | The first manifest that answers with an array wins, prefixed with the base URL. `manifest.json` is asked first. |
| OpenDicomRoute.CandidateShape | platform/app/src/routes/OpenDicom.tsx:56-57 | Each probed name is the base, `/image-`, five digits reading as the index, and `.dcm`. |
| OpenDicomRoute.CandidateInjective | platform/app/src/routes/OpenDicom.tsx:55-57 | Distinct indexes below 2000 give distinct names, so no file is probed twice. |
| OpenDicomRoute.FirstMiss | platform/app/src/routes/OpenDicom.tsx:55-68 | The first index from `i` on whose probe misses, or the limit; every index before it hits. |
| OpenDicomRoute.Probe | platform/app/src/routes/OpenDicom.tsx:54-69 | The probing loop finds exactly what `ProbeUrls` describes. |
| OpenDicomRoute.ProbeStopRule | platform/app/src/routes/OpenDicom.tsx:55-68 | A miss at index 0 is passed over. The probe runs through every consecutive hit from index 1 and stops at the first miss or at 2000. |
| OpenDicomRoute.ProbeOrder | platform/app/src/routes/OpenDicom.tsx:55-68 | The probe lists index 0 when it exists, then the hits from index 1 in increasing order. |
| OpenDicomRoute.Resolve | platform/app/src/routes/OpenDicom.tsx:20-74 | Without parameters nothing happens. A failed decode or an empty result fails before any download. Otherwise the URLs are those the parameters name. |
| OpenDicomRoute.DicomUrlFirst | platform/app/src/routes/OpenDicom.tsx:29-30 | `dicomUrl` takes precedence over the other parameters and names exactly one file. |
| OpenDicomRoute.StudyListPieces | platform/app/src/routes/OpenDicom.tsx:31-32 | `studyList` names one file per comma-separated piece, each decoded, in order. |
| OpenDicomRoute.FolderManifestOrProbe | platform/app/src/routes/OpenDicom.tsx:33-69 | The base URL has no trailing slash. A listed manifest gives the files under the base. The probe runs only when the manifest gave nothing. |
| OpenDicomRoute.ViewerRoute | platform/app/src/routes/OpenDicom.tsx:105-108 | The route is `/viewer/dicomlocal?` followed by one `StudyInstanceUIDs` pair per study and then `datasources=dicomlocal`. |
| OpenDicomRoute.ViewerQuerySplits | platform/app/src/routes/OpenDicom.tsx:105-108 | Split at `&`, the route's query gives back one pair per study, in order, then the data-source pair. |

## Left out

- Fetching the backend studies, the statistics, logging and React rendering are not modelled. The work list starts from the list of backend records.
- WorkListFilter.DateInRange: the source compares `new Date(…)` values. The model compares the date strings as they are, character by character. The two agree on `YYYY-MM-DD` dates but not on other formats, time zones or invalid dates (where `new Date` gives NaN).
- WorkListSort.SortStudies: the comparator answers -1 for equal keys, so the engine's order of ties is not fixed. The model uses a stable insertion sort and claims only the permutation and the key order. The study-date key compares `new Date` values; the model compares date strings.
- The in-place `sort` on the local copy of the rows and on `appConfig.loadedModes` is modelled on values. The model does not capture that sorting `loadedModes` in place reorders the shared configuration array for later renders.
- WorkListQuery.GetQueryFilterValues: the page number and page size are read with the corrected `TryParseInt`. A value such as ` ` or `.5` therefore gives 1 or 25, where the code as written stores NaN (see Findings; `WorkListQuery.TryParseIntAsWritten` models that behaviour).
- WorkListPaging.WorkListState.constructor: the session copy of the filter state comes from `GetQueryFilterValues`, so it carries the corrected page number and size, not the NaN the code as written stores for ` ` or `.5`.
- JsStrings.StrLe: JavaScript's `>` on strings compares UTF-16 code units, while the model compares Unicode scalar values. The two orders differ between characters above U+FFFF and characters in U+E000-U+FFFF. The sort keys are affected there.
- JsStrings.Lower, JsStrings.Upper: `toLowerCase` and `toUpperCase` are modelled for ASCII letters only. Unicode case mapping is not modelled.
- WorkListQuery.FilterQuery: the query-string library's key ordering, percent-encoding and `preserveQueryStrings` are not modelled. The query is the sequence of written keys and values.
- A `configUrl` in the filter state is only read back from the query. The mode link built from it (WorkList.tsx:680-698) and navigation are not modelled.
- Numbers are unbounded integers. Values beyond 2^53, fractional page sizes and `Number(newResultsPerPage)` on non-numeric input are not modelled; `onResultsPerPageChange` takes an integer.
- The 500 branch of `/open-dicom` is not modelled. It needs `encodeURIComponent` to throw on a lone surrogate, which Dafny strings cannot hold.
- A non-string `url` in the JSON body is not modelled; the body's `url` is an optional string.
- OpenDicomServer.ExtName: `path.extname` is modelled for directory entries, which never contain `/`.
- OpenDicomServer.FileUrl: the conversion back to URLs (server.js:130-137) runs only for a URL input, and that case has already returned. The model keeps the branch and proves that it leaves every listed path unchanged.
- OpenDicomServer.StudyListSplits: `path.join` keeps a `,` in a file name. `encodeURIComponent` escapes it, so the server side splits back correctly; the property needs an encoding with no comma.
- The downloads, `filesToStudies`, the local data-source lookup and the navigation call of the `/viewer/open` route are not modelled. The route is computed from the study UIDs that registration returns.
- The manifest check (`resp.ok`, the JSON content type, `Array.isArray`) and the probe's thrown requests are folded into the `Network` oracles: a request that throws is a miss.

## Findings

| source | as written | input that shows it | evidently intended | confidence | as-written member | corrected member |
|---|---|---|---|---|---|---|
| platform/app/src/routes/WorkList/WorkList.tsx:1163-1171 | `_tryParseInt` tests `Number(str)` for NaN and then returns `parseInt(str)`; the two accept different texts | `pagenumber=%20` (a single space) or `resultsperpage=.5`: `Number` gives 0 or 0.5, `parseInt` gives NaN, so the page number or page size becomes NaN | return the default whenever no integer can be read | not executed | WorkListQuery.BlankGivesNaN | WorkListQuery.TryParseIntOfDecimal |
