/** How backend study records become work-list table rows. */
module WorkListRows {
  import opened Options
  import opened JsStrings
  import opened WorkListTypes

  /** `value || fallback` for an optional string. */
  function OrElse(o: Option<string>, fallback: string): string
  {
    if Truthy(o) then o.value else fallback
  }

  /** The `Date` column: characters 0-3, 5-6 and 8-9 of the backend date, joined by '-'. */
  function FormatDate(date: string): string
  {
    JsSlice(date, 0, 4) + "-" + JsSlice(date, 5, 7) + "-" + JsSlice(date, 8, 10)
  }

  /** The `Time` column: characters 0-1 and 3-4 of the backend time, joined by ':'. */
  function FormatTime(time: string): string
  {
    JsSlice(time, 0, 2) + ":" + JsSlice(time, 3, 5)
  }

  /** The row the table shows for one backend study. */
  function ToRow(study: BackendStudy): (row: Row)
    ensures row.Name != "" && (Truthy(study.name) ==> row.Name == study.name.value)
    ensures row.Date == "" <==> !Truthy(study.date)
    ensures row.Time == "" <==> !Truthy(study.time)
    ensures row.ID == (if Truthy(study.id) then study.id.value else "")
    ensures row.Accession == (if Truthy(study.accession) then study.accession.value else "")
    ensures row.Modality == (if Truthy(study.modularity) then study.modularity.value else "")
    ensures row.Description == (if Truthy(study.description) then study.description.value else "")
    ensures !Truthy(study.reportFileUrl) ==> row.Report == "No Report"
    ensures Truthy(study.reportFileUrl) ==> '/' !in row.Report
    ensures Truthy(study.reportFileUrl) ==>
              var url := study.reportFileUrl.value;
              EndsWith(url, row.Report) && (|row.Report| == |url| || url[|url| - |row.Report| - 1] == '/')
    ensures row.dicomFileUrl == (if Truthy(study.dicomFileUrl) then study.dicomFileUrl.value else "")
    ensures row.reportFileUrl == (if Truthy(study.reportFileUrl) then study.reportFileUrl.value else "")
    ensures row.SourceAE == "Local"
    ensures row.studyInstanceUid == study.id
  {
    Row(
      ID := OrElse(study.id, ""),
      Name := OrElse(study.name, "Unknown"),
      Report := if Truthy(study.reportFileUrl) then LastSegment(study.reportFileUrl.value, '/') else "No Report",
      Accession := OrElse(study.accession, ""),
      Modality := OrElse(study.modularity, ""),
      Description := OrElse(study.description, ""),
      Date := if Truthy(study.date) then FormatDate(study.date.value) else "",
      Time := if Truthy(study.time) then FormatTime(study.time.value) else "",
      SourceAE := "Local",
      studyInstanceUid := study.id,
      dicomFileUrl := OrElse(study.dicomFileUrl, ""),
      reportFileUrl := OrElse(study.reportFileUrl, ""))
  }

  /** An ISO `YYYY-MM-DD…` backend date keeps its first ten characters. */
  lemma FormatDateOfIsoDate(date: string)
    requires |date| >= 10 && date[4] == '-' && date[7] == '-'
    ensures FormatDate(date) == date[..10]
  {
    assert date[..10] == date[0..4] + "-" + date[5..7] + "-" + date[8..10];
  }

  /** The backend list mapped row by row, in order. */
  function MapStudies(studies: seq<BackendStudy>): (rows: seq<Row>)
    ensures |rows| == |studies|
    ensures forall i :: 0 <= i < |rows| ==> rows[i] == ToRow(studies[i])
    ensures forall i :: 0 <= i < |rows| ==>
              rows[i].SourceAE == "Local" && rows[i].studyInstanceUid == studies[i].id
  {
    seq(|studies|, i requires 0 <= i < |studies| => ToRow(studies[i]))
  }
}
