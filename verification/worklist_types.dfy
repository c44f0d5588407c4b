/**
 * The records the study work list works on: a study as the backend's
 * `/api/studies` endpoint returns it, the table row it is mapped to, and
 * the filter state (`FilterValues`) that drives filtering, sorting and
 * paging.
 */
module WorkListTypes {
  import opened Options

  /**
   * One backend study record. Every field may be missing (`null` or
   * absent in the JSON); the JSON names are `id`, `name`,
   * `report_file_url`, `accession`, `modularity`, `description`, `date`,
   * `time` and `dicom_file_url`.
   */
  datatype BackendStudy = BackendStudy(
    id: Option<string>,
    name: Option<string>,
    reportFileUrl: Option<string>,
    accession: Option<string>,
    modularity: Option<string>,
    description: Option<string>,
    date: Option<string>,
    time: Option<string>,
    dicomFileUrl: Option<string>)

  /** A row of the study table. */
  datatype Row = Row(
    ID: string,
    Name: string,
    Report: string,
    Accession: string,
    Modality: string,
    Description: string,
    Date: string,
    Time: string,
    SourceAE: string,
    studyInstanceUid: Option<string>,
    dicomFileUrl: string,
    reportFileUrl: string)

  /** The study-date bounds; `None` stands for `null`. */
  datatype DateRange = DateRange(startDate: Option<string>, endDate: Option<string>)

  /**
   * The work list's filter state. `configUrl` is `None` when the key is
   * absent from the object; `sortDirection` holds any string, only
   * `"ascending"` being told apart from the rest.
   */
  datatype FilterValues = FilterValues(
    patientName: string,
    mrn: string,
    studyDate: DateRange,
    description: string,
    modalities: seq<string>,
    accession: string,
    pageNumber: int,
    resultsPerPage: int,
    sortBy: string,
    sortDirection: string,
    datasources: string,
    configUrl: Option<string>)

  /** The initial filter state and the target of "Reset". */
  function DefaultFilterValues(): FilterValues
  {
    FilterValues("", "", DateRange(None, None), "", [], "", 1, 25, "studyDate", "descending", "", None)
  }
}
