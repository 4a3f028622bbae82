/**
 * The citizen report document (backend/models/Report.js) and the shapes the
 * client reads back (frontend/src/types/reportTypes.ts).
 */
module ReportModel {
  import opened Wrappers

  /** A stored report; `createdAt` is a millisecond timestamp. */
  datatype Report = Report(
    reportId: string,
    cloggingLevel: string,
    causeType: string,
    causeDetail: Option<string>,
    description: Option<string>,
    phoneNumber: string,
    latitude: real,
    longitude: real,
    photoUrl: string,
    thumbnailUrl: string,
    status: string,
    createdAt: int)

  /** `ReportBase`: the summary the map receives for every report. */
  datatype ReportBase = ReportBase(reportId: string, latitude: real, longitude: real, cloggingLevel: string)

  const DefaultStatus: string := "접수"

  /**
   * The fields handed to `Report.create`. Absent entries are `undefined`;
   * a coordinate is `None` when it is not a number (the route's
   * `parseFloat(undefined)`).
   */
  datatype NewReport = NewReport(
    reportId: string,
    cloggingLevel: Option<string>,
    causeType: Option<string>,
    causeDetail: Option<string>,
    description: Option<string>,
    phoneNumber: Option<string>,
    latitude: Option<real>,
    longitude: Option<real>,
    photoUrl: string,
    thumbnailUrl: string,
    status: Option<string>)

  /**
   * Mongoose's `required` validators: a required string must be present and
   * non-empty, a required number must be a number.
   */
  predicate SchemaValid(n: NewReport) {
    && n.reportId != ""
    && Truthy(n.cloggingLevel)
    && Truthy(n.causeType)
    && Truthy(n.phoneNumber)
    && n.latitude.Some? && n.longitude.Some?
    && n.photoUrl != ""
    && n.thumbnailUrl != ""
  }

  /** A stored report satisfies the same validators. */
  predicate StoredValid(r: Report) {
    && r.reportId != "" && r.cloggingLevel != "" && r.causeType != "" && r.phoneNumber != ""
    && r.photoUrl != "" && r.thumbnailUrl != ""
  }

  predicate HasReportId(store: seq<Report>, id: string) {
    exists i :: 0 <= i < |store| && store[i].reportId == id
  }

  /** The unique index on `reportId`, and every stored document valid. */
  ghost predicate StoreInvariant(store: seq<Report>) {
    && (forall i, j :: 0 <= i < j < |store| ==> store[i].reportId != store[j].reportId)
    && (forall i :: 0 <= i < |store| ==> StoredValid(store[i]))
  }

  /** The document Mongoose builds: `status` defaults to "접수", `createdAt` to the insert time. */
  function Document(n: NewReport, now: int): Report
    requires SchemaValid(n)
  {
    Report(n.reportId, n.cloggingLevel.value, n.causeType.value, n.causeDetail, n.description,
           n.phoneNumber.value, n.latitude.value, n.longitude.value, n.photoUrl, n.thumbnailUrl,
           n.status.GetOr(DefaultStatus), now)
  }

  datatype CreateError = StoreUnavailable | ValidationError | DuplicateKey

  /**
   * `Report.create(fields)` at time `now`: fails when the store is down, when
   * validation fails or when the id is taken; otherwise appends the document.
   */
  function Create(store: seq<Report>, n: NewReport, now: int, available: bool)
    : (r: Result<Report, CreateError>)
    ensures r.Success? <==> available && SchemaValid(n) && !HasReportId(store, n.reportId)
    ensures r.Success? ==> r.value.reportId == n.reportId && r.value.createdAt == now
    ensures r.Success? ==> r.value.status == (if n.status.Some? then n.status.value else DefaultStatus)
    ensures r.Success? ==> StoredValid(r.value)
    ensures r.Success? ==>
              && Some(r.value.cloggingLevel) == n.cloggingLevel && Some(r.value.causeType) == n.causeType
              && r.value.causeDetail == n.causeDetail && r.value.description == n.description
              && Some(r.value.phoneNumber) == n.phoneNumber
              && Some(r.value.latitude) == n.latitude && Some(r.value.longitude) == n.longitude
              && r.value.photoUrl == n.photoUrl && r.value.thumbnailUrl == n.thumbnailUrl
  {
    if !available then Failure(StoreUnavailable)
    else if !SchemaValid(n) then Failure(ValidationError)
    else if HasReportId(store, n.reportId) then Failure(DuplicateKey)
    else Success(Document(n, now))
  }

  /** Appending a successfully created document keeps ids unique and documents valid. */
  lemma CreatePreservesInvariant(store: seq<Report>, n: NewReport, now: int, available: bool)
    requires StoreInvariant(store)
    requires Create(store, n, now, available).Success?
    ensures StoreInvariant(store + [Create(store, n, now, available).value])
  {
    var r := Create(store, n, now, available).value;
    var s' := store + [r];
    forall i, j | 0 <= i < j < |s'|
      ensures s'[i].reportId != s'[j].reportId
    {
      if j == |store| {
        assert s'[i] == store[i];
      }
    }
  }
}
