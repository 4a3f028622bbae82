/**
 * The report API (backend/routes/reports.js): the upload rule for the
 * photo, `GET /` (summaries, newest first), `GET /:reportId` (one report or
 * 404) and `POST /` (create a report from a photo and form fields).
 */
module ReportRoutes {
  import opened Wrappers
  import opened JsText
  import opened Ordering
  import opened ReportModel

  // --------------------------------------------------------- upload handling

  /** Uploads larger than 10 MiB are refused by the upload middleware. */
  const MaxUploadBytes: nat := 10 * 1024 * 1024

  const DefaultExtension: string := ".jpg"

  const UploadDirectory: string := "/uploads/originals/"

  /** The position of the last `c` in `s`, if any. */
  function LastIndexOf(s: string, c: char): (r: Option<nat>)
    ensures r.None? ==> c !in s
    ensures r.Some? ==> r.value < |s| && s[r.value] == c && c !in s[r.value + 1..]
  {
    if |s| == 0 then None
    else if s[|s| - 1] == c then Some(|s| - 1)
    else
      var r := LastIndexOf(s[..|s| - 1], c);
      assert s == s[..|s| - 1] + [s[|s| - 1]];
      if r.Some? then assert s[r.value + 1..] == s[..|s| - 1][r.value + 1..] + [s[|s| - 1]]; r
      else r
  }

  /** The path without its run of trailing slashes. */
  function StripTrailingSlashes(p: string): (r: string)
    ensures |r| <= |p| && r == p[..|r|]
    ensures r == "" || r[|r| - 1] != '/'
    ensures forall i :: |r| <= i < |p| ==> p[i] == '/'
  {
    if |p| > 0 && p[|p| - 1] == '/' then StripTrailingSlashes(p[..|p| - 1]) else p
  }

  /** The last path component, trailing slashes ignored. */
  function Basename(p: string): (r: string)
    ensures LastSegment(StripTrailingSlashes(p), r)
  {
    var q := StripTrailingSlashes(p);
    match LastIndexOf(q, '/')
    case None => q
    case Some(i) => q[i + 1..]
  }

  /** `r` is the part of `q` after its last '/': a suffix of `q` without '/', preceded by '/' when shorter. */
  predicate LastSegment(q: string, r: string) {
    && '/' !in r
    && |r| <= |q| && r == q[|q| - |r|..] && (|r| < |q| ==> q[|q| - |r| - 1] == '/')
  }

  /**
   * `r` is the extension of the segment `b`: empty, or a '.' followed by
   * neither '.' nor '/' that is a proper suffix of `b`; it is non-empty
   * exactly when `b` has an extension.
   */
  predicate ExtensionOf(b: string, r: string) {
    && (r == "" || (r[0] == '.' && '/' !in r && '.' !in r[1..]))
    && (r != "" ==> |r| < |b| && b[|b| - |r|..] == r)
    && (r != "" <==> HasExtension(b))
  }

  /**
   * Node's `path.extname` (POSIX): from the last `.` of the last path
   * component to its end, or "" when that component has no `.`, starts with
   * its only leading dot (`.profile`) or is `..`.
   */
  function Extname(p: string): (r: string)
    ensures ExtensionOf(Basename(p), r)
  {
    Extension(Basename(p))
  }

  /** The extension of one path segment `b`. */
  function Extension(b: string): (r: string)
    requires '/' !in b
    ensures ExtensionOf(b, r)
  {
    var last := LastIndexOf(b, '.');
    ExtensionExists(b, last);
    match last
    case None => ""
    case Some(i) =>
      // the last '.' at index 1 of a two-character name that starts with '.' means the name is ".."
      if i == 0 || (|b| == 2 && b[0] == '.') then ""
      else
        ExtensionOfName(b, i);
        b[i..]
  }

  /** A last path segment has an extension when a '.' follows its first character and it is not "..". */
  predicate HasExtension(b: string) {
    |b| > 1 && '.' in b[1..] && b != ".."
  }

  lemma ExtensionExists(b: string, last: Option<nat>)
    requires last == LastIndexOf(b, '.')
    ensures HasExtension(b) <==> last.Some? && !(last.value == 0 || (|b| == 2 && b[0] == '.'))
  {
    if last.None? {
      assert forall k :: 0 <= k < |b| - 1 ==> b[1..][k] == b[k + 1];
      return;
    }
    var i := last.value;
    if i > 0 {
      assert b[1..][i - 1] == '.';
    }
    if |b| == 2 && b[0] == '.' && i > 0 {
      assert b == "..";
    }
  }

  /** The text from the last `.` of a name without `/` holds one `.`, at its start, and no `/`. */
  lemma ExtensionOfName(b: string, i: nat)
    requires '/' !in b
    requires i < |b| && b[i] == '.' && '.' !in b[i + 1..]
    ensures var r := b[i..];
            r[0] == '.' && '/' !in r && '.' !in r[1..] && b[|b| - |r|..] == r
  {
    var r := b[i..];
    assert r[1..] == b[i + 1..];
    forall k | 0 <= k < |r|
      ensures r[k] != '/'
    {
      assert r[k] == b[i + k] && b[i + k] in b;
    }
  }

  /** The multer `filename` rule: the upload time, then the original extension or ".jpg". */
  function UploadFilename(originalName: string, uploadTime: nat): (r: string)
    ensures r == NatToString(uploadTime) + (if Extname(originalName) == "" then DefaultExtension else Extname(originalName))
    ensures '/' !in r
    ensures ParseInt(r) == Some(uploadTime)
  {
    var ext := Extname(originalName);
    var chosen := if ext == "" then DefaultExtension else ext;
    ChosenExtension(Basename(originalName), ext);
    StampedNameHasNoSlash(uploadTime, chosen);
    ParseIntOfStampedName(uploadTime, chosen);
    NatToString(uploadTime) + chosen
  }

  /** The extension used for a stored name, the original one or ".jpg", starts with '.' and has no '/'. */
  lemma ChosenExtension(b: string, ext: string)
    requires ExtensionOf(b, ext)
    ensures var chosen := if ext == "" then DefaultExtension else ext;
            |chosen| > 0 && chosen[0] == '.' && '/' !in chosen
  {
    if ext == "" {
      assert DefaultExtension == ['.', 'j', 'p', 'g'];
    }
  }

  lemma StampedNameHasNoSlash(n: nat, ext: string)
    requires '/' !in ext
    ensures '/' !in NatToString(n) + ext
  {
    var s := NatToString(n);
    forall i | 0 <= i < |s + ext|
      ensures (s + ext)[i] != '/'
    {
      if i < |s| {
        assert IsDigit(s[i]);
      } else {
        assert (s + ext)[i] == ext[i - |s|];
      }
    }
  }

  /** A name made of a decimal time stamp and a `.`-extension reads back as that time stamp. */
  lemma ParseIntOfStampedName(n: nat, ext: string)
    requires |ext| > 0 && ext[0] == '.'
    ensures ParseInt(NatToString(n) + ext) == Some(n)
  {
    var s := NatToString(n);
    assert !IsDigit(ext[0]);
    assert "" + "" + s == s;
    ParseIntReads("", "", s, ext);
    DigitsValueOfNatToString(n);
  }

  /** The file part of the multipart request, as the client sent it. */
  datatype IncomingFile = IncomingFile(originalName: string, size: nat)

  /** What the upload middleware makes of it. */
  datatype Upload = NoFile | LimitExceeded | Saved(filename: string)

  function ReceivePhoto(file: Option<IncomingFile>, uploadTime: nat): (u: Upload)
    ensures file.None? <==> u.NoFile?
    ensures u.LimitExceeded? <==> file.Some? && file.value.size > MaxUploadBytes
    ensures u.Saved? ==> u.filename == UploadFilename(file.value.originalName, uploadTime)
  {
    match file
    case None => NoFile
    case Some(f) => if f.size > MaxUploadBytes then LimitExceeded else Saved(UploadFilename(f.originalName, uploadTime))
  }

  // ---------------------------------------------------------------- GET /

  function CreatedAt(r: Report): int {
    r.createdAt
  }

  function Summary(r: Report): ReportBase {
    ReportBase(r.reportId, r.latitude, r.longitude, r.cloggingLevel)
  }

  function Summaries(s: seq<Report>): (r: seq<ReportBase>)
    ensures |r| == |s|
    ensures forall i :: 0 <= i < |s| ==> r[i] == Summary(s[i])
  {
    seq(|s|, i requires 0 <= i < |s| => Summary(s[i]))
  }

  /**
   * `GET /`: the summary (`reportId`, coordinates, clogging level) of every
   * report, ordered newest first; a storage failure is a 500.
   */
  function ListReports(db: Result<seq<Report>, string>): (r: Response<seq<ReportBase>>)
    ensures db.Failure? ==> r == Err(500, "Error fetching reports")
    ensures db.Success? ==> r.Ok? && r.status == 200 && |r.value| == |db.value|
    ensures db.Success? ==>
              exists sorted :: multiset(sorted) == multiset(db.value) && SortedDesc(sorted, CreatedAt) &&
                               r.value == Summaries(sorted)
  {
    match db
    case Failure(_) => Err(500, "Error fetching reports")
    case Success(store) =>
      var sorted := SortDesc(store, CreatedAt);
      Ok(200, Summaries(sorted))
  }

  // ------------------------------------------------------- GET /:reportId

  /** `Report.findOne({ reportId: id })`: the first stored report with that id. */
  function FindById(store: seq<Report>, id: string): (r: Option<Report>)
    ensures r.None? <==> !HasReportId(store, id)
    ensures r.Some? ==> r.value in store && r.value.reportId == id
  {
    if |store| == 0 then None
    else if store[0].reportId == id then Some(store[0])
    else
      var r := FindById(store[1..], id);
      assert HasReportId(store, id) ==> HasReportId(store[1..], id) by {
        if HasReportId(store, id) {
          var i :| 0 <= i < |store| && store[i].reportId == id;
          assert store[1..][i - 1] == store[i];
        }
      }
      r
  }

  function GetReport(db: Result<seq<Report>, string>, id: string): (r: Response<Report>)
    ensures db.Failure? ==> r == Err(500, "Error fetching report detail")
    ensures db.Success? && !HasReportId(db.value, id) ==> r == Err(404, "Report not found")
    ensures db.Success? && HasReportId(db.value, id) ==>
              r.Ok? && r.status == 200 && r.value in db.value && r.value.reportId == id
  {
    match db
    case Failure(_) => Err(500, "Error fetching report detail")
    case Success(store) =>
      match FindById(store, id)
      case None => Err(404, "Report not found")
      case Some(report) => Ok(200, report)
  }

  // -------------------------------------------------------------- POST /

  /** The text fields of the multipart form; a missing field is `undefined`. */
  datatype ReportForm = ReportForm(
    cloggingLevel: Option<string>,
    causeType: Option<string>,
    causeDetail: Option<string>,
    description: Option<string>,
    phoneNumber: Option<string>,
    latitude: Option<string>,
    longitude: Option<string>)

  /** The reply of `POST /` together with the report collection afterwards. */
  datatype PostResult = PostResult(response: Response<Report>, store: seq<Report>)

  const PhotoRequired: string := "Photo is required."
  const SaveFailed: string := "DB error while saving report"

  /** `parseFloat` of a form field; an absent field gives NaN, which is `None` here. */
  function ParseCoordinate(field: Option<string>, parseFloat: string -> real): Option<real> {
    match field
    case None => None
    case Some(s) => Some(parseFloat(s))
  }

  /** The record the route hands to `Report.create` for a photo saved as `filename`. */
  function NewRecord(form: ReportForm, filename: string, idTime: nat, parseFloat: string -> real): NewReport {
    var photoUrl := UploadDirectory + filename;
    NewReport(NatToString(idTime), form.cloggingLevel, form.causeType, form.causeDetail, form.description,
              form.phoneNumber, ParseCoordinate(form.latitude, parseFloat),
              ParseCoordinate(form.longitude, parseFloat), photoUrl, photoUrl, Some(DefaultStatus))
  }

  /**
   * The route handler proper, given the saved photo's file name (`req.file`):
   * no photo is a 400; a failing create is a 500; otherwise the stored
   * report is answered with 201.
   */
  function HandlePost(store: seq<Report>, file: Option<string>, form: ReportForm, idTime: nat, now: int,
                      available: bool, parseFloat: string -> real): (r: PostResult)
    ensures file.None? ==> r == PostResult(Err(400, PhotoRequired), store)
    ensures r.response.Err? ==> r.store == store && r.response.status in {400, 500}
    ensures r.response.Ok? <==>
              file.Some? && available && SchemaValid(NewRecord(form, file.value, idTime, parseFloat)) &&
              !HasReportId(store, NatToString(idTime))
    ensures r.response.Ok? ==>
              var rep := r.response.value;
              && r.response.status == 201
              && r.store == store + [rep]
              && rep.reportId == NatToString(idTime)
              && rep.status == DefaultStatus
              && rep.photoUrl == UploadDirectory + file.value
              && rep.thumbnailUrl == rep.photoUrl
              && rep.createdAt == now
              && Some(rep.cloggingLevel) == form.cloggingLevel
              && Some(rep.causeType) == form.causeType
              && rep.causeDetail == form.causeDetail
              && rep.description == form.description
              && Some(rep.phoneNumber) == form.phoneNumber
              && Some(rep.latitude) == ParseCoordinate(form.latitude, parseFloat)
              && Some(rep.longitude) == ParseCoordinate(form.longitude, parseFloat)
  {
    match file
    case None => PostResult(Err(400, PhotoRequired), store)
    case Some(filename) =>
      match Create(store, NewRecord(form, filename, idTime, parseFloat), now, available)
      case Failure(_) => PostResult(Err(500, SaveFailed), store)
      case Success(report) => PostResult(Ok(201, report), store + [report])
  }

  /** The body Express's default error handler answers with when a middleware fails. */
  const DefaultErrorPage: string := "Internal Server Error"

  /**
   * `POST /` as written: the upload middleware runs first. An oversize photo
   * makes it fail, and since no error handler is installed the failure goes
   * to Express's default handler, which answers 500 without ever running
   * the route's own 400 check.
   */
  function PostReport(store: seq<Report>, incoming: Option<IncomingFile>, form: ReportForm, uploadTime: nat,
                      idTime: nat, now: int, available: bool, parseFloat: string -> real): (r: PostResult)
    ensures incoming.Some? && incoming.value.size > MaxUploadBytes ==>
              r == PostResult(Err(500, DefaultErrorPage), store)
    ensures incoming.None? ==> r == PostResult(Err(400, PhotoRequired), store)
    ensures incoming.Some? && incoming.value.size <= MaxUploadBytes ==>
              r == HandlePost(store, Some(UploadFilename(incoming.value.originalName, uploadTime)), form,
                              idTime, now, available, parseFloat)
  {
    match ReceivePhoto(incoming, uploadTime)
    case LimitExceeded => PostResult(Err(500, DefaultErrorPage), store)
    case NoFile => HandlePost(store, None, form, idTime, now, available, parseFloat)
    case Saved(filename) => HandlePost(store, Some(filename), form, idTime, now, available, parseFloat)
  }

  /**
   * `POST /` as the route's comment intends: a photo the middleware refuses
   * is treated like a missing photo, so every refused upload is a client
   * error and leaves the store alone.
   */
  function PostReportIntended(store: seq<Report>, incoming: Option<IncomingFile>, form: ReportForm, uploadTime: nat,
                              idTime: nat, now: int, available: bool, parseFloat: string -> real): (r: PostResult)
    ensures !ReceivePhoto(incoming, uploadTime).Saved? ==> r == PostResult(Err(400, PhotoRequired), store)
    ensures ReceivePhoto(incoming, uploadTime).Saved? ==>
              r == PostReport(store, incoming, form, uploadTime, idTime, now, available, parseFloat)
  {
    match ReceivePhoto(incoming, uploadTime)
    case Saved(filename) => HandlePost(store, Some(filename), form, idTime, now, available, parseFloat)
    case _ => HandlePost(store, None, form, idTime, now, available, parseFloat)
  }

  /** As written, a photo one byte over the limit gets a server error instead of the intended 400. */
  lemma OversizePhotoIsServerError(store: seq<Report>, form: ReportForm, uploadTime: nat, idTime: nat, now: int,
                                   available: bool, parseFloat: string -> real)
    ensures var big := Some(IncomingFile("drain.jpg", MaxUploadBytes + 1));
            && PostReport(store, big, form, uploadTime, idTime, now, available, parseFloat).response.status == 500
            && PostReportIntended(store, big, form, uploadTime, idTime, now, available, parseFloat).response.status == 400
  {
  }

  lemma {:induction false} FindAppended(store: seq<Report>, rep: Report)
    requires !HasReportId(store, rep.reportId)
    ensures FindById(store + [rep], rep.reportId) == Some(rep)
  {
    if |store| > 0 {
      assert (store + [rep])[1..] == store[1..] + [rep];
      assert !HasReportId(store[1..], rep.reportId) by {
        forall i | 0 <= i < |store[1..]|
          ensures store[1..][i].reportId != rep.reportId
        {
          assert store[1..][i] == store[i + 1];
        }
      }
      FindAppended(store[1..], rep);
    }
  }

  /**
   * A report created by `POST /` is returned unchanged by `GET /:reportId`,
   * and the collection keeps unique ids and valid documents.
   */
  lemma CreatedReportIsRetrievable(store: seq<Report>, incoming: Option<IncomingFile>, form: ReportForm,
                                   uploadTime: nat, idTime: nat, now: int, available: bool,
                                   parseFloat: string -> real)
    requires StoreInvariant(store)
    ensures var r := PostReportIntended(store, incoming, form, uploadTime, idTime, now, available, parseFloat);
            r.response.Ok? ==>
              && GetReport(Success(r.store), r.response.value.reportId) == Ok(200, r.response.value)
              && StoreInvariant(r.store)
  {
    var r := PostReportIntended(store, incoming, form, uploadTime, idTime, now, available, parseFloat);
    if r.response.Ok? {
      var u := ReceivePhoto(incoming, uploadTime);
      var n := NewRecord(form, u.filename, idTime, parseFloat);
      assert Create(store, n, now, available) == Success(r.response.value);
      FindAppended(store, r.response.value);
      CreatePreservesInvariant(store, n, now, available);
    }
  }
}
