/**
 * The report draft shared by the capture, confirm and form screens
 * (frontend/src/context/ReportContext.tsx): a record and four transitions
 * on it.
 */
module ReportDraft {
  import opened Wrappers

  /** The photo file the camera produced; only its identity matters here. */
  datatype Photo = Photo(name: string, size: nat)

  datatype Draft = Draft(
    photo: Option<Photo>,
    photoPreview: Option<string>,
    latitude: Option<real>,
    longitude: Option<real>,
    cloggingLevel: string,
    causeType: string,
    causeDetail: string,
    description: string,
    phoneNumber: string)

  /** The draft a provider starts with, and the one a reset goes back to. */
  const Initial: Draft := Draft(None, None, None, None, "", "", "", "", "")

  /** Every nullable field is null and every text field is empty. */
  predicate Blank(d: Draft) {
    && d.photo.None? && d.photoPreview.None? && d.latitude.None? && d.longitude.None?
    && d.cloggingLevel == "" && d.causeType == "" && d.causeDetail == ""
    && d.description == "" && d.phoneNumber == ""
  }

  lemma InitialIsBlank()
    ensures Blank(Initial)
    ensures forall d :: Blank(d) ==> d == Initial
  {
  }

  /**
   * `setPhoto`: store the file and a fresh object URL for its preview;
   * `objectUrl` stands for `URL.createObjectURL`.
   */
  function SetPhoto(d: Draft, file: Photo, objectUrl: Photo -> string): (r: Draft)
    ensures r.photo == Some(file) && r.photoPreview == Some(objectUrl(file))
    ensures r.(photo := d.photo, photoPreview := d.photoPreview) == d
  {
    d.(photo := Some(file), photoPreview := Some(objectUrl(file)))
  }

  /** `setLocation`: only the two coordinates change. */
  function SetLocation(d: Draft, latitude: real, longitude: real): (r: Draft)
    ensures r.latitude == Some(latitude) && r.longitude == Some(longitude)
    ensures r.(latitude := d.latitude, longitude := d.longitude) == d
  {
    d.(latitude := Some(latitude), longitude := Some(longitude))
  }

  /** A `Partial<FormData>`: the keys the caller spelled out. */
  datatype FormPatch = FormPatch(
    cloggingLevel: Option<string>,
    causeType: Option<string>,
    causeDetail: Option<string>,
    description: Option<string>,
    phoneNumber: Option<string>)

  const EmptyPatch := FormPatch(None, None, None, None, None)

  /** Object spread `{...p, ...q}`: a key of `q` wins over the same key of `p`. */
  function Merge(p: FormPatch, q: FormPatch): (r: FormPatch)
    ensures r.cloggingLevel == (if q.cloggingLevel.Some? then q.cloggingLevel else p.cloggingLevel)
    ensures r.causeType == (if q.causeType.Some? then q.causeType else p.causeType)
    ensures r.causeDetail == (if q.causeDetail.Some? then q.causeDetail else p.causeDetail)
    ensures r.description == (if q.description.Some? then q.description else p.description)
    ensures r.phoneNumber == (if q.phoneNumber.Some? then q.phoneNumber else p.phoneNumber)
  {
    FormPatch(
      if q.cloggingLevel.Some? then q.cloggingLevel else p.cloggingLevel,
      if q.causeType.Some? then q.causeType else p.causeType,
      if q.causeDetail.Some? then q.causeDetail else p.causeDetail,
      if q.description.Some? then q.description else p.description,
      if q.phoneNumber.Some? then q.phoneNumber else p.phoneNumber)
  }

  /** `setFormData`: exactly the keys present in the patch are overwritten. */
  function SetFormData(d: Draft, p: FormPatch): (r: Draft)
    ensures r.cloggingLevel == p.cloggingLevel.GetOr(d.cloggingLevel)
    ensures r.causeType == p.causeType.GetOr(d.causeType)
    ensures r.causeDetail == p.causeDetail.GetOr(d.causeDetail)
    ensures r.description == p.description.GetOr(d.description)
    ensures r.phoneNumber == p.phoneNumber.GetOr(d.phoneNumber)
    ensures r.photo == d.photo && r.photoPreview == d.photoPreview
    ensures r.latitude == d.latitude && r.longitude == d.longitude
  {
    d.(cloggingLevel := p.cloggingLevel.GetOr(d.cloggingLevel),
       causeType := p.causeType.GetOr(d.causeType),
       causeDetail := p.causeDetail.GetOr(d.causeDetail),
       description := p.description.GetOr(d.description),
       phoneNumber := p.phoneNumber.GetOr(d.phoneNumber))
  }

  /** An empty patch changes nothing, and two patches in a row act as their spread. */
  lemma SetFormDataComposes(d: Draft, p: FormPatch, q: FormPatch)
    ensures SetFormData(d, EmptyPatch) == d
    ensures SetFormData(SetFormData(d, p), q) == SetFormData(d, Merge(p, q))
  {
  }

  /** `resetReport`: back to the initial draft from any state (the preview URL is revoked on the way). */
  function ResetReport(d: Draft): (r: Draft)
    ensures Blank(r)
  {
    Initial
  }

  lemma ResetIsIdempotent(d: Draft)
    ensures ResetReport(ResetReport(d)) == ResetReport(d)
    ensures forall e :: ResetReport(d) == ResetReport(e)
  {
  }
}
