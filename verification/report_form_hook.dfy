/**
 * The report form's state hook (frontend/src/hooks/useReportForm.ts): the
 * field handlers, the phone-number sanitiser and the ordered checks run
 * before a report is posted.
 */
module ReportFormHook {
  import opened Wrappers
  import opened JsText
  import D = ReportDraft

  datatype PhoneParts = PhoneParts(part1: string, part2: string, part3: string)

  datatype FormState = FormState(
    cloggingLevel: string,
    causeType: string,
    causeDetail: string,
    description: string,
    phoneNumber: PhoneParts)

  const InitialForm := FormState("", "", "", "", PhoneParts("", "", ""))

  datatype PhonePart = Part1 | Part2 | Part3

  /** The longest text each phone box keeps: 3, 4 and 4 digits. */
  function MaxLength(part: PhonePart): nat {
    match part
    case Part1 => 3
    case Part2 => 4
    case Part3 => 4
  }

  function Part(p: PhoneParts, part: PhonePart): string {
    match part
    case Part1 => p.part1
    case Part2 => p.part2
    case Part3 => p.part3
  }

  function Min(a: nat, b: nat): nat {
    if a <= b then a else b
  }

  /** Keep the ASCII digits of the typed text, then cut it to the box's length. */
  function Sanitise(part: PhonePart, value: string): (r: string)
    ensures AllDigits(r)
    ensures |r| == Min(|DigitsOnly(value)|, MaxLength(part))
    ensures r == DigitsOnly(value)[..|r|]
  {
    var digits := DigitsOnly(value);
    digits[..Min(|digits|, MaxLength(part))]
  }

  /** Sanitising what was already sanitised changes nothing. */
  lemma SanitiseIdempotent(part: PhonePart, value: string)
    ensures Sanitise(part, Sanitise(part, value)) == Sanitise(part, value)
  {
    var once := Sanitise(part, value);
    assert DigitsOnly(once) == once;
  }

  /** `handlePhoneNumberChange`: the named box gets the sanitised text, and nothing else moves. */
  function HandlePhoneNumberChange(s: FormState, part: PhonePart, value: string): (r: FormState)
    ensures Part(r.phoneNumber, part) == Sanitise(part, value)
    ensures forall q :: q != part ==> Part(r.phoneNumber, q) == Part(s.phoneNumber, q)
    ensures r.(phoneNumber := s.phoneNumber) == s
  {
    s.(phoneNumber := WithPart(s.phoneNumber, part, Sanitise(part, value)))
  }

  /** The boxes with `part` replaced by `v`. */
  function WithPart(p: PhoneParts, part: PhonePart, v: string): (r: PhoneParts)
    ensures Part(r, part) == v
    ensures forall q :: q != part ==> Part(r, q) == Part(p, q)
  {
    match part
    case Part1 => p.(part1 := v)
    case Part2 => p.(part2 := v)
    case Part3 => p.(part3 := v)
  }

  /** The two free-text inputs routed through `handleChange` by their `name`. */
  datatype TextField = CauseDetailField | DescriptionField

  function HandleChange(s: FormState, field: TextField, value: string): (r: FormState)
    ensures field == CauseDetailField ==> r == s.(causeDetail := value)
    ensures field == DescriptionField ==> r == s.(description := value)
  {
    match field
    case CauseDetailField => s.(causeDetail := value)
    case DescriptionField => s.(description := value)
  }

  function HandleCauseClick(s: FormState, cause: string): (r: FormState)
    ensures r.causeType == cause && r.(causeType := s.causeType) == s
  {
    s.(causeType := cause)
  }

  function HandleCloggingLevelClick(s: FormState, level: string): (r: FormState)
    ensures r.cloggingLevel == level && r.(cloggingLevel := s.cloggingLevel) == s
  {
    s.(cloggingLevel := level)
  }

  /** Every phone box holds only digits, no more than it may. */
  predicate Sanitised(s: FormState) {
    forall part: PhonePart :: AllDigits(Part(s.phoneNumber, part)) && |Part(s.phoneNumber, part)| <= MaxLength(part)
  }

  /** The handlers keep the phone boxes sanitised from the initial state on. */
  lemma HandlersKeepSanitised(s: FormState, part: PhonePart, value: string, field: TextField, choice: string)
    requires Sanitised(s)
    ensures Sanitised(InitialForm)
    ensures Sanitised(HandlePhoneNumberChange(s, part, value))
    ensures Sanitised(HandleChange(s, field, choice))
    ensures Sanitised(HandleCauseClick(s, choice)) && Sanitised(HandleCloggingLevelClick(s, choice))
  {
    var r := HandlePhoneNumberChange(s, part, value);
    forall q: PhonePart
      ensures AllDigits(Part(r.phoneNumber, q)) && |Part(r.phoneNumber, q)| <= MaxLength(q)
    {
      if q != part {
        assert Part(r.phoneNumber, q) == Part(s.phoneNumber, q);
      }
    }
  }

  /** `Object.values(phoneNumber).join("")`: the boxes in key order. */
  function FullPhoneNumber(p: PhoneParts): (r: string)
    ensures |r| == |p.part1| + |p.part2| + |p.part3|
    ensures r[..|p.part1|] == p.part1 && r[|p.part1|..|p.part1| + |p.part2|] == p.part2
    ensures r[|p.part1| + |p.part2|..] == p.part3
  {
    p.part1 + p.part2 + p.part3
  }

  const NoPhoto := "사진 정보가 없습니다. 다시 시도해주세요."
  const NoPosition := "GPS 위치 정보가 필요합니다. 잠시 후 다시 시도해주세요."
  const NoLevel := "막힘 정도를 선택해주세요."
  const NoCause := "막힘 원인을 선택해주세요."
  const BadPhone := "연락처를 올바르게 입력해주세요."
  const Sending := "신고를 접수하는 중입니다..."
  const Accepted := "신고가 성공적으로 접수되었습니다! 감사합니다."
  const FailurePrefix := "신고 접수 실패: "
  const MinPhoneLength := 10

  /** A number is truthy unless it is missing or zero. */
  predicate TruthyNumber(x: Option<real>) {
    x.Some? && x.value != 0.0
  }

  /** The multipart body posted to the reports API. */
  datatype Payload = Payload(
    photo: D.Photo,
    latitude: real,
    longitude: real,
    cloggingLevel: string,
    causeType: string,
    causeDetail: string,
    description: string,
    phoneNumber: string)

  /**
   * The checks at the top of `handleSubmit`, in their order: photo, position,
   * level, cause, then at least ten phone digits. The first that fails names
   * the message; when all pass, the payload to post.
   */
  function Validate(d: D.Draft, s: FormState): (r: Result<Payload, string>)
    ensures d.photo.None? ==> r == Failure(NoPhoto)
    ensures d.photo.Some? && !(TruthyNumber(d.latitude) && TruthyNumber(d.longitude)) ==> r == Failure(NoPosition)
    ensures d.photo.Some? && TruthyNumber(d.latitude) && TruthyNumber(d.longitude) && s.cloggingLevel == "" ==>
              r == Failure(NoLevel)
    ensures (d.photo.Some? && TruthyNumber(d.latitude) && TruthyNumber(d.longitude) && s.cloggingLevel != ""
             && s.causeType == "") ==> r == Failure(NoCause)
    ensures (d.photo.Some? && TruthyNumber(d.latitude) && TruthyNumber(d.longitude) && s.cloggingLevel != ""
             && s.causeType != "" && |FullPhoneNumber(s.phoneNumber)| < MinPhoneLength) ==> r == Failure(BadPhone)
    ensures r.Success? <==>
              && d.photo.Some? && TruthyNumber(d.latitude) && TruthyNumber(d.longitude)
              && s.cloggingLevel != "" && s.causeType != "" && |FullPhoneNumber(s.phoneNumber)| >= MinPhoneLength
    ensures r.Failure? ==> r.error in {NoPhoto, NoPosition, NoLevel, NoCause, BadPhone}
    ensures r.Success? ==>
              && r.value.photo == d.photo.value
              && r.value.latitude == d.latitude.value != 0.0
              && r.value.longitude == d.longitude.value != 0.0
              && r.value.cloggingLevel == s.cloggingLevel && r.value.causeType == s.causeType
              && r.value.causeDetail == s.causeDetail && r.value.description == s.description
              && r.value.phoneNumber == FullPhoneNumber(s.phoneNumber)
  {
    if d.photo.None? then Failure(NoPhoto)
    else if !TruthyNumber(d.latitude) || !TruthyNumber(d.longitude) then Failure(NoPosition)
    else if s.cloggingLevel == "" then Failure(NoLevel)
    else if s.causeType == "" then Failure(NoCause)
    else
      var phone := FullPhoneNumber(s.phoneNumber);
      if |phone| < MinPhoneLength then Failure(BadPhone)
      else Success(Payload(d.photo.value, d.latitude.value, d.longitude.value, s.cloggingLevel,
                           s.causeType, s.causeDetail, s.description, phone))
  }

  /** A form whose boxes stayed sanitised can only be posted with a 10- or 11-digit number. */
  lemma AcceptedPhoneHasTenOrElevenDigits(d: D.Draft, s: FormState)
    requires Sanitised(s)
    requires Validate(d, s).Success?
    ensures AllDigits(Validate(d, s).value.phoneNumber)
    ensures 10 <= |Validate(d, s).value.phoneNumber| <= 11
  {
    assert AllDigits(Part(s.phoneNumber, Part1)) && |Part(s.phoneNumber, Part1)| <= 3;
    assert AllDigits(Part(s.phoneNumber, Part2)) && |Part(s.phoneNumber, Part2)| <= 4;
    assert AllDigits(Part(s.phoneNumber, Part3)) && |Part(s.phoneNumber, Part3)| <= 4;
  }

  /** How the post went: accepted, or an error with the server's message if it sent one. */
  datatype PostOutcome = Posted | PostFailed(serverMessage: Option<string>, errorMessage: string)

  /** What the hook and the shared draft hold once `handleSubmit` has settled. */
  datatype Submitted = Submitted(message: string, isSubmitting: bool, draft: D.Draft, goHome: bool)

  /** The patch `{...formState, phoneNumber: fullPhoneNumber}` written to the draft before posting. */
  function FormPatchOf(s: FormState): D.FormPatch {
    D.FormPatch(Some(s.cloggingLevel), Some(s.causeType), Some(s.causeDetail), Some(s.description),
                Some(FullPhoneNumber(s.phoneNumber)))
  }

  /**
   * `handleSubmit`. A failed check only sets its message. Otherwise the form
   * is copied into the draft and posted: success resets the draft and heads
   * home while the button stays disabled; failure re-enables it and reports
   * the server's message, or the transport's when the server sent none.
   */
  function HandleSubmit(isSubmitting: bool, d: D.Draft, s: FormState, post: Payload -> PostOutcome): (r: Submitted)
    ensures Validate(d, s).Failure? ==> r == Submitted(Validate(d, s).error, isSubmitting, d, false)
    ensures Validate(d, s).Success? && post(Validate(d, s).value).Posted? ==>
              r.message == Accepted && r.isSubmitting && r.goHome && D.Blank(r.draft)
    ensures Validate(d, s).Success? && post(Validate(d, s).value).PostFailed? ==>
              var f := post(Validate(d, s).value);
              && r.message == FailurePrefix + (if Truthy(f.serverMessage) then f.serverMessage.value else f.errorMessage)
              && !r.isSubmitting && !r.goHome
              && r.draft == D.SetFormData(d, FormPatchOf(s))
              && r.draft.phoneNumber == FullPhoneNumber(s.phoneNumber)
  {
    match Validate(d, s)
    case Failure(message) => Submitted(message, isSubmitting, d, false)
    case Success(payload) =>
      var saved := D.SetFormData(d, FormPatchOf(s));
      match post(payload)
      case Posted => Submitted(Accepted, true, D.ResetReport(saved), true)
      case PostFailed(server, error) =>
        var reason := if Truthy(server) then server.value else error;
        Submitted(FailurePrefix + reason, false, saved, false)
  }
}
