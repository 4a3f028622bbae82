/**
 * The report form screen (frontend/src/components/ReportForm.tsx): its
 * mount-time guards, the Nominatim address line, the phone-box focus moves
 * and the option lists it offers.
 */
module ReportFormScreen {
  import opened Wrappers
  import opened JsText
  import D = ReportDraft
  import H = ReportFormHook
  import MapColours

  const GuidePath := "/report/guide"

  /**
   * The photo effect: without a file the screen sends the user to the
   * guide; with one it stores the compressed photo, or the original when
   * compression failed (`compressed` is `None`).
   */
  function OnPhoto(d: D.Draft, file: Option<D.Photo>, compressed: Option<D.Photo>,
                   objectUrl: D.Photo -> string): (r: (D.Draft, Option<string>))
    ensures file.None? ==> r == (d, Some(GuidePath))
    ensures file.Some? ==> r.1.None? && r.0.photo.Some? && r.0.photo.value in {file.value, compressed.GetOr(file.value)}
    ensures file.Some? && compressed.Some? ==> r.0 == D.SetPhoto(d, compressed.value, objectUrl)
    ensures file.Some? && compressed.None? ==> r.0 == D.SetPhoto(d, file.value, objectUrl)
  {
    match file
    case None => (d, Some(GuidePath))
    case Some(f) => (D.SetPhoto(d, compressed.GetOr(f), objectUrl), None)
  }

  /** The GPS effect runs only while a coordinate is missing or zero. */
  predicate NeedsPosition(d: D.Draft) {
    !H.TruthyNumber(d.latitude) || !H.TruthyNumber(d.longitude)
  }

  /** The address effect runs only once both coordinates are truthy. */
  predicate FetchesAddress(d: D.Draft) {
    d.latitude.Some? && d.latitude.value != 0.0 && d.longitude.Some? && d.longitude.value != 0.0
  }

  /** For every draft exactly one of the two location effects does anything. */
  lemma LocationEffectsAlternate(d: D.Draft)
    ensures NeedsPosition(d) <==> !FetchesAddress(d)
  {
  }

  const Locating := "GPS 위치 정보를 가져오는 중..."
  const Located := "GPS 위치 정보 획득 성공!"
  const LocateFailedPrefix := "GPS 위치 정보 획득 실패: "
  const NoGeolocation := "이 브라우저는 위치 정보를 지원하지 않습니다."

  /** What `navigator.geolocation` gives back. */
  datatype GpsOutcome = Position(latitude: real, longitude: real) | GpsError(message: string) | Unsupported

  /** The GPS effect: the draft it leaves and the GPS message it shows, if it ran. */
  function OnLocate(d: D.Draft, g: GpsOutcome): (r: (D.Draft, Option<string>))
    ensures !NeedsPosition(d) ==> r == (d, None)
    ensures NeedsPosition(d) && g.Position? ==> r == (D.SetLocation(d, g.latitude, g.longitude), Some(Located))
    ensures NeedsPosition(d) && !g.Position? ==> r.0 == d && r.1.Some?
    ensures NeedsPosition(d) && g.GpsError? ==> r.1 == Some(LocateFailedPrefix + g.message)
    ensures NeedsPosition(d) && g.Unsupported? ==> r.1 == Some(NoGeolocation)
  {
    if !NeedsPosition(d) then (d, None)
    else match g
      case Position(lat, lng) => (D.SetLocation(d, lat, lng), Some(Located))
      case GpsError(message) => (d, Some(LocateFailedPrefix + message))
      case Unsupported => (d, Some(NoGeolocation))
  }

  /** The part of a Nominatim `address` object the screen reads; a missing key is `None`. */
  datatype NominatimAddress = NominatimAddress(
    state: Option<string>, city: Option<string>, town: Option<string>, village: Option<string>,
    county: Option<string>, neighbourhood: Option<string>, suburb: Option<string>,
    road: Option<string>, houseNumber: Option<string>)

  /** The reply: a failed fetch, or a body with or without an `address` object. */
  datatype NominatimReply = FetchFailed | Body(address: Option<NominatimAddress>)

  const AddressNotFound := "주소를 찾을 수 없습니다."
  const AddressFetchFailed := "주소 정보를 가져오는 데 실패했습니다."

  /** `a || b` on optional strings, with "" as the last resort. */
  function Or(a: Option<string>, b: string): string {
    if Truthy(a) then a.value else b
  }

  /** The five components followed by a space, in the order the screen appends them. */
  function Components(a: NominatimAddress): seq<string> {
    [Or(a.state, ""), Or(a.city, Or(a.town, Or(a.village, ""))), Or(a.county, ""),
     Or(a.neighbourhood, Or(a.suburb, "")), Or(a.road, "")]
  }

  /** `fullAddress += w + " "` for each non-empty `w`, in order. */
  function Spaced(ws: seq<string>): (r: string)
    ensures r == "" <==> NonEmpty(ws) == []
  {
    if |ws| == 0 then ""
    else
      var n := |ws| - 1;
      if ws[n] != "" then Spaced(ws[..n]) + ws[n] + " " else Spaced(ws[..n])
  }

  function NonEmpty(ws: seq<string>): (r: seq<string>)
    ensures |r| <= |ws|
    ensures forall w :: w in r <==> w in ws && w != ""
  {
    if |ws| == 0 then []
    else
      var n := |ws| - 1;
      if ws[n] != "" then NonEmpty(ws[..n]) + [ws[n]] else NonEmpty(ws[..n])
  }

  /** The reference form: the words separated by single spaces. */
  function Join(ws: seq<string>): (r: string)
    ensures |ws| > 0 ==> |r| >= |ws[|ws| - 1]|
  {
    if |ws| == 0 then ""
    else if |ws| == 1 then ws[0]
    else Join(ws[..|ws| - 1]) + " " + ws[|ws| - 1]
  }

  /** The address line before trimming. */
  function RawAddress(a: NominatimAddress): string {
    Spaced(Components(a)) + Or(a.houseNumber, "")
  }

  /** The address line the screen shows for a Nominatim reply. */
  function AddressLine(reply: NominatimReply): (r: string)
    ensures reply.FetchFailed? ==> r == AddressFetchFailed
    ensures reply.Body? && reply.address.None? ==> r == AddressNotFound
    ensures reply.Body? && reply.address.Some? ==>
              r == (if Trim(RawAddress(reply.address.value)) == "" then AddressNotFound
                    else Trim(RawAddress(reply.address.value)))
    ensures r != ""
  {
    match reply
    case FetchFailed => AddressFetchFailed
    case Body(None) => AddressNotFound
    case Body(Some(a)) =>
      var line := Trim(RawAddress(a));
      if line == "" then AddressNotFound else line
  }

  lemma {:induction false} SpacedIsJoin(ws: seq<string>)
    ensures Spaced(ws) == if NonEmpty(ws) == [] then "" else Join(NonEmpty(ws)) + " "
  {
    if |ws| > 0 {
      var n := |ws| - 1;
      var w := ws[n];
      var prev := NonEmpty(ws[..n]);
      SpacedIsJoin(ws[..n]);
      if w != "" {
        assert NonEmpty(ws) == prev + [w];
        assert Spaced(ws) == Spaced(ws[..n]) + w + " ";
        if prev == [] {
          assert prev + [w] == [w];
        } else {
          JoinSnoc(prev, w);
        }
      } else {
        assert NonEmpty(ws) == prev;
        assert Spaced(ws) == Spaced(ws[..n]);
      }
    }
  }

  lemma JoinSnoc(ws: seq<string>, w: string)
    requires ws != []
    ensures Join(ws + [w]) == Join(ws) + " " + w
  {
    assert (ws + [w])[..|ws|] == ws;
  }

  /** Words with no white space at either end, none empty. */
  predicate Words(ws: seq<string>) {
    forall i :: 0 <= i < |ws| ==> ws[i] != "" && Clean(ws[i])
  }

  lemma {:induction false} JoinEnds(ws: seq<string>)
    requires Words(ws) && |ws| > 0
    ensures var j := Join(ws); |j| > 0 && j[0] == ws[0][0] && j[|j| - 1] == ws[|ws| - 1][|ws[|ws| - 1]| - 1]
  {
    if |ws| > 1 {
      var init := ws[..|ws| - 1];
      assert Words(init);
      JoinEnds(init);
      assert init[0] == ws[0];
    }
  }

  lemma NonEmptyWords(ws: seq<string>)
    requires forall i :: 0 <= i < |ws| ==> Clean(ws[i])
    ensures Words(NonEmpty(ws))
  {
    var ne := NonEmpty(ws);
    forall i | 0 <= i < |ne|
      ensures ne[i] != "" && Clean(ne[i])
    {
      assert ne[i] in ne;
      var k :| 0 <= k < |ws| && ws[k] == ne[i];
    }
  }

  lemma TrimTrailingSpace(s: string)
    requires s != "" && Clean(s)
    ensures Trim(s + " ") == s
  {
    var t := s + " ";
    assert t[..|s|] == s;
    assert TrimEnd(t) == TrimEnd(s);
    TrimClean(s);
  }

  /**
   * When every component has no white space at either end, the shown line is
   * the non-empty components, in the order state, city (or town, or
   * village), county, neighbourhood (or suburb), road, house number,
   * separated by single spaces.
   */
  lemma AddressLineIsJoinedComponents(a: NominatimAddress)
    requires forall i :: 0 <= i < 5 ==> Clean(Components(a)[i])
    requires Clean(Or(a.houseNumber, ""))
    ensures Trim(RawAddress(a)) == Join(NonEmpty(Components(a) + [Or(a.houseNumber, "")]))
  {
    TrimSpacedThen(Components(a), Or(a.houseNumber, ""));
  }

  /** The spaced words followed by a last word, trimmed, are all the non-empty words joined. */
  lemma TrimSpacedThen(cs: seq<string>, h: string)
    requires forall i :: 0 <= i < |cs| ==> Clean(cs[i])
    requires Clean(h)
    ensures Trim(Spaced(cs) + h) == Join(NonEmpty(cs + [h]))
  {
    NonEmptySnoc(cs, h);
    SpacedIsJoin(cs);
    NonEmptyWords(cs);
    if h == "" {
      TrimSpacedThenNothing(NonEmpty(cs), Spaced(cs));
    } else {
      TrimSpacedThenWord(NonEmpty(cs), Spaced(cs), h);
    }
  }

  lemma NonEmptySnoc(ws: seq<string>, w: string)
    ensures NonEmpty(ws + [w]) == NonEmpty(ws) + (if w == "" then [] else [w])
  {
    assert (ws + [w])[..|ws|] == ws;
  }

  lemma TrimSpacedThenNothing(ws: seq<string>, spaced: string)
    requires Words(ws)
    requires spaced == if ws == [] then "" else Join(ws) + " "
    ensures Trim(spaced + "") == Join(ws + [])
  {
    assert spaced + "" == spaced;
    assert ws + [] == ws;
    TrimSpaced(ws);
  }

  lemma TrimSpacedThenWord(ws: seq<string>, spaced: string, h: string)
    requires Words(ws) && h != "" && Clean(h)
    requires spaced == if ws == [] then "" else Join(ws) + " "
    ensures Trim(spaced + h) == Join(ws + [h])
  {
    if ws == [] {
      assert spaced + h == h;
      assert ws + [h] == [h];
      TrimClean(h);
    } else {
      assert spaced + h == Join(ws) + " " + h;
      JoinedWithLast(ws, h);
    }
  }

  lemma TrimSpaced(ws: seq<string>)
    requires Words(ws)
    ensures Trim(if ws == [] then "" else Join(ws) + " ") == Join(ws)
  {
    if ws != [] {
      JoinEnds(ws);
      TrimTrailingSpace(Join(ws));
    }
  }

  lemma JoinedWithLast(ws: seq<string>, h: string)
    requires Words(ws) && ws != [] && h != "" && Clean(h)
    ensures Trim(Join(ws) + " " + h) == Join(ws + [h])
  {
    assert (ws + [h])[..|ws|] == ws;
    assert Join(ws + [h]) == Join(ws) + " " + h;
    assert Words(ws + [h]);
    JoinEnds(ws + [h]);
    TrimClean(Join(ws + [h]));
  }

  /**
   * Which phone box has focus after typing into `part`: forward when the raw
   * text's `length`, counted in UTF-16 code units, fills the box.
   */
  function FocusAfterInput(part: H.PhonePart, raw: string): (r: Option<H.PhonePart>)
    ensures r == Some(H.Part2) <==> part == H.Part1 && Utf16Length(raw) == 3
    ensures r == Some(H.Part3) <==> part == H.Part2 && Utf16Length(raw) == 4
    ensures r != Some(H.Part1)
  {
    if part == H.Part1 && Utf16Length(raw) == 3 then Some(H.Part2)
    else if part == H.Part2 && Utf16Length(raw) == 4 then Some(H.Part3)
    else None
  }

  /**
   * The length is in code units: an emoji and a digit make three, so focus
   * moves on from the first box although only two characters were typed.
   */
  lemma SurrogatePairCountsTwice()
    ensures |"\U{1F600}1"| == 2
    ensures FocusAfterInput(H.Part1, "\U{1F600}1") == Some(H.Part2)
  {
    var s := "\U{1F600}1";
    assert s == ['\U{1F600}'] + ['1'];
    Utf16LengthAppend(['\U{1F600}'], ['1']);
    Utf16LengthOne('\U{1F600}');
    Utf16LengthOne('1');
  }

  /** Backspace in an empty box moves focus one box back; the first box keeps it. */
  function FocusAfterKey(part: H.PhonePart, key: string, current: string): (r: Option<H.PhonePart>)
    ensures r == Some(H.Part2) <==> part == H.Part3 && key == "Backspace" && current == ""
    ensures r == Some(H.Part1) <==> part == H.Part2 && key == "Backspace" && current == ""
    ensures r != Some(H.Part3)
  {
    if key == "Backspace" && current == "" then
      match part
      case Part3 => Some(H.Part2)
      case Part2 => Some(H.Part1)
      case Part1 => None
    else None
  }

  /** A forward move is undone by a backspace in the (still empty) box it moved to. */
  lemma FocusMovesAreInverse(part: H.PhonePart, raw: string)
    requires FocusAfterInput(part, raw).Some?
    ensures FocusAfterKey(FocusAfterInput(part, raw).value, "Backspace", "") == Some(part)
  {
  }

  const CloggingLevelOptions: seq<string> := ["양호", "주의", "막힘", "폐색"]
  const CauseOptions: seq<string> := ["안막힘", "쓰레기", "담배꽁초", "낙엽", "시멘트", "나뭇가지", "폐기물", "토사", "기타"]
  const OtherCause := "기타"

  /** The free-text cause box is shown only for the "other" cause. */
  function ShowsCauseDetail(s: H.FormState): (r: bool)
    ensures r <==> s.causeType == OtherCause
    ensures r ==> s.causeType in CauseOptions
  {
    s.causeType == OtherCause
  }

  lemma OptionsAreDistinct()
    ensures |CloggingLevelOptions| == 4 && |CauseOptions| == 9
    ensures forall i, j :: 0 <= i < j < |CloggingLevelOptions| ==> CloggingLevelOptions[i] != CloggingLevelOptions[j]
    ensures forall i, j :: 0 <= i < j < |CauseOptions| ==> CauseOptions[i] != CauseOptions[j]
  {
  }

  /** The levels the form offers are the ones the map colours; none of them shows grey. */
  lemma OfferedLevelsAreColoured()
    ensures CloggingLevelOptions == MapColours.Levels
    ensures forall o :: o in CloggingLevelOptions ==> MapColours.LevelColour(o) != MapColours.Grey
  {
  }
}
