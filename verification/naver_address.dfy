/**
 * Turning the reverse-geocode proxy's reply into one address line
 * (`getAddressFromCoordinates`, frontend/src/utils/geoUtils.ts): the road
 * address first, the lot-number address as the fallback, and two fixed
 * messages for "nothing found" and "request failed".
 */
module NaverAddress {
  import opened Wrappers
  import opened JsText

  /** The names of `region.area1..area3`; `None` when the area or its name is missing. */
  datatype Region = Region(area1: Option<string>, area2: Option<string>, area3: Option<string>)

  /** `land.name` (the road name), `land.number1` and `land.number2`. */
  datatype Land = Land(name: Option<string>, number1: Option<string>, number2: Option<string>)

  /** One element of `results`: a `roadaddr`, `addr` or other item. */
  datatype Item = Item(name: string, region: Option<Region>, land: Option<Land>)

  /** The proxied body: `status.code` (missing when `status` is) and `results`. */
  datatype ProxyBody = ProxyBody(statusCode: Option<int>, results: Option<seq<Item>>)

  datatype ProxyReply = RequestFailed | Answered(body: ProxyBody)

  const NotFound := "주소 정보를 찾을 수 없습니다."
  const LoadFailed := "주소 정보를 불러오는 중 오류가 발생했습니다."
  const RoadItem := "roadaddr"
  const LotItem := "addr"

  /** `results.find(item => item.name === name)`. */
  function Find(items: seq<Item>, name: string): (r: Option<Item>)
    ensures r.Some? ==> r.value in items && r.value.name == name
    ensures r.None? <==> forall i :: 0 <= i < |items| ==> items[i].name != name
  {
    if |items| == 0 then None
    else if items[0].name == name then Some(items[0])
    else Find(items[1..], name)
  }

  /** `find` returns the first match: every item before it has another name. */
  lemma {:induction false} FindIsFirst(items: seq<Item>, name: string)
    requires Find(items, name).Some?
    ensures exists k :: 0 <= k < |items| && items[k] == Find(items, name).value &&
              forall i :: 0 <= i < k ==> items[i].name != name
  {
    if items[0].name != name {
      FindIsFirst(items[1..], name);
      var k :| 0 <= k < |items[1..]| && items[1..][k] == Find(items, name).value &&
               forall i :: 0 <= i < k ==> items[1..][i].name != name;
      assert items[k + 1] == Find(items, name).value;
      forall i | 0 <= i < k + 1
        ensures items[i].name != name
      {
        if i > 0 {
          assert items[i] == items[1..][i - 1];
        }
      }
    } else {
      assert items[0] == Find(items, name).value;
    }
  }

  /** `s += piece` when the optional text is truthy. */
  function AddIf(s: string, x: Option<string>, before: string, after: string): string {
    if Truthy(x) then s + before + x.value + after else s
  }

  /** The road line before trimming: `area1 area2 roadName number1`. */
  function RoadRaw(region: Region, land: Land): string {
    AddIf(AddIf(AddIf(AddIf("", region.area1, "", " "), region.area2, "", " "), land.name, "", ""), land.number1, " ", "")
  }

  /** The lot-number line before trimming: `area1 area2 area3 number1-number2`. */
  function LotRaw(region: Region, land: Land): string {
    AddIf(AddIf(AddIf(AddIf(AddIf("", region.area1, "", " "), region.area2, "", " "), region.area3, "", " "),
                land.number1, "", ""), land.number2, "-", "")
  }

  /**
   * The road-address step. `Failure` stands for the TypeError thrown when a
   * `roadaddr` item has `land` but no `region`; otherwise the text so far,
   * which is still `NotFound` when the step produced nothing.
   */
  function RoadStep(items: seq<Item>): (r: Result<string, ()>)
    ensures r.Failure? <==> Find(items, RoadItem).Some? && Find(items, RoadItem).value.land.Some?
                            && Find(items, RoadItem).value.region.None?
    ensures r.Success? ==> r.value != ""
    ensures Find(items, RoadItem).None? || Find(items, RoadItem).value.land.None? ==> r == Success(NotFound)
    ensures var f := Find(items, RoadItem);
            f.Some? && f.value.land.Some? && f.value.region.Some? ==>
              var line := Trim(RoadRaw(f.value.region.value, f.value.land.value));
              && r.Success?
              && (line != "" ==> r.value == line)
              && (line == "" ==> r.value == NotFound)
  {
    match Find(items, RoadItem)
    case None => Success(NotFound)
    case Some(item) =>
      if item.land.None? then Success(NotFound)
      else if item.region.None? then Failure(())
      else
        var line := Trim(RoadRaw(item.region.value, item.land.value));
        Success(if line != "" then line else NotFound)
  }

  /** The lot-number step: used only while the text is still `NotFound`. */
  function LotStep(items: seq<Item>): (r: string)
    ensures r != ""
    ensures var f := Find(items, LotItem);
            f.None? || f.value.region.None? || f.value.land.None? ==> r == NotFound
    ensures var f := Find(items, LotItem);
            f.Some? && f.value.region.Some? && f.value.land.Some? ==>
              var line := Trim(LotRaw(f.value.region.value, f.value.land.value));
              (line != "" ==> r == line) && (line == "" ==> r == NotFound)
  {
    match Find(items, LotItem)
    case None => NotFound
    case Some(item) =>
      if item.region.None? || item.land.None? then NotFound
      else
        var line := Trim(LotRaw(item.region.value, item.land.value));
        if line != "" then line else NotFound
  }

  /** The address line for a proxy reply. */
  function AddressText(reply: ProxyReply): (r: string)
    ensures r != ""
    ensures reply.RequestFailed? ==> r == LoadFailed
    ensures reply.Answered? && !(reply.body.statusCode == Some(0) && reply.body.results.Some?) ==> r == NotFound
    ensures reply.Answered? && reply.body.statusCode == Some(0) && reply.body.results.Some? ==>
              var items := reply.body.results.value;
              && (RoadStep(items).Failure? ==> r == LoadFailed)
              && (RoadStep(items).Success? && RoadStep(items).value != NotFound ==> r == RoadStep(items).value)
              && (RoadStep(items) == Success(NotFound) ==> r == LotStep(items))
  {
    match reply
    case RequestFailed => LoadFailed
    case Answered(body) =>
      if !(body.statusCode == Some(0) && body.results.Some?) then NotFound
      else
        var items := body.results.value;
        match RoadStep(items)
        case Failure(_) => LoadFailed
        case Success(text) => if text == NotFound then LotStep(items) else text
  }

  /** A filled-in, untrimmed-looking piece: present, non-empty, no white space at either end. */
  predicate Word(x: Option<string>) {
    Truthy(x) && Clean(x.value)
  }

  /** With clean names, the road line is `area1 area2 roadName`, then ` number1` when there is one. */
  lemma RoadLineShape(region: Region, land: Land)
    requires Word(region.area1) && Word(region.area2) && Word(land.name)
    requires land.number1.None? || Clean(land.number1.value)
    ensures Trim(RoadRaw(region, land)) ==
              region.area1.value + " " + region.area2.value + " " + land.name.value
              + (if Truthy(land.number1) then " " + land.number1.value else "")
  {
    var a1, a2, road := region.area1.value, region.area2.value, land.name.value;
    var p := a1 + " " + a2 + " ";
    assert AddIf(AddIf("", region.area1, "", " "), region.area2, "", " ") == p;
    assert p[0] == a1[0];
    var base := p + road;
    assert AddIf(p, land.name, "", "") == base;
    CleanSpan(p, road);
    if Truthy(land.number1) {
      CleanSpan(base, " " + land.number1.value);
      assert RoadRaw(region, land) == base + (" " + land.number1.value);
      TrimClean(base + (" " + land.number1.value));
    } else {
      TrimClean(base);
    }
  }

  /** With clean names, the lot line is `area1 area2 area3 number1`, then `-number2` when there is one. */
  lemma LotLineShape(region: Region, land: Land)
    requires Word(region.area1) && Word(region.area2) && Word(region.area3) && Word(land.number1)
    requires land.number2.None? || Clean(land.number2.value)
    ensures Trim(LotRaw(region, land)) ==
              region.area1.value + " " + region.area2.value + " " + region.area3.value + " " + land.number1.value
              + (if Truthy(land.number2) then "-" + land.number2.value else "")
  {
    var a1, a2, a3, n1 := region.area1.value, region.area2.value, region.area3.value, land.number1.value;
    var p := a1 + " " + a2 + " " + a3 + " ";
    assert AddIf(AddIf(AddIf("", region.area1, "", " "), region.area2, "", " "), region.area3, "", " ") == p;
    assert p[0] == a1[0];
    var base := p + n1;
    assert AddIf(p, land.number1, "", "") == base;
    CleanSpan(p, n1);
    if Truthy(land.number2) {
      CleanSpan(base, "-" + land.number2.value);
      assert LotRaw(region, land) == base + ("-" + land.number2.value);
      TrimClean(base + ("-" + land.number2.value));
    } else {
      TrimClean(base);
    }
  }

  /**
   * End to end: when the first `roadaddr` item carries clean names, the
   * address line is the road line of `RoadLineShape` (unless that line
   * happens to spell the not-found message, which sends the lookup on to the
   * lot-number item).
   */
  lemma RoadAddressText(items: seq<Item>, region: Region, land: Land)
    requires Find(items, RoadItem) == Some(Item(RoadItem, Some(region), Some(land)))
    requires Word(region.area1) && Word(region.area2) && Word(land.name)
    requires land.number1.None? || Clean(land.number1.value)
    ensures var line := region.area1.value + " " + region.area2.value + " " + land.name.value
                        + (if Truthy(land.number1) then " " + land.number1.value else "");
            line != NotFound ==> AddressText(Answered(ProxyBody(Some(0), Some(items)))) == line
  {
    RoadLineShape(region, land);
  }

  /**
   * End to end: without a usable `roadaddr` item, a first `addr` item with
   * clean names gives the lot line of `LotLineShape`.
   */
  lemma LotAddressText(items: seq<Item>, region: Region, land: Land)
    requires Find(items, RoadItem).None? || Find(items, RoadItem).value.land.None?
    requires Find(items, LotItem) == Some(Item(LotItem, Some(region), Some(land)))
    requires Word(region.area1) && Word(region.area2) && Word(region.area3) && Word(land.number1)
    requires land.number2.None? || Clean(land.number2.value)
    ensures AddressText(Answered(ProxyBody(Some(0), Some(items)))) ==
              region.area1.value + " " + region.area2.value + " " + region.area3.value + " " + land.number1.value
              + (if Truthy(land.number2) then "-" + land.number2.value else "")
  {
    LotLineShape(region, land);
  }

  /** Text that starts and ends without white space is left alone by `trim`. */
  lemma CleanSpan(a: string, b: string)
    requires a != "" && !IsSpace(a[0]) && b != "" && !IsSpace(b[|b| - 1])
    ensures Clean(a + b) && (a + b)[0] == a[0]
  {
    assert (a + b)[|a + b| - 1] == b[|b| - 1];
  }

  /** The lot-number item is looked at only when the road step produced nothing. */
  lemma RoadAddressWins(items: seq<Item>, lot: seq<Item>)
    requires RoadStep(items).Success? && RoadStep(items).value != NotFound
    ensures AddressText(Answered(ProxyBody(Some(0), Some(items)))) == RoadStep(items).value
    ensures AddressText(Answered(ProxyBody(Some(0), Some(items + lot)))) == RoadStep(items).value
  {
    var road := Find(items, RoadItem);
    assert road.Some?;
    FindPrefix(items, lot, RoadItem);
  }

  lemma {:induction false} FindPrefix(items: seq<Item>, more: seq<Item>, name: string)
    requires Find(items, name).Some?
    ensures Find(items + more, name) == Find(items, name)
  {
    if items[0].name != name {
      assert (items + more)[1..] == items[1..] + more;
      FindPrefix(items[1..], more, name);
    }
  }
}
