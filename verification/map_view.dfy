/**
 * The map screen's own state (frontend/src/components/MapView.tsx): the
 * level filters, the three layer switches, the heat-map points, the
 * initial centre and the guard against overlapping downloads.
 */
module MapView {
  import opened Wrappers
  import opened ReportModel
  import MapColours

  /** The filter object; a checkbox may add a key of its own name. */
  type Filters = map<string, bool>

  const InitialFilters: Filters := map["양호" := true, "주의" := true, "막힘" := true, "폐색" := true]

  /** `handleFilterChange`: only the named key is set. */
  function HandleFilterChange(f: Filters, name: string, checked: bool): (r: Filters)
    ensures name in r && r[name] == checked
    ensures r.Keys == f.Keys + {name}
    ensures forall k :: k in f && k != name ==> r[k] == f[k]
  {
    f[name := checked]
  }

  /**
   * The names every plain object inherits from `Object.prototype`; looking
   * one of them up on the filter object yields a function, which is truthy.
   */
  const InheritedNames: set<string> := {
    "constructor", "hasOwnProperty", "isPrototypeOf", "propertyIsEnumerable", "toLocaleString",
    "toString", "valueOf", "__proto__", "__defineGetter__", "__defineSetter__",
    "__lookupGetter__", "__lookupSetter__"}

  /** `(filters as any)[level]`, read as a truth value. */
  predicate Shown(f: Filters, level: string) {
    if level in f then f[level] else level in InheritedNames
  }

  /** `reports.filter(...)`: the reports whose level is shown, in their original order. */
  function FilteredReports(reports: seq<ReportBase>, f: Filters): (r: seq<ReportBase>)
    ensures |r| <= |reports|
    ensures forall x :: x in r <==> x in reports && Shown(f, x.cloggingLevel)
  {
    if |reports| == 0 then []
    else
      var n := |reports| - 1;
      var init := FilteredReports(reports[..n], f);
      assert forall x :: x in reports <==> x in reports[..n] || x == reports[n];
      if Shown(f, reports[n].cloggingLevel) then init + [reports[n]] else init
  }

  /** Filtering distributes over concatenation: the kept reports keep their order. */
  lemma {:induction false} FilteredReportsAppend(a: seq<ReportBase>, b: seq<ReportBase>, f: Filters)
    ensures FilteredReports(a + b, f) == FilteredReports(a, f) + FilteredReports(b, f)
  {
    if |b| > 0 {
      var n := |b| - 1;
      assert a + b == (a + b[..n]) + [b[n]];
      assert b == b[..n] + [b[n]];
      FilteredSnoc(a + b[..n], b[n], f);
      FilteredSnoc(b[..n], b[n], f);
      FilteredReportsAppend(a, b[..n], f);
    } else {
      assert a + b == a;
    }
  }

  lemma FilteredSnoc(s: seq<ReportBase>, x: ReportBase, f: Filters)
    ensures FilteredReports(s + [x], f) == FilteredReports(s, f) + (if Shown(f, x.cloggingLevel) then [x] else [])
  {
    assert (s + [x])[..|s|] == s;
  }

  /** With the initial filters a report is shown exactly when its level is one of the four, or an inherited name. */
  lemma InitialFiltersShow(level: string)
    ensures Shown(InitialFilters, level) <==> level in MapColours.Levels || level in InheritedNames
  {
  }

  /** One heat-map point `[latitude, longitude, 1.0]`. */
  datatype HeatPoint = HeatPoint(latitude: real, longitude: real, intensity: real)

  /** `heatmapData(level)`: one unit-weight point per shown report of that level, in order. */
  function HeatmapData(reports: seq<ReportBase>, f: Filters, level: string): (r: seq<HeatPoint>)
    ensures |r| <= |reports|
    ensures forall p :: p in r ==> p.intensity == 1.0
    ensures forall p :: p in r <==> exists x :: x in reports && Shown(f, x.cloggingLevel) && x.cloggingLevel == level
                                                 && p == HeatPoint(x.latitude, x.longitude, 1.0)
    ensures !Shown(f, level) ==> r == []
  {
    if |reports| == 0 then []
    else
      var n := |reports| - 1;
      var init := HeatmapData(reports[..n], f, level);
      var x := reports[n];
      assert forall y :: y in reports <==> y in reports[..n] || y == x;
      if Shown(f, x.cloggingLevel) && x.cloggingLevel == level then init + [HeatPoint(x.latitude, x.longitude, 1.0)]
      else init
  }

  /** The heat-map point one report contributes to the layer of `level`. */
  function PointOf(x: ReportBase, f: Filters, level: string): seq<HeatPoint> {
    if Shown(f, x.cloggingLevel) && x.cloggingLevel == level then [HeatPoint(x.latitude, x.longitude, 1.0)] else []
  }

  /**
   * One point per shown report of the level, in report order: the points of
   * a concatenation are those of each part in order, so (with
   * `HeatmapDataOne`) two reports at the same spot give two points.
   */
  lemma {:induction false} HeatmapDataAppend(a: seq<ReportBase>, b: seq<ReportBase>, f: Filters, level: string)
    ensures HeatmapData(a + b, f, level) == HeatmapData(a, f, level) + HeatmapData(b, f, level)
  {
    if |b| > 0 {
      var n := |b| - 1;
      assert a + b == (a + b[..n]) + [b[n]];
      assert b == b[..n] + [b[n]];
      HeatmapSnoc(a + b[..n], b[n], f, level);
      HeatmapSnoc(b[..n], b[n], f, level);
      HeatmapDataAppend(a, b[..n], f, level);
    } else {
      assert a + b == a;
    }
  }

  /** One report gives its point when it is shown and of the level, and nothing otherwise. */
  lemma HeatmapDataOne(x: ReportBase, f: Filters, level: string)
    ensures HeatmapData([x], f, level) == PointOf(x, f, level)
  {
    assert [x][..0] == [];
  }

  lemma HeatmapSnoc(s: seq<ReportBase>, x: ReportBase, f: Filters, level: string)
    ensures HeatmapData(s + [x], f, level) == HeatmapData(s, f, level) + PointOf(x, f, level)
  {
    assert (s + [x])[..|s|] == s;
  }

  /** The three layer switches. */
  datatype Layers = Layers(showPoints: bool, showReportHeatmap: bool, showFloodHeatmap: bool)

  const InitialLayers := Layers(true, false, false)

  /**
   * `handleLayerToggle` as written. The clearing test reads the value from
   * before the click, so the other heat map is cleared when this one is
   * switched off, not on.
   */
  function ToggleLayer(l: Layers, layer: string): (r: Layers)
    ensures layer == "points" ==> r == l.(showPoints := !l.showPoints)
    ensures layer == "reportHeatmap" ==>
              r.showReportHeatmap == !l.showReportHeatmap && r.showPoints == l.showPoints
              && r.showFloodHeatmap == (l.showFloodHeatmap && !l.showReportHeatmap)
    ensures layer == "floodHeatmap" ==>
              r.showFloodHeatmap == !l.showFloodHeatmap && r.showPoints == l.showPoints
              && r.showReportHeatmap == (l.showReportHeatmap && !l.showFloodHeatmap)
    ensures layer !in {"points", "reportHeatmap", "floodHeatmap"} ==> r == l
  {
    if layer == "points" then l.(showPoints := !l.showPoints)
    else if layer == "reportHeatmap" then
      l.(showReportHeatmap := !l.showReportHeatmap,
         showFloodHeatmap := if l.showReportHeatmap then false else l.showFloodHeatmap)
    else if layer == "floodHeatmap" then
      l.(showFloodHeatmap := !l.showFloodHeatmap,
         showReportHeatmap := if l.showFloodHeatmap then false else l.showReportHeatmap)
    else l
  }

  /** At most one heat map is on. */
  predicate OneHeatmap(l: Layers) {
    !(l.showReportHeatmap && l.showFloodHeatmap)
  }

  /** Two clicks from the initial switches put both heat maps on. */
  lemma BothHeatmapsCanShow()
    ensures OneHeatmap(InitialLayers)
    ensures !OneHeatmap(ToggleLayer(ToggleLayer(InitialLayers, "reportHeatmap"), "floodHeatmap"))
  {
  }

  /** The evidently intended toggle: switching one heat map on switches the other off. */
  function ToggleLayerExclusive(l: Layers, layer: string): (r: Layers)
    ensures layer == "points" ==> r == l.(showPoints := !l.showPoints)
    ensures layer == "reportHeatmap" ==>
              r.showReportHeatmap == !l.showReportHeatmap && r.showPoints == l.showPoints
              && (r.showReportHeatmap ==> !r.showFloodHeatmap)
              && (!r.showReportHeatmap ==> r.showFloodHeatmap == l.showFloodHeatmap)
    ensures layer == "floodHeatmap" ==>
              r.showFloodHeatmap == !l.showFloodHeatmap && r.showPoints == l.showPoints
              && (r.showFloodHeatmap ==> !r.showReportHeatmap)
              && (!r.showFloodHeatmap ==> r.showReportHeatmap == l.showReportHeatmap)
    ensures layer !in {"points", "reportHeatmap", "floodHeatmap"} ==> r == l
    ensures OneHeatmap(l) ==> OneHeatmap(r)
  {
    if layer == "points" then l.(showPoints := !l.showPoints)
    else if layer == "reportHeatmap" then
      l.(showReportHeatmap := !l.showReportHeatmap,
         showFloodHeatmap := if !l.showReportHeatmap then false else l.showFloodHeatmap)
    else if layer == "floodHeatmap" then
      l.(showFloodHeatmap := !l.showFloodHeatmap,
         showReportHeatmap := if !l.showFloodHeatmap then false else l.showReportHeatmap)
    else l
  }

  /** Any run of corrected clicks from the initial switches keeps at most one heat map on. */
  lemma {:induction false} ExclusiveTogglesKeepOneHeatmap(clicks: seq<string>)
    ensures OneHeatmap(ApplyClicks(InitialLayers, clicks))
  {
    if |clicks| > 0 {
      ExclusiveTogglesKeepOneHeatmap(clicks[..|clicks| - 1]);
    }
  }

  function ApplyClicks(l: Layers, clicks: seq<string>): Layers {
    if |clicks| == 0 then l
    else ToggleLayerExclusive(ApplyClicks(l, clicks[..|clicks| - 1]), clicks[|clicks| - 1])
  }

  /** Gwangju city hall, the centre used when nothing better is known. */
  const DefaultCenter: (real, real) := (35.1595, 126.8526)

  /** The initial centre: the user's position, else the first report, else the default. */
  function MapCenter(userLocation: Option<(real, real)>, reports: seq<ReportBase>): (r: (real, real))
    ensures userLocation.Some? ==> r == userLocation.value
    ensures userLocation.None? && |reports| > 0 ==> r == (reports[0].latitude, reports[0].longitude)
    ensures userLocation.None? && |reports| == 0 ==> r == DefaultCenter
  {
    match userLocation
    case Some(p) => p
    case None => if |reports| > 0 then (reports[0].latitude, reports[0].longitude) else DefaultCenter
  }

  /** Whether a spreadsheet export is being prepared. */
  datatype Download = Idle | Busy

  /** Either download button: while one export runs another click does nothing. */
  function ClickDownload(s: Download): (r: (Download, bool))
    ensures r.0 == Busy
    ensures r.1 <==> s.Idle?
  {
    if s.Busy? then (Busy, false) else (Busy, true)
  }

  /** Whatever the export's outcome, the guard is released. */
  function DownloadSettled(s: Download): (r: Download)
    ensures r == Idle
  {
    Idle
  }

  /** Two clicks before the first export settles start one export. */
  lemma DoubleClickStartsOnce(s: Download)
    ensures !(ClickDownload(s).1 && ClickDownload(ClickDownload(s).0).1)
    ensures ClickDownload(DownloadSettled(ClickDownload(s).0)).1
  {
  }
}
