/**
 * The application frame (frontend/src/App.tsx): the header title taken from
 * the matched routes and the choice between the desktop and mobile layouts.
 */
module AppShell {
  import opened Wrappers

  const DefaultTitle := "빗물받이 신고 시스템"
  const DesktopMinWidth := 768

  /** A route's `handle`, which may carry a title. */
  datatype RouteHandle = RouteHandle(title: Option<string>)

  /** One element of `useMatches()`; routes without a handle have `None`. */
  datatype RouteMatch = RouteMatch(id: string, pathname: string, handle: Option<RouteHandle>)

  predicate Titled(m: RouteMatch) {
    m.handle.Some? && Truthy(m.handle.value.title)
  }

  /** `getTitleFromMatches`: the title of the first match that has one, else the default. */
  function TitleFromMatches(matches: seq<RouteMatch>): (r: string)
    ensures r != ""
    ensures (forall i :: 0 <= i < |matches| ==> !Titled(matches[i])) ==> r == DefaultTitle
    ensures |matches| > 0 && Titled(matches[0]) ==> r == matches[0].handle.value.title.value
  {
    if |matches| == 0 then DefaultTitle
    else if Titled(matches[0]) then matches[0].handle.value.title.value
    else TitleFromMatches(matches[1..])
  }

  /** The title comes from the first titled match, whatever precedes it untitled and whatever follows. */
  lemma {:induction false} FirstTitledMatchWins(untitled: seq<RouteMatch>, m: RouteMatch, rest: seq<RouteMatch>)
    requires forall i :: 0 <= i < |untitled| ==> !Titled(untitled[i])
    requires Titled(m)
    ensures TitleFromMatches(untitled + [m] + rest) == m.handle.value.title.value
  {
    if |untitled| > 0 {
      assert (untitled + [m] + rest)[1..] == untitled[1..] + [m] + rest;
      FirstTitledMatchWins(untitled[1..], m, rest);
    }
  }

  /** What the frame draws around the page. */
  datatype Frame = Frame(className: string, topNav: bool, header: Option<string>, bottomNav: bool,
                         spinner: bool, pageOpacity: real)

  /**
   * A window wider than 768 pixels gets the desktop frame (top navigation
   * only); anything narrower gets the titled header and the bottom bar.
   * While a route loads, a spinner shows over a half-transparent page.
   */
  function Layout(width: int, matches: seq<RouteMatch>, loading: bool): (r: Frame)
    ensures r.topNav <==> width > DesktopMinWidth
    ensures r.topNav <==> r.header.None?
    ensures r.bottomNav <==> r.header.Some?
    ensures r.header.Some? ==> r.header.value == TitleFromMatches(matches)
    ensures r.className == (if width > DesktopMinWidth then "App pc-layout" else "App")
    ensures r.spinner == loading && r.pageOpacity == (if loading then 0.5 else 1.0)
  {
    var pc := width > DesktopMinWidth;
    Frame(if pc then "App pc-layout" else "App", pc, if pc then None else Some(TitleFromMatches(matches)),
          !pc, loading, if loading then 0.5 else 1.0)
  }
}
