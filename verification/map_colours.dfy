/**
 * The clogging-level colour table shared by the map markers and the legend
 * (frontend/src/utils/mapUtils.ts).
 */
module MapColours {
  /** The four clogging levels, from clear to fully blocked. */
  const Levels: seq<string> := ["양호", "주의", "막힘", "폐색"]

  const Green := "#4CAF50"
  const Yellow := "#FFEB3B"
  const Orange := "#FF9800"
  const Red := "#F44336"
  const Grey := "#9E9E9E"

  /** `getCloggingLevelColor`: a colour per level, grey for anything else. */
  function LevelColour(level: string): (r: string)
    ensures r != Grey <==> level in Levels
    ensures level == Levels[0] ==> r == Green
    ensures level == Levels[1] ==> r == Yellow
    ensures level == Levels[2] ==> r == Orange
    ensures level == Levels[3] ==> r == Red
  {
    if level == "양호" then Green
    else if level == "주의" then Yellow
    else if level == "막힘" then Orange
    else if level == "폐색" then Red
    else Grey
  }

  /** No two levels share a colour, so a marker's colour names its level. */
  lemma ColourNamesLevel(a: string, b: string)
    requires a in Levels && b in Levels
    ensures LevelColour(a) == LevelColour(b) <==> a == b
  {
  }

  /** The Leaflet `divIcon` options `getMarkerIcon` builds. */
  datatype MarkerIcon = MarkerIcon(className: string, colour: string, iconSize: (int, int),
                                   iconAnchor: (int, int), popupAnchor: (int, int))

  /** `getMarkerIcon`: a round badge in the level's colour; everything else is fixed. */
  function MarkerFor(level: string): (r: MarkerIcon)
    ensures r.colour == LevelColour(level)
    ensures r.className == "custom-div-icon" && r.iconSize == (15, 15)
  {
    MarkerIcon("custom-div-icon", LevelColour(level), (15, 15), (12, 12), (0, -12))
  }

  /** Markers of two different levels look different; any other text looks like every other. */
  lemma MarkersDistinguishLevels(a: string, b: string)
    ensures a in Levels && b in Levels && a != b ==> MarkerFor(a) != MarkerFor(b)
    ensures a !in Levels && b !in Levels ==> MarkerFor(a) == MarkerFor(b)
  {
    if a in Levels && b in Levels {
      ColourNamesLevel(a, b);
    }
  }
}
