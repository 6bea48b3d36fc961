/** The window placement calculator (`getWindowPosition` in main.js):
    a named screen corner and the work-area size give the top-left
    coordinates of the fixed-size prompt window. */
module Placement {

  /** The prompt window is always 450 x 550 pixels, kept 20 pixels from
      the edges of the work area it is anchored to. */
  const WINDOW_WIDTH: int := 450
  const WINDOW_HEIGHT: int := 550
  const PADDING: int := 20

  /** Size of the primary display's work area; on the real system this is
      read from the screen on every call, here it is a parameter. */
  datatype Size = Size(width: int, height: int)

  /** Window coordinates; they may be negative when the work area is
      smaller than the window, since nothing clamps them. */
  datatype Point = Point(x: int, y: int)

  /** The four corner names the lookup table knows. */
  const CORNERS: set<string> := {"top-left", "top-right", "bottom-left", "bottom-right"}

  /** The lookup table of corner positions for a given work area. */
  function Positions(area: Size): (m: map<string, Point>)
    ensures m.Keys == CORNERS
  {
    map[
      "top-left" := Point(PADDING, PADDING),
      "top-right" := Point(area.width - WINDOW_WIDTH - PADDING, PADDING),
      "bottom-left" := Point(PADDING, area.height - WINDOW_HEIGHT - PADDING),
      "bottom-right" := Point(area.width - WINDOW_WIDTH - PADDING, area.height - WINDOW_HEIGHT - PADDING)
    ]
  }

  /** Where the window goes for `position`: a table lookup that falls back
      to the bottom-right entry for every name the table does not hold. */
  function Place(position: string, area: Size): (p: Point)
    ensures position == "top-left" ==> p == Point(20, 20)
    ensures position == "top-right" ==> p == Point(area.width - 470, 20)
    ensures position == "bottom-left" ==> p == Point(20, area.height - 570)
    ensures position !in {"top-left", "top-right", "bottom-left"} ==>
      p == Point(area.width - 470, area.height - 570)
    // the window is anchored to one vertical and one horizontal edge
    ensures p.x == PADDING || p.x + WINDOW_WIDTH + PADDING == area.width
    ensures p.y == PADDING || p.y + WINDOW_HEIGHT + PADDING == area.height
  {
    var positions := Positions(area);
    if position in positions then positions[position] else positions["bottom-right"]
  }

  /** Placement is total: any name other than the four corners behaves
      exactly like "bottom-right". */
  lemma FallbackIsBottomRight(position: string, area: Size)
    requires position !in CORNERS
    ensures Place(position, area) == Place("bottom-right", area)
  {
  }

  /** When the work area has room for the window and its padding on both
      sides, every placement keeps the whole window inside the work area,
      at least the padding away from every edge. */
  lemma PlacedInsideWorkArea(position: string, area: Size)
    requires area.width >= WINDOW_WIDTH + 2 * PADDING
    requires area.height >= WINDOW_HEIGHT + 2 * PADDING
    ensures var p := Place(position, area);
      PADDING <= p.x && p.x + WINDOW_WIDTH + PADDING <= area.width &&
      PADDING <= p.y && p.y + WINDOW_HEIGHT + PADDING <= area.height
  {
  }
}
