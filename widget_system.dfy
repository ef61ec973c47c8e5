/**
 * The pure logic of the desktop widget: the edge a dragged handle snaps to,
 * where a handle sits on its edge, the position names shown in the settings
 * dialog, and the progress/remaining-time summary of a managed process.
 * Screen geometry comes from the windowing system and is a parameter here.
 */
module WidgetSystem {
  import opened Wrappers
  import opened DataModels

  datatype Position = Left | Right | Top | Bottom

  // ---------------------------------------------------------------- edge snapping

  /**
   * The edge `snap_to_edge` chooses for a handle centred at (cx, cy) on a
   * `w` by `h` screen, exactly as the code decides it: first the quadrant
   * (against the floor-halved screen size), then one of its two edges.
   * In the top-right quadrant the code picks TOP when the right edge is the
   * closer one; `NearestEdge` is the corrected rule.
   */
  function SnapEdge(cx: int, cy: int, w: int, h: int): (e: Position)
    ensures cx < w / 2 ==> e != Right
    ensures cx >= w / 2 ==> e != Left
    ensures cy < h / 2 ==> e != Bottom
    ensures cy >= h / 2 ==> e != Top
  {
    if cx < w / 2 then
      if cy < h / 2 then (if cx < cy then Left else Top)
      else (if cx < h - cy then Left else Bottom)
    else
      if cy < h / 2 then (if w - cx < cy then Top else Right)
      else (if w - cx < h - cy then Right else Bottom)
  }

  /** How far a centre at (cx, cy) is from edge `e` of a `w` by `h` screen. */
  function EdgeDistance(e: Position, cx: int, cy: int, w: int, h: int): int {
    match e
    case Left => cx
    case Right => w - cx
    case Top => cy
    case Bottom => h - cy
  }

  /** The side edge (left or right) and the end edge (top or bottom) of the centre's quadrant. */
  function SideEdge(cx: int, w: int): Position {
    if cx < w / 2 then Left else Right
  }

  function EndEdge(cy: int, h: int): Position {
    if cy < h / 2 then Top else Bottom
  }

  /**
   * The code always picks one of the two edges of the centre's quadrant. In the
   * bottom-left, bottom-right and top-left quadrants it picks the side edge
   * exactly when that edge is strictly nearer; in the top-right quadrant it picks
   * the side edge exactly when that edge is not strictly nearer.
   */
  lemma SnapQuadrants(cx: int, cy: int, w: int, h: int)
    ensures var e, side, end := SnapEdge(cx, cy, w, h), SideEdge(cx, w), EndEdge(cy, h);
      && (e == side || e == end)
      && (side == Right && end == Top ==>
            (e == side <==> EdgeDistance(side, cx, cy, w, h) >= EdgeDistance(end, cx, cy, w, h)))
      && (!(side == Right && end == Top) ==>
            (e == side <==> EdgeDistance(side, cx, cy, w, h) < EdgeDistance(end, cx, cy, w, h)))
  {
  }

  /** The evidently intended rule: the closer of the quadrant's two edges, ties going to top or bottom. */
  function NearestEdge(cx: int, cy: int, w: int, h: int): (e: Position)
    ensures e == SideEdge(cx, w) || e == EndEdge(cy, h)
    ensures EdgeDistance(e, cx, cy, w, h) <= EdgeDistance(SideEdge(cx, w), cx, cy, w, h)
    ensures EdgeDistance(e, cx, cy, w, h) <= EdgeDistance(EndEdge(cy, h), cx, cy, w, h)
  {
    var side, end := SideEdge(cx, w), EndEdge(cy, h);
    if EdgeDistance(side, cx, cy, w, h) < EdgeDistance(end, cx, cy, w, h) then side else end
  }

  /** On a screen of even width and height the corrected rule is at least as close as every edge. */
  lemma NearestEdgeIsNearest(cx: int, cy: int, w: int, h: int, other: Position)
    requires w % 2 == 0 && h % 2 == 0
    ensures EdgeDistance(NearestEdge(cx, cy, w, h), cx, cy, w, h) <= EdgeDistance(other, cx, cy, w, h)
  {
  }

  /** Outside the top-right quadrant the code's choice is the nearest edge. */
  lemma SnapEdgeIsNearestOutsideTopRight(cx: int, cy: int, w: int, h: int)
    requires !(cx >= w / 2 && cy < h / 2)
    ensures SnapEdge(cx, cy, w, h) == NearestEdge(cx, cy, w, h)
  {
  }

  /** In the top-right quadrant the code picks the farther edge whenever the two distances differ. */
  lemma SnapEdgeTopRightPicksFarther(cx: int, cy: int, w: int, h: int)
    requires cx >= w / 2 && cy < h / 2 && w - cx != cy
    ensures SnapEdge(cx, cy, w, h) != NearestEdge(cx, cy, w, h)
    ensures EdgeDistance(SnapEdge(cx, cy, w, h), cx, cy, w, h) > EdgeDistance(NearestEdge(cx, cy, w, h), cx, cy, w, h)
  {
  }

  /** A concrete case: 10 pixels from the right edge and 400 from the top, the handle goes to the top. */
  lemma SnapEdgeTopRightExample()
    ensures SnapEdge(990, 400, 1000, 1000) == Top
    ensures EdgeDistance(Right, 990, 400, 1000, 1000) == 10 && EdgeDistance(Top, 990, 400, 1000, 1000) == 400
    ensures NearestEdge(990, 400, 1000, 1000) == Right
  {
  }

  // ---------------------------------------------------------------- handle placement

  /**
   * Where `update_position` puts a `hw` by `hh` handle on a `sw` by `sh` screen:
   * flush with its edge and centred along it (Python's `//` by 2 is floor
   * division, which Dafny's `/` by a positive divisor also is).
   */
  function Placement(p: Position, sw: int, sh: int, hw: int, hh: int): (xy: (int, int))
    ensures p == Left ==> xy.0 == 0
    ensures p == Right ==> xy.0 + hw == sw
    ensures p == Top ==> xy.1 == 0
    ensures p == Bottom ==> xy.1 + hh == sh
    ensures p == Left || p == Right ==> 0 <= (sh - hh - xy.1) - xy.1 <= 1
    ensures p == Top || p == Bottom ==> 0 <= (sw - hw - xy.0) - xy.0 <= 1
  {
    match p
    case Left => (0, (sh - hh) / 2)
    case Right => (sw - hw, (sh - hh) / 2)
    case Top => ((sw - hw) / 2, 0)
    case Bottom => ((sw - hw) / 2, sh - hh)
  }

  /** The square handle on a screen edge (`WidgetHandle`). */
  class WidgetHandle {
    var position: Position
    var x: int
    var y: int
    var originalX: int
    var originalY: int
    const width: int
    const height: int
    /** Every edge emitted on the `position_changed` signal, oldest first. */
    var positionChanges: seq<Position>

    constructor (position: Position, handleSize: int, screenWidth: int, screenHeight: int)
      ensures this.position == position && width == handleSize && height == handleSize
      ensures (x, y) == Placement(position, screenWidth, screenHeight, handleSize, handleSize)
      ensures originalX == x && originalY == y && positionChanges == []
    {
      this.position := position;
      width, height := handleSize, handleSize;
      x, y, originalX, originalY := 0, 0, 0, 0;
      positionChanges := [];
      new;
      UpdatePosition(screenWidth, screenHeight);
    }

    /** Moves the handle to its place on its current edge and remembers that place. */
    method UpdatePosition(screenWidth: int, screenHeight: int)
      modifies this`x, this`y, this`originalX, this`originalY
      ensures (x, y) == Placement(position, screenWidth, screenHeight, width, height)
      ensures originalX == x && originalY == y
    {
      var xy := Placement(position, screenWidth, screenHeight, width, height);
      x, y := xy.0, xy.1;
      originalX, originalY := x, y;
    }

    /**
     * A mouse move: while a drag is under way and the position is not locked the
     * handle follows the mouse to (nx, ny); otherwise it stays. Its edge and its
     * remembered place are not touched.
     */
    method DragMove(dragging: bool, locked: bool, nx: int, ny: int)
      modifies this`x, this`y
      ensures dragging && !locked ==> x == nx && y == ny
      ensures !(dragging && !locked) ==> x == old(x) && y == old(y)
    {
      if dragging && !locked {
        x, y := nx, ny;
      }
    }

    /**
     * After a drag: picks an edge from the handle's centre, changes and
     * announces the position only if the edge differs, then re-places the handle.
     */
    method SnapToEdge(screenWidth: int, screenHeight: int)
      modifies this`position, this`positionChanges, this`x, this`y, this`originalX, this`originalY
      ensures position == SnapEdge(old(x) + width / 2, old(y) + height / 2, screenWidth, screenHeight)
      ensures positionChanges ==
        if position != old(position) then old(positionChanges) + [position] else old(positionChanges)
      ensures (x, y) == Placement(position, screenWidth, screenHeight, width, height)
      ensures originalX == x && originalY == y
    {
      var centerX := x + width / 2;
      var centerY := y + height / 2;
      var newPosition := SnapEdge(centerX, centerY, screenWidth, screenHeight);
      if newPosition != position {
        position := newPosition;
        positionChanges := positionChanges + [newPosition];
      }
      UpdatePosition(screenWidth, screenHeight);
    }
  }

  // ---------------------------------------------------------------- position names

  const LeftText: string := "왼쪽"
  const RightText: string := "오른쪽"
  const TopText: string := "위쪽"
  const BottomText: string := "아래쪽"

  /** `get_position_text`: the Korean name shown in the settings dialog. */
  function PositionText(p: Position): (t: string)
    ensures PositionEnum(t) == p
  {
    match p
    case Left => LeftText
    case Right => RightText
    case Top => TopText
    case Bottom => BottomText
  }

  /** `get_position_enum`: the position a name stands for; any other text means the right edge. */
  function PositionEnum(text: string): (p: Position)
    ensures p == Left <==> text == LeftText
    ensures p == Top <==> text == TopText
    ensures p == Bottom <==> text == BottomText
    ensures text != LeftText && text != TopText && text != BottomText ==> p == Right
  {
    if text == LeftText then Left
    else if text == RightText then Right
    else if text == TopText then Top
    else if text == BottomText then Bottom
    else Right
  }

  /** The four names are distinct, so the dialog never confuses two positions. */
  lemma PositionTextInjective(p: Position, q: Position)
    ensures PositionText(p) == PositionText(q) ==> p == q
  {
    if PositionText(p) == PositionText(q) {
      assert PositionEnum(PositionText(p)) == PositionEnum(PositionText(q));
    }
  }

  // ---------------------------------------------------------------- progress until the next play

  /** The remaining-time text, by unit: "N일 M시간", "N일", "N시간" or "N분". */
  datatype RemainingLabel =
    | NoRecord                              // "기록 없음"
    | DaysAndHours(days: int, hours: int)
    | WholeDays(days: int)
    | Hours(hours: int)
    | Minutes(minutes: int)

  datatype ProgressView = ProgressView(percentage: real, remaining: RemainingLabel)

  /** Python's truthiness test on the timestamp and the cycle: None, 0.0 and 0 all mean "no record". */
  predicate HasRecord(p: ManagedProcess)
    ensures !HasRecord(p) <==> p.lastPlayed in {None, Some(0.0)} || p.userCycleHours in {None, Some(0)}
  {
    p.lastPlayed.Some? && p.lastPlayed.value != 0.0 && p.userCycleHours.Some? && p.userCycleHours.value != 0
  }

  /** Hours remaining in the cycle, never negative. */
  function RemainingHours(cycleHours: int, elapsedHours: real): (r: real)
    ensures r >= 0.0
    ensures r >= cycleHours as real - elapsedHours
    ensures r == 0.0 || r == cycleHours as real - elapsedHours
  {
    if cycleHours as real - elapsedHours > 0.0 then cycleHours as real - elapsedHours else 0.0
  }

  /** The unit chosen for a non-negative number of remaining hours, with `int()` truncation. */
  function RemainingText(rem: real): (r: RemainingLabel)
    requires rem >= 0.0
    ensures rem >= 24.0 <==> r.DaysAndHours? || r.WholeDays?
    ensures 1.0 <= rem < 24.0 <==> r.Hours?
    ensures rem < 1.0 <==> r.Minutes?
  {
    if rem >= 24.0 then
      var days := (rem / 24.0).Floor;
      var remainder := rem - 24.0 * days as real;
      if remainder > 0.0 then DaysAndHours(days, remainder.Floor) else WholeDays(days)
    else if rem >= 1.0 then Hours(rem.Floor)
    else Minutes((rem * 60.0).Floor)
  }

  /** `_calculate_progress_percentage` at the moment `now` (a Unix timestamp). */
  function CalculateProgress(p: ManagedProcess, now: real): (v: ProgressView)
    ensures !HasRecord(p) ==> v == ProgressView(0.0, NoRecord)
    ensures HasRecord(p) ==> v.percentage <= 100.0 && !v.remaining.NoRecord?
  {
    if !HasRecord(p) then ProgressView(0.0, NoRecord)
    else
      var cycle := p.userCycleHours.value;
      var elapsed := (now - p.lastPlayed.value) / 3600.0;
      var ratio := elapsed / cycle as real;
      var progress := if ratio < 1.0 then ratio else 1.0;
      ProgressView(progress * 100.0, RemainingText(RemainingHours(cycle, elapsed)))
  }

  /** The label's numbers are the truncated whole days, hours and minutes of the remaining time. */
  lemma RemainingTextMeaning(rem: real)
    requires rem >= 0.0
    ensures RemainingText(rem).WholeDays? ==>
      var d := RemainingText(rem).days; d >= 1 && rem == 24.0 * d as real
    ensures RemainingText(rem).DaysAndHours? ==>
      var d, hr := RemainingText(rem).days, RemainingText(rem).hours;
      && d >= 1 && 0 <= hr < 24
      && 24.0 * d as real < rem
      && 24.0 * d as real + hr as real <= rem < 24.0 * d as real + hr as real + 1.0
    ensures RemainingText(rem).Hours? ==>
      var hr := RemainingText(rem).hours; 1 <= hr < 24 && hr as real <= rem < hr as real + 1.0
    ensures RemainingText(rem).Minutes? ==>
      var m := RemainingText(rem).minutes; 0 <= m < 60 && m as real <= rem * 60.0 < m as real + 1.0
  {
    if rem >= 24.0 {
      var days := (rem / 24.0).Floor;
      assert days as real <= rem / 24.0 < days as real + 1.0;
      assert 24.0 * days as real <= rem < 24.0 * days as real + 24.0;
      assert days >= 1;
    }
  }

  /** Once a whole cycle has passed, the bar is full and no time is left. */
  lemma ProgressFullAfterCycle(p: ManagedProcess, now: real)
    requires HasRecord(p) && p.userCycleHours.value > 0
    requires now - p.lastPlayed.value >= 3600.0 * p.userCycleHours.value as real
    ensures CalculateProgress(p, now) == ProgressView(100.0, Minutes(0))
  {
    var cycle := p.userCycleHours.value as real;
    var elapsed := (now - p.lastPlayed.value) / 3600.0;
    assert elapsed >= cycle;
    assert elapsed / cycle >= 1.0;
  }

  /**
   * Within a positive cycle, the bar shows the elapsed fraction, below 100, and
   * the label describes the hours left until the cycle ends.
   */
  lemma ProgressWithinCycle(p: ManagedProcess, now: real)
    requires HasRecord(p) && p.userCycleHours.value > 0
    requires p.lastPlayed.value <= now < p.lastPlayed.value + 3600.0 * p.userCycleHours.value as real
    ensures var v := CalculateProgress(p, now);
      && 0.0 <= v.percentage < 100.0
      && v.percentage == (now - p.lastPlayed.value) / (36.0 * p.userCycleHours.value as real)
      && v.remaining == RemainingText(p.userCycleHours.value as real - (now - p.lastPlayed.value) / 3600.0)
  {
    var cycle := p.userCycleHours.value as real;
    var elapsed := (now - p.lastPlayed.value) / 3600.0;
    assert 0.0 <= elapsed < cycle;
    RatioBelowOne(elapsed, cycle);
    PercentOfCycle(now - p.lastPlayed.value, cycle);
  }

  lemma RatioBelowOne(a: real, b: real)
    requires 0.0 <= a < b
    ensures 0.0 <= a / b < 1.0
  {
    assert (a / b) * b == a;
  }

  lemma PercentOfCycle(seconds: real, cycle: real)
    requires cycle > 0.0
    ensures seconds / 3600.0 / cycle * 100.0 == seconds / (36.0 * cycle)
  {
    var ratio := seconds / 3600.0 / cycle;
    assert ratio * cycle * 3600.0 == seconds;
    assert (ratio * 100.0) * (36.0 * cycle) == seconds;
  }
}
