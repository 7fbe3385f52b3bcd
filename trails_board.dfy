/**
 * The trail-making board (app/widgets/ABTrails/TrailsBoard.js): the user draws
 * lines between numbered targets, one gesture per line, and a line counts only
 * when it joins target `currentIndex` to target `currentIndex + 1`.
 *
 * The component's state and instance fields are the fields of `Board`; each
 * gesture handler is a method whose new state is given by a specification
 * function on `BoardState`, and the promises of the component are lemmas about
 * those functions. Touch coordinates, gesture offsets and `Date.now()` are
 * parameters.
 */
module TrailsBoard {
  import opened Wrappers
  import opened Js

  /** A drawn point; `order` is set on a line's start point and on an accepted end point. */
  datatype Point = Point(x: real, y: real, time: int, order: Option<int>)

  datatype Line = Line(points: seq<Point>)

  /** An entry of `screen.items`: a circle centred at (`cx`, `cy`). */
  datatype Target = Target(cx: real, cy: real, order: int)

  /** The `screen` prop: the targets and their common radius. */
  datatype TrailsScreen = TrailsScreen(items: seq<Target>, r: real)

  datatype Colour = Pending | Passed | Failed

  /** What `save` hands to `onResult`. */
  datatype SaveResult = SaveResult(lines: seq<Line>, currentIndex: int)

  // ---------------------------------------------------------------------------
  // Hit tests (lines 80-89 and 133-141)

  /**
   * `Math.sqrt((cx - x)^2 + (cy - y)^2) <= r`, stated without the square
   * root: the distance is at most `r` exactly when `r` is not negative and
   * the squared distance is at most `r * r`.
   */
  predicate Hit(t: Target, x: real, y: real, r: real) {
    var dx, dy := t.cx - x, t.cy - y;
    0.0 <= r && dx * dx + dy * dy <= r * r
  }

  /** The position of the last target within `r` of (`x`, `y`), if any. */
  function LastHit(items: seq<Target>, x: real, y: real, r: real): (h: Option<nat>)
    ensures h.Some? ==> h.value < |items| && Hit(items[h.value], x, y, r)
    ensures h.Some? ==> forall j :: h.value < j < |items| ==> !Hit(items[j], x, y, r)
    ensures h.None? ==> forall j :: 0 <= j < |items| ==> !Hit(items[j], x, y, r)
  {
    if items == [] then None
    else if Hit(items[|items| - 1], x, y, r) then Some(|items| - 1)
    else
      var h := LastHit(items[..|items| - 1], x, y, r);
      assert forall j :: 0 <= j < |items| - 1 ==> items[..|items| - 1][j] == items[j];
      h
  }

  /**
   * The cursor of the release loop: where the end point currently lies, the
   * order of the last target it snapped to (0 before any), and whether it
   * snapped at all.
   */
  datatype Snapped = Snapped(x: real, y: real, order: int, hit: bool)

  /** One iteration of the release loop: a hit moves the cursor to the target's centre. */
  function SnapStep(s: Snapped, t: Target, r: real): Snapped {
    if Hit(t, s.x, s.y, r) then Snapped(t.cx, t.cy, t.order, true) else s
  }

  /**
   * The release loop over all targets. Unlike the start test, later
   * targets are tested against the centre the cursor last snapped to.
   */
  function Snap(items: seq<Target>, s: Snapped, r: real): Snapped {
    if items == [] then s else SnapStep(Snap(items[..|items| - 1], s, r), items[|items| - 1], r)
  }

  /**
   * The cursor does not move until some target hits: the loop ends without a
   * hit exactly when no target lies within `r` of the release point, and
   * then the cursor is where it started.
   */
  lemma {:induction false} SnapMisses(items: seq<Target>, s: Snapped, r: real)
    requires !s.hit
    ensures !Snap(items, s, r).hit <==> forall j :: 0 <= j < |items| ==> !Hit(items[j], s.x, s.y, r)
    ensures !Snap(items, s, r).hit ==> Snap(items, s, r) == s
  {
    if items != [] {
      var init := items[..|items| - 1];
      SnapMisses(init, s, r);
      assert forall j :: 0 <= j < |init| ==> init[j] == items[j];
      if Snap(init, s, r).hit {
        SnapKeepsHit(items, s, r);
      }
    }
  }

  /** Once the cursor has snapped, it stays snapped. */
  lemma {:induction false} SnapKeepsHit(items: seq<Target>, s: Snapped, r: real)
    requires items != [] && Snap(items[..|items| - 1], s, r).hit
    ensures Snap(items, s, r).hit
  {
  }

  /** The cursor ends on target `i`, and no later target is within `r` of its centre. */
  predicate EndsOn(items: seq<Target>, e: Snapped, r: real, i: nat) {
    i < |items| && e == Snapped(items[i].cx, items[i].cy, items[i].order, true) &&
    forall j :: i < j < |items| ==> !Hit(items[j], e.x, e.y, r)
  }

  /**
   * A snapped end point is the centre of a target, carries that target's
   * order, and no later target lies within `r` of it.
   */
  lemma {:induction false} SnapEndsOnTarget(items: seq<Target>, s: Snapped, r: real)
    requires !s.hit
    ensures Snap(items, s, r).hit ==> exists i: nat :: EndsOn(items, Snap(items, s, r), r, i)
  {
    if items != [] {
      var init := items[..|items| - 1];
      var last := items[|items| - 1];
      var e0 := Snap(init, s, r);
      SnapEndsOnTarget(init, s, r);
      if Hit(last, e0.x, e0.y, r) {
        assert EndsOn(items, Snap(items, s, r), r, |items| - 1);
      } else if e0.hit {
        var i: nat :| EndsOn(init, e0, r, i);
        assert init[i] == items[i];
        assert forall j :: i < j < |init| ==> init[j] == items[j];
        assert EndsOn(items, Snap(items, s, r), r, i);
      }
    }
  }

  // ---------------------------------------------------------------------------
  // Colours (lines 229-235)

  /**
   * The stroke of the target at `index`: failed when `index + 1` is among the
   * incorrect points, else passed when `index < currentIndex`, else pending.
   */
  function TargetColour(index: nat, incorrectPoints: seq<int>, currentIndex: int): (c: Colour)
    ensures c == Failed <==> index + 1 in incorrectPoints
    ensures c == Passed <==> index + 1 !in incorrectPoints && index < currentIndex
  {
    if index + 1 in incorrectPoints then Failed
    else if index < currentIndex then Passed
    else Pending
  }

  // ---------------------------------------------------------------------------
  // Saving (lines 202-214)

  /** `{ ...point, x: scale(point.x), y: scale(point.y) }` */
  function ScalePoint(p: Point, scale: real -> real): Point {
    p.(x := scale(p.x), y := scale(p.y))
  }

  function ScaleLine(l: Line, scale: real -> real): Line {
    Line(seq(|l.points|, j requires 0 <= j < |l.points| => ScalePoint(l.points[j], scale)))
  }

  /**
   * `save(lines, currentIndex)`, with `scale` standing for
   * `v => v / width * 100`: every line and point is kept, in order, with only
   * the coordinates rescaled, and the index is the one passed in.
   */
  function Save(lines: seq<Line>, currentIndex: int, scale: real -> real): (res: SaveResult)
    ensures res.currentIndex == currentIndex && |res.lines| == |lines|
    ensures forall i :: 0 <= i < |lines| ==> |res.lines[i].points| == |lines[i].points|
    ensures forall i, j :: 0 <= i < |lines| && 0 <= j < |lines[i].points| ==>
      var p, q := lines[i].points[j], res.lines[i].points[j];
      q.x == scale(p.x) && q.y == scale(p.y) && q.time == p.time && q.order == p.order
  {
    SaveResult(seq(|lines|, i requires 0 <= i < |lines| => ScaleLine(lines[i], scale)), currentIndex)
  }

  // ---------------------------------------------------------------------------
  // Chunked point strings (lines 22-33)

  function Min(a: int, b: int): int {
    if a <= b then a else b
  }

  /**
   * The chunks the inner loop slices from `points` starting at `from`:
   * `points.slice(index, index + c + 1)` for `index = from, from + c, …`
   * while `index < points.length`.
   */
  function Chunks(points: seq<Point>, c: nat, from: nat): seq<seq<Point>>
    requires c > 0
    decreases |points| - from
  {
    if from >= |points| then []
    else [points[from..Min(from + c + 1, |points|)]] + Chunks(points, c, from + c)
  }

  /**
   * There are `ceil((|points| - from) / c)` chunks: none for an empty rest,
   * and otherwise `k` with `(k - 1) * c < |points| - from <= k * c`.
   */
  lemma {:induction false} ChunkCount(points: seq<Point>, c: nat, from: nat)
    requires c > 0
    ensures var k := |Chunks(points, c, from)|;
      (from >= |points| ==> k == 0) &&
      (from < |points| ==> (k - 1) * c < |points| - from <= k * c)
    decreases |points| - from
  {
    if from < |points| {
      var k := |Chunks(points, c, from)|;
      ChunkCount(points, c, from + c);
      if from + c < |points| {
        assert (k - 1) * c == (k - 2) * c + c;
        assert k * c == (k - 1) * c + c;
      }
    }
  }

  /**
   * Chunk `k` is the slice of at most `c + 1` points starting at
   * `from + k * c`; it is never empty.
   */
  lemma {:induction false} ChunkAt(points: seq<Point>, c: nat, from: nat, k: nat)
    requires c > 0 && k < |Chunks(points, c, from)|
    ensures from + k * c < |points|
    ensures Chunks(points, c, from)[k] == points[from + k * c..Min(from + k * c + c + 1, |points|)]
    ensures 1 <= |Chunks(points, c, from)[k]| <= c + 1
    decreases k
  {
    if k > 0 {
      ChunkAt(points, c, from + c, k - 1);
      assert from + c + (k - 1) * c == from + k * c;
    }
  }

  /**
   * Consecutive chunks overlap by one point: every chunk that has a successor
   * is full (`c + 1` points), and its last point is the successor's first.
   */
  lemma ChunksOverlap(points: seq<Point>, c: nat, k: nat)
    requires c > 0 && k + 1 < |Chunks(points, c, 0)|
    ensures |Chunks(points, c, 0)[k]| == c + 1 && |Chunks(points, c, 0)[k + 1]| >= 1
    ensures Chunks(points, c, 0)[k][c] == Chunks(points, c, 0)[k + 1][0]
  {
    ChunkAt(points, c, 0, k);
    ChunkAt(points, c, 0, k + 1);
    assert (k + 1) * c == k * c + c;
  }

  /** The chunk size `renderSvg` passes (line 308). */
  const RenderChunkSize: nat := 50

  /** As rendered, every chunk of a line holds between 1 and 51 points. */
  lemma RenderedChunkSize(points: seq<Point>, k: nat)
    requires k < |Chunks(points, RenderChunkSize, 0)|
    ensures 1 <= |Chunks(points, RenderChunkSize, 0)[k]| <= 51
  {
    ChunkAt(points, RenderChunkSize, 0, k);
  }

  /** The chunks of every line, line by line and in chunk order within a line. */
  function AllChunks(lines: seq<Line>, c: nat): seq<seq<Point>>
    requires c > 0
  {
    if lines == [] then []
    else AllChunks(lines[..|lines| - 1], c) + Chunks(lines[|lines| - 1].points, c, 0)
  }

  /** Output is ordered by line: the chunks of `a + b` are those of `a`, then those of `b`. */
  lemma {:induction false} AllChunksConcat(a: seq<Line>, b: seq<Line>, c: nat)
    requires c > 0
    ensures AllChunks(a + b, c) == AllChunks(a, c) + AllChunks(b, c)
    decreases |b|
  {
    if b == [] {
      assert a + b == a;
    } else {
      var b0 := b[..|b| - 1];
      assert (a + b)[..|a + b| - 1] == a + b0;
      assert (a + b)[|a + b| - 1] == b[|b| - 1];
      AllChunksConcat(a, b0, c);
    }
  }

  /** A line without points contributes no chunk. */
  lemma EmptyLineNoChunks(lines: seq<Line>, c: nat)
    requires c > 0 && lines != [] && lines[|lines| - 1].points == []
    ensures AllChunks(lines, c) == AllChunks(lines[..|lines| - 1], c)
  {
  }

  /** `` chunk.map(point => `${point.x},${point.y}`).join(' ') `` */
  function ChunkText(chunk: seq<Point>, pointText: Point -> string): string {
    Join(seq(|chunk|, j requires 0 <= j < |chunk| => pointText(chunk[j])), " ")
  }

  function Render(chunks: seq<seq<Point>>, pointText: Point -> string): (texts: seq<string>)
    ensures |texts| == |chunks|
    ensures forall k :: 0 <= k < |chunks| ==> texts[k] == ChunkText(chunks[k], pointText)
  {
    seq(|chunks|, k requires 0 <= k < |chunks| => ChunkText(chunks[k], pointText))
  }

  /**
   * `chunkedPointStr(lines, chunkSize)`: one string per chunk of every line,
   * in line order and chunk order. `pointText` is JavaScript's formatting of
   * `${point.x},${point.y}`. The chunk size must be positive: with 0 the
   * inner loop would not advance (the component passes 50).
   */
  method ChunkedPointStr(lines: seq<Line>, chunkSize: nat, pointText: Point -> string) returns (results: seq<string>)
    requires chunkSize > 0
    ensures results == Render(AllChunks(lines, chunkSize), pointText)
  {
    results := [];
    for li := 0 to |lines|
      invariant results == Render(AllChunks(lines[..li], chunkSize), pointText)
    {
      assert lines[..li + 1][..li] == lines[..li];
      var texts := LineChunkTexts(lines[li].points, chunkSize, pointText);
      RenderConcat(AllChunks(lines[..li], chunkSize), Chunks(lines[li].points, chunkSize, 0), pointText);
      results := results + texts;
    }
    assert lines[..|lines|] == lines;
  }

  /** The `forEach` callback of `chunkedPointStr`: the texts of one line's chunks, in order. */
  method LineChunkTexts(points: seq<Point>, chunkSize: nat, pointText: Point -> string) returns (texts: seq<string>)
    requires chunkSize > 0
    ensures texts == Render(Chunks(points, chunkSize, 0), pointText)
  {
    texts := [];
    var length := |points|;
    var index := 0;
    while index < length
      invariant texts + Render(Chunks(points, chunkSize, index), pointText) == Render(Chunks(points, chunkSize, 0), pointText)
      decreases length - index
    {
      var myChunk := points[index..Min(index + chunkSize + 1, length)];
      assert Chunks(points, chunkSize, index) == [myChunk] + Chunks(points, chunkSize, index + chunkSize);
      RenderConcat([myChunk], Chunks(points, chunkSize, index + chunkSize), pointText);
      texts := texts + [ChunkText(myChunk, pointText)];
      index := index + chunkSize;
    }
  }

  lemma RenderConcat(a: seq<seq<Point>>, b: seq<seq<Point>>, pointText: Point -> string)
    ensures Render(a + b, pointText) == Render(a, pointText) + Render(b, pointText)
  {
  }

  // ---------------------------------------------------------------------------
  // The board's state and its gesture handlers (lines 36-200)

  /**
   * The component state (`lines`, `incorrectPoints`, `currentIndex`, `isValid`)
   * and the instance fields (`allowed`, `startX`, `startY`, `lastX`, `lastY`,
   * `lastPressTimestamp`, which is unset until the first move or release).
   */
  datatype BoardState = BoardState(
    lines: seq<Line>,
    incorrectPoints: seq<int>,
    currentIndex: int,
    isValid: bool,
    allowed: bool,
    startX: real,
    startY: real,
    lastX: real,
    lastY: real,
    lastPressTimestamp: Option<int>)

  /** A line has its start point, with the order of its start target, and at most one more point. */
  predicate WellFormedLine(l: Line) {
    1 <= |l.points| <= 2 && l.points[0].order.Some?
  }

  predicate ValidState(st: BoardState) {
    forall i :: 0 <= i < |st.lines| ==> WellFormedLine(st.lines[i])
  }

  /** `startLine` at touch point (`x`, `y`) and time `now`. */
  function StartLineSpec(st: BoardState, screen: TrailsScreen, x: real, y: real, now: int): BoardState {
    if !st.allowed then st
    else match LastHit(screen.items, x, y, screen.r)
      case None => st.(isValid := false)
      case Some(i) =>
        var t := screen.items[i];
        st.(startX := t.cx, startY := t.cy, isValid := true,
            lines := st.lines + [Line([Point(t.cx, t.cy, now, Some(t.order))])])
  }

  /** The points of a line with its trailing point removed if it has more than one. */
  function WithoutLatest(points: seq<Point>): (kept: seq<Point>)
    ensures |points| > 1 ==> kept == points[..|points| - 1]
    ensures |points| <= 1 ==> kept == points
  {
    if |points| > 1 then points[..|points| - 1] else points
  }

  /** `movePoint` with gesture position (`moveX`, `moveY`), origin (`x0`, `y0`) and time `now`. */
  function MovePointSpec(st: BoardState, moveX: real, moveY: real, x0: real, y0: real, now: int): BoardState {
    if !st.allowed || |st.lines| == 0 || !st.isValid then st
    else
      var lx, ly := moveX - x0 + st.startX, moveY - y0 + st.startY;
      var n := |st.lines| - 1;
      var kept := WithoutLatest(st.lines[n].points);
      st.(lastX := lx, lastY := ly, lastPressTimestamp := Some(now),
          lines := st.lines[n := Line(kept + [Point(lx, ly, now, None)])])
  }

  /** What `releaseLine` leaves behind: the new state, what went to `onResult` and to `onError`. */
  datatype Release = Release(state: BoardState, saved: Option<SaveResult>, error: Option<string>)

  const IncorrectLine := "Incorrect line!"

  /** The orders that make a line wrong: the start order if wrong, then the end order if wrong. */
  function WrongOrders(startOrder: int, endOrder: int, currentIndex: int): (wrong: seq<int>)
    ensures |wrong| == (if startOrder != currentIndex then 1 else 0) + (if endOrder != currentIndex + 1 then 1 else 0)
    ensures wrong == [] <==> startOrder == currentIndex && endOrder == currentIndex + 1
    ensures startOrder != currentIndex ==> wrong[0] == startOrder
    ensures endOrder != currentIndex + 1 ==> wrong[|wrong| - 1] == endOrder
  {
    (if startOrder != currentIndex then [startOrder] else []) +
    (if endOrder != currentIndex + 1 then [endOrder] else [])
  }

  /** How `releaseLine` collects the incorrect orders, one `push` per wrong end of the line. */
  method IncorrectOrders(startOrder: int, endOrder: int, currentIndex: int) returns (wrong: seq<int>)
    ensures wrong == WrongOrders(startOrder, endOrder, currentIndex)
  {
    wrong := [];
    if startOrder != currentIndex {
      wrong := wrong + [startOrder];
    }
    if endOrder != currentIndex + 1 {
      wrong := wrong + [endOrder];
    }
  }

  /** The cursor of the release loop after all targets, starting at the release point. */
  function ReleaseEnd(st: BoardState, screen: TrailsScreen, moveX: real, moveY: real, x0: real, y0: real): Snapped {
    Snap(screen.items, Snapped(moveX - x0 + st.startX, moveY - y0 + st.startY, 0, false), screen.r)
  }

  /**
   * `releaseLine`; `scale` is the rescaling `save` applies. The current line
   * drops its moving point; it is accepted when the release snapped to a
   * target, its start order is `currentIndex` and the target's order is
   * `currentIndex + 1`.
   */
  function ReleaseLineSpec(st: BoardState, screen: TrailsScreen, moveX: real, moveY: real, x0: real, y0: real,
                           now: int, scale: real -> real): Release
    requires ValidState(st)
  {
    if !st.allowed || |st.lines| == 0 || !st.isValid then Release(st, None, None)
    else
      var e := ReleaseEnd(st, screen, moveX, moveY, x0, y0);
      JudgeSpec(st.(lastX := e.x, lastY := e.y, lastPressTimestamp := Some(now)), e, now, scale)
  }

  /**
   * The second half of `releaseLine`, once the end point `e` is known: the
   * current line drops its moving point and is judged by its two orders.
   */
  function JudgeSpec(st: BoardState, e: Snapped, now: int, scale: real -> real): Release
    requires |st.lines| > 0 && WellFormedLine(st.lines[|st.lines| - 1])
  {
    var n := |st.lines| - 1;
    var kept := WithoutLatest(st.lines[n].points);
    var wrong := WrongOrders(kept[0].order.value, e.order, st.currentIndex);
    if e.hit && wrong == [] then
      var lines := st.lines[n := Line(kept + [Point(e.x, e.y, now, Some(e.order))])];
      Release(st.(lines := lines, currentIndex := e.order, incorrectPoints := []), Some(Save(lines, e.order, scale)), None)
    else
      Release(st.(lines := st.lines[n := Line(kept)], isValid := false, incorrectPoints := wrong), None,
              if wrong == [] then None else Some(IncorrectLine))
  }

  // ---------------------------------------------------------------------------
  // What the handlers promise

  /**
   * When allowed and some target lies within `r` of the touch point, exactly
   * one line is appended: a single point at the centre of the last such
   * target in item order, with that target's order.
   */
  lemma StartLineAppendsOneLine(st: BoardState, screen: TrailsScreen, x: real, y: real, now: int, i: nat)
    requires st.allowed && i < |screen.items| && Hit(screen.items[i], x, y, screen.r)
    requires forall j :: i < j < |screen.items| ==> !Hit(screen.items[j], x, y, screen.r)
    ensures var t, st' := screen.items[i], StartLineSpec(st, screen, x, y, now);
      st'.isValid && st'.lines == st.lines + [Line([Point(t.cx, t.cy, now, Some(t.order))])] &&
      st'.currentIndex == st.currentIndex && st'.incorrectPoints == st.incorrectPoints
  {
  }

  /** When allowed and no target is within `r`, the lines stay as they are and `isValid` becomes false. */
  lemma StartLineMissKeepsLines(st: BoardState, screen: TrailsScreen, x: real, y: real, now: int)
    requires st.allowed && forall j :: 0 <= j < |screen.items| ==> !Hit(screen.items[j], x, y, screen.r)
    ensures StartLineSpec(st, screen, x, y, now) == st.(isValid := false)
  {
  }

  /**
   * While valid, a move keeps the current line at its start point plus the
   * latest point, and no other line changes.
   */
  lemma MovePointKeepsStartAndLatest(st: BoardState, moveX: real, moveY: real, x0: real, y0: real, now: int)
    requires ValidState(st) && st.allowed && st.isValid && |st.lines| > 0
    ensures var st', n := MovePointSpec(st, moveX, moveY, x0, y0, now), |st.lines| - 1;
      |st'.lines| == |st.lines| &&
      st'.lines[n].points == [st.lines[n].points[0], Point(st'.lastX, st'.lastY, now, None)] &&
      st'.lastX == moveX - x0 + st.startX && st'.lastY == moveY - y0 + st.startY &&
      (forall i :: 0 <= i < n ==> st'.lines[i] == st.lines[i])
  {
  }

  /** A move while not valid, with no lines, or when not allowed changes nothing. */
  lemma MovePointIdle(st: BoardState, moveX: real, moveY: real, x0: real, y0: real, now: int)
    requires !st.allowed || |st.lines| == 0 || !st.isValid
    ensures MovePointSpec(st, moveX, moveY, x0, y0, now) == st
  {
  }

  /**
   * A release is accepted (a result is saved) exactly when it snapped to a
   * target, the line starts at target `currentIndex` and that target's order
   * is `currentIndex + 1`.
   */
  lemma ReleaseAcceptsIff(st: BoardState, screen: TrailsScreen, moveX: real, moveY: real, x0: real, y0: real,
                          now: int, scale: real -> real)
    requires ValidState(st) && st.allowed && |st.lines| > 0 && st.isValid
    ensures var e, n := ReleaseEnd(st, screen, moveX, moveY, x0, y0), |st.lines| - 1;
      ReleaseLineSpec(st, screen, moveX, moveY, x0, y0, now, scale).saved.Some? <==>
        e.hit && st.lines[n].points[0].order == Some(st.currentIndex) && e.order == st.currentIndex + 1
  {
  }

  /**
   * On acceptance the line is its start point plus the end point at the
   * snapped target with order `currentIndex + 1`, `currentIndex` advances by
   * one, the incorrect points are cleared, the result saves the new lines
   * with the new index, and nothing goes to `onError`.
   */
  lemma ReleaseAccepted(st: BoardState, screen: TrailsScreen, moveX: real, moveY: real, x0: real, y0: real,
                        now: int, scale: real -> real)
    requires ValidState(st) && st.allowed && |st.lines| > 0 && st.isValid
    requires ReleaseLineSpec(st, screen, moveX, moveY, x0, y0, now, scale).saved.Some?
    ensures var rel, e, n := ReleaseLineSpec(st, screen, moveX, moveY, x0, y0, now, scale),
        ReleaseEnd(st, screen, moveX, moveY, x0, y0), |st.lines| - 1;
      rel.state.currentIndex == st.currentIndex + 1 && rel.state.incorrectPoints == [] &&
      |rel.state.lines| == |st.lines| &&
      rel.state.lines[n].points == [st.lines[n].points[0], Point(e.x, e.y, now, Some(st.currentIndex + 1))] &&
      (forall i :: 0 <= i < n ==> rel.state.lines[i] == st.lines[i]) &&
      rel.saved == Some(Save(rel.state.lines, st.currentIndex + 1, scale)) && rel.error.None?
  {
  }

  /**
   * On rejection `currentIndex` is unchanged, `isValid` becomes false, the
   * line keeps only its start point, and `incorrectPoints` lists the wrong
   * start order (if wrong) followed by the wrong end order (if wrong).
   */
  lemma ReleaseRejected(st: BoardState, screen: TrailsScreen, moveX: real, moveY: real, x0: real, y0: real,
                        now: int, scale: real -> real)
    requires ValidState(st) && st.allowed && |st.lines| > 0 && st.isValid
    requires ReleaseLineSpec(st, screen, moveX, moveY, x0, y0, now, scale).saved.None?
    ensures var rel, e, n := ReleaseLineSpec(st, screen, moveX, moveY, x0, y0, now, scale),
        ReleaseEnd(st, screen, moveX, moveY, x0, y0), |st.lines| - 1;
      var startOrder := st.lines[n].points[0].order.value;
      rel.state.currentIndex == st.currentIndex && !rel.state.isValid &&
      |rel.state.lines| == |st.lines| && rel.state.lines[n].points == [st.lines[n].points[0]] &&
      (forall i :: 0 <= i < n ==> rel.state.lines[i] == st.lines[i]) &&
      rel.state.incorrectPoints == WrongOrders(startOrder, e.order, st.currentIndex) &&
      (rel.error.Some? <==> rel.state.incorrectPoints != [])
  {
  }

  /** After an accepted line every target before the new index is passed and the rest are pending. */
  lemma ColoursAfterAcceptance(st: BoardState, screen: TrailsScreen, moveX: real, moveY: real, x0: real, y0: real,
                               now: int, scale: real -> real, index: nat)
    requires ValidState(st) && st.allowed && |st.lines| > 0 && st.isValid
    requires ReleaseLineSpec(st, screen, moveX, moveY, x0, y0, now, scale).saved.Some?
    ensures var st' := ReleaseLineSpec(st, screen, moveX, moveY, x0, y0, now, scale).state;
      TargetColour(index, st'.incorrectPoints, st'.currentIndex) == if index <= st.currentIndex then Passed else Pending
  {
  }

  /** After a rejected line the targets whose orders were wrong are drawn as failed. */
  lemma ColoursAfterRejection(st: BoardState, screen: TrailsScreen, moveX: real, moveY: real, x0: real, y0: real,
                              now: int, scale: real -> real, order: int)
    requires ValidState(st) && st.allowed && |st.lines| > 0 && st.isValid
    requires ReleaseLineSpec(st, screen, moveX, moveY, x0, y0, now, scale).saved.None?
    requires order >= 1 && order in ReleaseLineSpec(st, screen, moveX, moveY, x0, y0, now, scale).state.incorrectPoints
    ensures var st' := ReleaseLineSpec(st, screen, moveX, moveY, x0, y0, now, scale).state;
      TargetColour(order - 1, st'.incorrectPoints, st'.currentIndex) == Failed
  {
  }

  /** Once stopped, every gesture handler leaves the state as it is. */
  lemma StoppedIgnoresGestures(st: BoardState, screen: TrailsScreen, x: real, y: real, x0: real, y0: real,
                               now: int, scale: real -> real)
    requires ValidState(st) && !st.allowed
    ensures StartLineSpec(st, screen, x, y, now) == st
    ensures MovePointSpec(st, x, y, x0, y0, now) == st
    ensures ReleaseLineSpec(st, screen, x, y, x0, y0, now, scale) == Release(st, None, None)
  {
  }

  /** Every handler keeps each line at its start point plus at most one more. */
  lemma StartLineKeepsLinesWellFormed(st: BoardState, screen: TrailsScreen, x: real, y: real, now: int)
    requires ValidState(st)
    ensures ValidState(StartLineSpec(st, screen, x, y, now))
  {
  }

  lemma MovePointKeepsLinesWellFormed(st: BoardState, moveX: real, moveY: real, x0: real, y0: real, now: int)
    requires ValidState(st)
    ensures ValidState(MovePointSpec(st, moveX, moveY, x0, y0, now))
  {
  }

  lemma ReleaseLineKeepsLinesWellFormed(st: BoardState, screen: TrailsScreen, moveX: real, moveY: real,
                                        x0: real, y0: real, now: int, scale: real -> real)
    requires ValidState(st)
    ensures ValidState(ReleaseLineSpec(st, screen, moveX, moveY, x0, y0, now, scale).state)
  {
  }

  // ---------------------------------------------------------------------------
  // The component

  class Board {
    var lines: seq<Line>
    var incorrectPoints: seq<int>
    var currentIndex: int
    var isValid: bool
    var allowed: bool
    var startX: real
    var startY: real
    var lastX: real
    var lastY: real
    var lastPressTimestamp: Option<int>

    function State(): BoardState
      reads this
    {
      BoardState(lines, incorrectPoints, currentIndex, isValid, allowed, startX, startY, lastX, lastY, lastPressTimestamp)
    }

    ghost predicate Valid()
      reads this
    {
      ValidState(State())
    }

    /** The constructor: no lines, index 1, not valid, and (once the responder is created) allowed. */
    constructor()
      ensures Valid()
      ensures State() == BoardState([], [], 1, false, true, 0.0, 0.0, 0.0, 0.0, None)
    {
      lines, incorrectPoints, currentIndex, isValid := [], [], 1, false;
      allowed := false;
      startX, startY, lastX, lastY := 0.0, 0.0, 0.0, 0.0;
      lastPressTimestamp := None;
      allowed := true;
    }

    /** `componentDidMount`: the index comes from the `currentIndex` prop, 1 when it is not given. */
    method Mount(propIndex: Option<int>)
      requires Valid()
      modifies this
      ensures Valid()
      ensures State() == old(State()).(currentIndex := if propIndex.Some? then propIndex.value else 1)
    {
      currentIndex := if propIndex.Some? then propIndex.value else 1;
    }

    /** `startLine` at touch point (`locationX`, `locationY`) at time `now`. */
    method StartLine(screen: TrailsScreen, locationX: real, locationY: real, now: int)
      requires Valid()
      modifies this
      ensures Valid()
      ensures State() == StartLineSpec(old(State()), screen, locationX, locationY, now)
    {
      if !allowed {
        return;
      }
      var valid := false;
      var order := 0;
      for k := 0 to |screen.items|
        invariant State() == old(State()).(startX := startX, startY := startY)
        invariant var h := LastHit(screen.items[..k], locationX, locationY, screen.r);
          valid == h.Some? &&
          (h.Some? ==> var t := screen.items[h.value];
            startX == t.cx && startY == t.cy && order == t.order) &&
          (h.None? ==> startX == old(startX) && startY == old(startY))
      {
        assert screen.items[..k + 1][..k] == screen.items[..k];
        var item := screen.items[k];
        if Hit(item, locationX, locationY, screen.r) {
          startX := item.cx;
          startY := item.cy;
          order := item.order;
          valid := true;
        }
      }
      assert screen.items[..|screen.items|] == screen.items;
      isValid := valid;
      if valid {
        lines := lines + [Line([Point(startX, startY, now, Some(order))])];
      }
      StartLineKeepsLinesWellFormed(old(State()), screen, locationX, locationY, now);
    }

    /** `movePoint` with gesture position (`moveX`, `moveY`) and origin (`x0`, `y0`) at time `now`. */
    method MovePoint(moveX: real, moveY: real, x0: real, y0: real, now: int)
      requires Valid()
      modifies this
      ensures Valid()
      ensures State() == MovePointSpec(old(State()), moveX, moveY, x0, y0, now)
    {
      if !allowed || |lines| == 0 {
        return;
      }
      var n := |lines| - 1;
      if isValid {
        lastX := moveX - x0 + startX;
        lastY := moveY - y0 + startY;
        lastPressTimestamp := Some(now);
        var points := lines[n].points;
        if |points| > 1 {
          points := points[..|points| - 1];
        }
        points := points + [Point(lastX, lastY, now, None)];
        lines := lines[n := Line(points)];
      }
      MovePointKeepsLinesWellFormed(old(State()), moveX, moveY, x0, y0, now);
    }

    /**
     * `releaseLine`; returns what is passed to `onResult` (when the line is
     * accepted) and to `onError` (when it is wrong).
     */
    method ReleaseLine(screen: TrailsScreen, moveX: real, moveY: real, x0: real, y0: real, now: int, scale: real -> real)
      returns (saved: Option<SaveResult>, error: Option<string>)
      requires Valid()
      modifies this
      ensures Valid()
      ensures var rel := ReleaseLineSpec(old(State()), screen, moveX, moveY, x0, y0, now, scale);
        State() == rel.state && saved == rel.saved && error == rel.error
    {
      saved, error := None, None;
      if !allowed || |lines| == 0 || !isValid {
        return;
      }
      var n := |lines| - 1;
      lastX := moveX - x0 + startX;
      lastY := moveY - y0 + startY;
      lastPressTimestamp := Some(now);
      var endOrder, isValidPoint := SnapToTargets(screen);
      assert Snapped(lastX, lastY, endOrder, isValidPoint) == ReleaseEnd(old(State()), screen, moveX, moveY, x0, y0);
      assert WellFormedLine(lines[|lines| - 1]);
      saved, error := Judge(endOrder, isValidPoint, now, scale);
      ReleaseLineKeepsLinesWellFormed(old(State()), screen, moveX, moveY, x0, y0, now, scale);
    }

    /**
     * The `forEach` over the targets in `releaseLine`: each target within
     * `r` of (`lastX`, `lastY`) moves that point to its centre; returns the
     * order of the last such target (0 if none) and whether there was one.
     */
    method SnapToTargets(screen: TrailsScreen) returns (endOrder: int, isValidPoint: bool)
      modifies this
      ensures State() == old(State()).(lastX := lastX, lastY := lastY)
      ensures Snapped(lastX, lastY, endOrder, isValidPoint)
        == Snap(screen.items, Snapped(old(lastX), old(lastY), 0, false), screen.r)
    {
      endOrder, isValidPoint := 0, false;
      for k := 0 to |screen.items|
        invariant State() == old(State()).(lastX := lastX, lastY := lastY)
        invariant Snapped(lastX, lastY, endOrder, isValidPoint)
          == Snap(screen.items[..k], Snapped(old(lastX), old(lastY), 0, false), screen.r)
      {
        assert screen.items[..k + 1][..k] == screen.items[..k];
        var item := screen.items[k];
        if Hit(item, lastX, lastY, screen.r) {
          lastX := item.cx;
          lastY := item.cy;
          endOrder := item.order;
          isValidPoint := true;
        }
      }
      assert screen.items[..|screen.items|] == screen.items;
    }

    /**
     * `releaseLine` from the removal of the moving point on: the line is
     * accepted when the release point snapped to a target
     * (`isValidPoint`), its start order is `currentIndex` and `endOrder` is
     * `currentIndex + 1`.
     */
    method Judge(endOrder: int, isValidPoint: bool, now: int, scale: real -> real)
      returns (saved: Option<SaveResult>, error: Option<string>)
      requires |lines| > 0 && WellFormedLine(lines[|lines| - 1])
      modifies this
      ensures var rel := JudgeSpec(old(State()), Snapped(old(lastX), old(lastY), endOrder, isValidPoint), now, scale);
        State() == rel.state && saved == rel.saved && error == rel.error
    {
      saved, error := None, None;
      var n := |lines| - 1;
      var points := DropMovingPoint();
      var startOrder := points[0].order.value;
      var accepted := isValidPoint;
      if startOrder != currentIndex || endOrder != currentIndex + 1 {
        incorrectPoints := IncorrectOrders(startOrder, endOrder, currentIndex);
        accepted := false;
        error := Some(IncorrectLine);
      } else {
        incorrectPoints := [];
      }
      if accepted {
        lines := lines[n := Line(points + [Point(lastX, lastY, now, Some(endOrder))])];
        saved := Some(Save(lines, endOrder, scale));
        currentIndex := endOrder;
      } else {
        isValid := false;
      }
    }

    /** `if (points.length > 1) points.pop()` on the current line; returns its remaining points. */
    method DropMovingPoint() returns (points: seq<Point>)
      requires |lines| > 0
      modifies this
      ensures points == WithoutLatest(old(lines)[|old(lines)| - 1].points)
      ensures State() == old(State()).(lines := old(lines)[|old(lines)| - 1 := Line(points)])
    {
      var n := |lines| - 1;
      points := lines[n].points;
      if |points| > 1 {
        points := points[..|points| - 1];
      }
      lines := lines[n := Line(points)];
    }

    /** `reset`: no lines. */
    method Reset()
      requires Valid()
      modifies this
      ensures Valid()
      ensures State() == old(State()).(lines := [])
    {
      lines := [];
    }

    /** `start`: no lines, and the gesture handlers are enabled again. */
    method Start()
      requires Valid()
      modifies this
      ensures Valid()
      ensures State() == old(State()).(lines := [], allowed := true)
    {
      Reset();
      allowed := true;
    }

    /** `stop`: every gesture handler becomes a no-op. */
    method Stop()
      requires Valid()
      modifies this
      ensures Valid()
      ensures State() == old(State()).(allowed := false)
    {
      allowed := false;
    }
  }
}
