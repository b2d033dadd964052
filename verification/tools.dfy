/**
  The board tools of the drawing client (packages/client/src/drawing/tools.ts):
  the cursor helpers and the Cursor, Line, Straight and Circle tools, each a
  small state machine over one board's `BoardToolState`.

  A tool's side effects (queued tile draws, tile data writes and messages to
  the server) are returned as a trace of `Effect`s in the order the source
  performs them; `Perform` replays a trace against the scheduler model. The
  shape generators `genLineXY` and `genCircleXY` live in a file that is not
  part of this model, so they are parameters, as are the brush colour and the
  cursor colour the style macro supplies.
 */
module Tools {
  import opened Wrappers
  import opened Geometry
  import opened TileData
  import Raf

  /** `BoardToolState`: where the pointer went down, where it was last seen,
      and the tiles showing the cursor. `toolUp` is part of the record but no
      tool reads or writes it. */
  datatype ToolState = ToolState(toolDown: Option<Point>, toolUp: Option<Point>, toolMove: Option<Point>,
                                 cursorTiles: seq<Point>)

  const Idle := ToolState(None, None, None, [])

  /** What a tool does to the world, in order. */
  datatype Effect =
    | QueueDraw(xy: Point, given: Option<Colour>)    // queueTileDraw
    | WriteTile(xy: Point, colour: Colour)           // applyTileDataValue
    | SendLine(xyA: Point, xyB: Point, colour: Colour)           // 'canvas/drawLine'
    | SendCircle(xyCenter: Point, colour: Colour, radius: int)   // 'canvas/drawCircle'

  /** What the tools read from outside: the brush and cursor colours and the
      two shape generators. */
  datatype Env = Env(brush: Colour, cursorColour: Colour,
                     lineXY: (Point, Point) -> seq<Point>, circleXY: (Point, int) -> seq<Point>)

  /** The state after an event and the effects it had. */
  datatype Reaction = Reaction(state: ToolState, effects: seq<Effect>)

  datatype Tool = Cursor | Line | Straight | Circle

  datatype Event = Down(xy: Point) | Up(xy: Point) | Move(xy: Point)

  // ---------------------------------------------------------------------------
  // Cursor helpers

  /** Redraws of `tiles` from tile data, in order. */
  function Redraws(tiles: seq<Point>): (e: seq<Effect>)
    ensures |e| == |tiles| && forall i :: 0 <= i < |tiles| ==> e[i] == QueueDraw(tiles[i], None)
  {
    seq(|tiles|, i requires 0 <= i < |tiles| => QueueDraw(tiles[i], None))
  }

  /** Cursor marks on `tiles`, in order. */
  function Marks(tiles: seq<Point>, colour: Colour): (e: seq<Effect>)
    ensures |e| == |tiles| && forall i :: 0 <= i < |tiles| ==> e[i] == QueueDraw(tiles[i], Some(colour))
  {
    seq(|tiles|, i requires 0 <= i < |tiles| => QueueDraw(tiles[i], Some(colour)))
  }

  /** `cursorDraw`: remember the tile as a cursor tile and draw the cursor on it. */
  function CursorDraw(s: ToolState, env: Env, xy: Point): (r: Reaction)
    ensures r.state.cursorTiles == s.cursorTiles + [xy]
    ensures r.state == s.(cursorTiles := r.state.cursorTiles)
    ensures r.effects == Marks([xy], env.cursorColour)
  {
    Reaction(s.(cursorTiles := s.cursorTiles + [xy]), [QueueDraw(xy, Some(env.cursorColour))])
  }

  /** `cursorClear`: redraw every cursor tile from tile data and forget them. */
  function CursorClear(s: ToolState): (r: Reaction)
    ensures r.state.cursorTiles == [] && r.state == s.(cursorTiles := [])
    ensures r.effects == Redraws(s.cursorTiles)
  {
    Reaction(s.(cursorTiles := []), Redraws(s.cursorTiles))
  }

  /** `cursorDraw` on each tile of a shape, in order. */
  function CursorDrawAll(s: ToolState, env: Env, tiles: seq<Point>): (r: Reaction)
    ensures r.state == s.(cursorTiles := s.cursorTiles + tiles)
    ensures r.effects == Marks(tiles, env.cursorColour)
    decreases |tiles|
  {
    if |tiles| == 0 then Reaction(s, [])
    else
      var first := CursorDraw(s, env, tiles[0]);
      var rest := CursorDrawAll(first.state, env, tiles[1..]);
      DrawAllStep(s, first.state, rest.state, tiles);
      MarksStep(tiles, env.cursorColour, first.effects, rest.effects);
      Reaction(rest.state, first.effects + rest.effects)
  }

  lemma DrawAllStep(s: ToolState, mid: ToolState, fin: ToolState, tiles: seq<Point>)
    requires |tiles| > 0
    requires mid == s.(cursorTiles := s.cursorTiles + [tiles[0]])
    requires fin == mid.(cursorTiles := mid.cursorTiles + tiles[1..])
    ensures fin == s.(cursorTiles := s.cursorTiles + tiles)
  {
    assert s.cursorTiles + [tiles[0]] + tiles[1..] == s.cursorTiles + tiles;
  }

  lemma MarksStep(tiles: seq<Point>, colour: Colour, head: seq<Effect>, tail: seq<Effect>)
    requires |tiles| > 0
    requires head == Marks([tiles[0]], colour) && tail == Marks(tiles[1..], colour)
    ensures head + tail == Marks(tiles, colour)
  {
    var m := Marks(tiles, colour);
    assert forall i :: 1 <= i < |tiles| ==> m[i] == tail[i - 1];
  }

  /** `applyTileDataValue` then `queueTileDraw` on each tile of a shape. */
  function Paint(tiles: seq<Point>, colour: Colour): (e: seq<Effect>)
    ensures |e| == 2 * |tiles|
    ensures forall i :: 0 <= i < |tiles| ==> e[2 * i] == WriteTile(tiles[i], colour)
    ensures forall i :: 0 <= i < |tiles| ==> e[2 * i + 1] == QueueDraw(tiles[i], None)
    ensures forall i :: 0 <= i < |e| ==> e[i].WriteTile? || e[i].QueueDraw?
    decreases |tiles|
  {
    if |tiles| == 0 then []
    else
      var rest := Paint(tiles[1..], colour);
      var e := [WriteTile(tiles[0], colour), QueueDraw(tiles[0], None)] + rest;
      assert forall i :: 1 <= i < |tiles| ==> e[2 * i] == rest[2 * (i - 1)] && tiles[1..][i - 1] == tiles[i];
      e
  }

  /** `toolMoveDuplicate`: the pointer is reported again on the tile it was last seen on. */
  function ToolMoveDuplicate(s: ToolState, xy: Point): (dup: bool)
    ensures dup <==> s.toolMove == Some(xy)
  {
    s.toolMove.Some? && s.toolMove.value.x == xy.x && s.toolMove.value.y == xy.y
  }

  // ---------------------------------------------------------------------------
  // calcRadius

  /** The integer square root: `Math.floor(Math.sqrt(n))` for whole `n`. */
  function IntSqrt(n: nat): (r: nat)
    ensures r * r <= n < (r + 1) * (r + 1)
    decreases n
  {
    if n < 4 then (if n == 0 then 0 else 1)
    else
      var h := IntSqrt(n / 4);
      SqrtStep(n, h);
      if (2 * h + 1) * (2 * h + 1) <= n then 2 * h + 1 else 2 * h
  }

  /** The root of `n` is twice the root of `n / 4`, or one more. */
  lemma SqrtStep(n: nat, h: nat)
    requires h * h <= n / 4 < (h + 1) * (h + 1)
    ensures (2 * h) * (2 * h) <= n < (2 * h + 2) * (2 * h + 2)
  {
    assert (2 * h) * (2 * h) == 4 * (h * h);
    assert (2 * h + 2) * (2 * h + 2) == 4 * ((h + 1) * (h + 1));
  }

  /** The square root is the only number with that property. */
  lemma IntSqrtUnique(n: nat, r: nat)
    requires r * r <= n < (r + 1) * (r + 1)
    ensures r == IntSqrt(n)
  {
    var s := IntSqrt(n);
    if r < s {
      SquareMono(r + 1, s);
    } else if s < r {
      SquareMono(s + 1, r);
    }
  }

  lemma SquareMono(a: nat, b: nat)
    requires a <= b
    ensures a * a <= b * b
  {
    assert a * a <= a * b <= b * b;
  }

  /** `calcRadius`: the whole number of tiles between the centre and the
      pointer, rounded down. */
  function CalcRadius(a: Point, b: Point): (r: nat)
    ensures var d2 := Abs(a.x - b.x) * Abs(a.x - b.x) + Abs(a.y - b.y) * Abs(a.y - b.y);
            r * r <= d2 < (r + 1) * (r + 1)
  {
    IntSqrt(Abs(a.x - b.x) * Abs(a.x - b.x) + Abs(a.y - b.y) * Abs(a.y - b.y))
  }

  // ---------------------------------------------------------------------------
  // The four tools

  /** The Cursor tool: it only tracks the press and shows the cursor. */
  function CursorReact(env: Env, s: ToolState, ev: Event): Reaction
  {
    match ev
    case Down(xy) => Reaction(s.(toolDown := Some(xy)), [])
    case Up(xy) => CursorClear(s.(toolDown := None))
    case Move(xy) =>
      if ToolMoveDuplicate(s, xy) then Reaction(s, [])
      else
        var c := CursorClear(s.(toolMove := Some(xy)));
        var m := CursorDraw(c.state, env, xy);
        Reaction(m.state, c.effects + m.effects)
  }

  /** The freehand Line tool: while pressed, each move paints the segment
      from the press point to the pointer, sends it, and moves the press
      point on. */
  function LineReact(env: Env, s: ToolState, ev: Event): Reaction
  {
    match ev
    case Down(xy) => Reaction(s.(toolDown := Some(xy)), [QueueDraw(xy, Some(env.brush))])
    case Up(xy) =>
      var c := CursorClear(s.(toolDown := None));
      Reaction(c.state, c.effects + [QueueDraw(xy, Some(env.brush))])
    case Move(xy) =>
      if ToolMoveDuplicate(s, xy) then Reaction(s, [])
      else
        var c := CursorClear(s.(toolMove := Some(xy)));
        match c.state.toolDown
        case None =>
          var m := CursorDraw(c.state, env, xy);
          Reaction(m.state, c.effects + m.effects)
        case Some(d) =>
          Reaction(c.state.(toolDown := Some(xy)),
                   c.effects + Paint(env.lineXY(d, xy), env.brush) + [SendLine(d, xy, env.brush)])
  }

  /** The Straight tool: while pressed, moves preview the segment as cursor
      tiles; the release paints and sends it. */
  function StraightReact(env: Env, s: ToolState, ev: Event): Reaction
  {
    match ev
    case Down(xy) => Reaction(s.(toolDown := Some(xy)), [QueueDraw(xy, Some(env.brush))])
    case Up(xy) =>
      var c := CursorClear(s);
      (match c.state.toolDown
       case None => c
       case Some(d) =>
         Reaction(c.state.(toolDown := None),
                  c.effects + Paint(env.lineXY(d, xy), env.brush) + [SendLine(d, xy, env.brush)]))
    case Move(xy) =>
      if ToolMoveDuplicate(s, xy) then Reaction(s, [])
      else
        var c := CursorClear(s.(toolMove := Some(xy)));
        match c.state.toolDown
        case None =>
          var m := CursorDraw(c.state, env, xy);
          Reaction(m.state, c.effects + m.effects)
        case Some(d) =>
          var m := CursorDrawAll(c.state, env, env.lineXY(d, xy));
          Reaction(m.state, c.effects + m.effects + [QueueDraw(d, Some(env.brush))])
  }

  /** The Circle tool: the press fixes the centre without drawing, moves
      preview the circle through the pointer, the release paints and sends it. */
  function CircleReact(env: Env, s: ToolState, ev: Event): Reaction
  {
    match ev
    case Down(xy) => Reaction(s.(toolDown := Some(xy)), [])
    case Up(xy) =>
      var c := CursorClear(s);
      (match c.state.toolDown
       case None => c
       case Some(d) =>
         var radius := CalcRadius(d, xy);
         Reaction(c.state.(toolDown := None),
                  c.effects + Paint(env.circleXY(d, radius), env.brush) + [SendCircle(d, env.brush, radius)]))
    case Move(xy) =>
      if ToolMoveDuplicate(s, xy) then Reaction(s, [])
      else
        var c := CursorClear(s.(toolMove := Some(xy)));
        match c.state.toolDown
        case None =>
          var m := CursorDraw(c.state, env, xy);
          Reaction(m.state, c.effects + m.effects)
        case Some(d) =>
          var m := CursorDrawAll(c.state, env, env.circleXY(d, CalcRadius(d, xy)));
          Reaction(m.state, c.effects + m.effects)
  }

  /** The tool a board has selected reacts to one pointer event. */
  function React(tool: Tool, env: Env, s: ToolState, ev: Event): Reaction
  {
    match tool
    case Cursor => CursorReact(env, s, ev)
    case Line => LineReact(env, s, ev)
    case Straight => StraightReact(env, s, ev)
    case Circle => CircleReact(env, s, ev)
  }

  /** A run of events, effects concatenated in order. */
  function ReactAll(tool: Tool, env: Env, s: ToolState, evs: seq<Event>): Reaction
    decreases |evs|
  {
    if |evs| == 0 then Reaction(s, [])
    else
      var first := React(tool, env, s, evs[0]);
      var rest := ReactAll(tool, env, first.state, evs[1..]);
      Reaction(rest.state, first.effects + rest.effects)
  }

  // ---------------------------------------------------------------------------
  // Properties of the tools

  /** Every tool, on release, forgets the press and clears the cursor. */
  lemma ReleaseClears(tool: Tool, env: Env, s: ToolState, xy: Point)
    ensures var r := React(tool, env, s, Up(xy));
            r.state.toolDown.None? && r.state.cursorTiles == [] && r.state.toolMove == s.toolMove
    ensures React(tool, env, s, Up(xy)).effects[..|s.cursorTiles|] == Redraws(s.cursorTiles)
  {
  }

  /** A repeated pointer position changes nothing, whatever the tool. */
  lemma DuplicateMoveIgnored(tool: Tool, env: Env, s: ToolState, xy: Point)
    requires s.toolMove == Some(xy)
    ensures React(tool, env, s, Move(xy)) == Reaction(s, [])
  {
  }

  /** A new pointer position with nothing pressed (or any position for the
      Cursor tool) replaces the cursor by a single cursor tile. */
  lemma HoverShowsCursor(tool: Tool, env: Env, s: ToolState, xy: Point)
    requires s.toolMove != Some(xy)
    requires tool == Cursor || s.toolDown.None?
    ensures var r := React(tool, env, s, Move(xy));
            && r.state == s.(toolMove := Some(xy), cursorTiles := [xy])
            && r.effects == Redraws(s.cursorTiles) + Marks([xy], env.cursorColour)
  {
  }

  /** A freehand drag paints and sends the segment from the press point and
      moves the press point to the pointer. */
  lemma LineDragAdvances(env: Env, s: ToolState, d: Point, xy: Point)
    requires s.toolDown == Some(d) && s.toolMove != Some(xy)
    ensures var r := React(Line, env, s, Move(xy));
            && r.state == s.(toolDown := Some(xy), toolMove := Some(xy), cursorTiles := [])
            && r.effects == Redraws(s.cursorTiles) + Paint(env.lineXY(d, xy), env.brush) + [SendLine(d, xy, env.brush)]
  {
  }

  /** The effects only draw on canvases: no tile data is written and nothing
      is sent. */
  predicate OnlyDraws(e: seq<Effect>)
  {
    forall i :: 0 <= i < |e| ==> e[i].QueueDraw?
  }

  /** A Straight drag only previews: the segment becomes the cursor, the
      press point stays, and nothing is written or sent. */
  lemma StraightDragPreviews(env: Env, s: ToolState, d: Point, xy: Point)
    requires s.toolDown == Some(d) && s.toolMove != Some(xy)
    ensures var r := React(Straight, env, s, Move(xy));
            && r.state == s.(toolMove := Some(xy), cursorTiles := env.lineXY(d, xy))
            && OnlyDraws(r.effects)
            && r.effects[|r.effects| - 1] == QueueDraw(d, Some(env.brush))
  {
  }

  /** Releasing the Straight tool paints and sends the segment from the
      press point to the release point. */
  lemma StraightReleaseSends(env: Env, s: ToolState, d: Point, xy: Point)
    requires s.toolDown == Some(d)
    ensures var r := React(Straight, env, s, Up(xy));
            && r.state == s.(toolDown := None, cursorTiles := [])
            && r.effects == Redraws(s.cursorTiles) + Paint(env.lineXY(d, xy), env.brush) + [SendLine(d, xy, env.brush)]
  {
  }

  /** Pressing the Circle tool fixes the centre and draws nothing. */
  lemma CircleDownSilent(env: Env, s: ToolState, xy: Point)
    ensures React(Circle, env, s, Down(xy)) == Reaction(s.(toolDown := Some(xy)), [])
  {
  }

  /** Releasing the Circle tool sends the circle about the press point whose
      radius is the rounded-down distance to the release point. */
  lemma CircleReleaseSends(env: Env, s: ToolState, d: Point, xy: Point)
    requires s.toolDown == Some(d)
    ensures var r := React(Circle, env, s, Up(xy));
            var radius := r.effects[|r.effects| - 1].radius;
            var d2 := Abs(d.x - xy.x) * Abs(d.x - xy.x) + Abs(d.y - xy.y) * Abs(d.y - xy.y);
            && r.state == s.(toolDown := None, cursorTiles := [])
            && r.effects[|r.effects| - 1] == SendCircle(d, env.brush, radius)
            && radius * radius <= d2 < (radius + 1) * (radius + 1)
  {
  }

  // ---------------------------------------------------------------------------
  // Strokes

  /** The segments a trace sends, in order. */
  function Sent(e: seq<Effect>): seq<(Point, Point)>
    decreases |e|
  {
    if |e| == 0 then []
    else (if e[0].SendLine? then [(e[0].xyA, e[0].xyB)] else []) + Sent(e[1..])
  }

  lemma {:induction false} SentAppend(a: seq<Effect>, b: seq<Effect>)
    ensures Sent(a + b) == Sent(a) + Sent(b)
    decreases |a|
  {
    if |a| == 0 {
      assert a + b == b;
    } else {
      var head := if a[0].SendLine? then [(a[0].xyA, a[0].xyB)] else [];
      assert (a + b)[0] == a[0] && (a + b)[1..] == a[1..] + b;
      assert Sent(a + b) == head + Sent(a[1..] + b);
      SentAppend(a[1..], b);
    }
  }

  lemma {:induction false} SentNone(e: seq<Effect>)
    requires forall i :: 0 <= i < |e| ==> !e[i].SendLine?
    ensures Sent(e) == []
    decreases |e|
  {
    if |e| > 0 {
      SentNone(e[1..]);
    }
  }

  /** Segments that start where the previous one ended, the first at `from`;
      `to` is where the last one ends. */
  predicate Chain(from: Point, segs: seq<(Point, Point)>, to: Point)
    decreases |segs|
  {
    if |segs| == 0 then from == to
    else segs[0].0 == from && Chain(segs[0].1, segs[1..], to)
  }

  lemma {:induction false} ChainPrepend(from: Point, seg: (Point, Point), segs: seq<(Point, Point)>, to: Point)
    requires seg.0 == from && Chain(seg.1, segs, to)
    ensures Chain(from, [seg] + segs, to)
  {
    assert ([seg] + segs)[1..] == segs;
  }

  /** One move of a press with the Line tool sends the segment from the
      press point to the pointer and moves the press point there, unless the
      move repeats the last position. */
  lemma LineMoveSends(env: Env, s: ToolState, d: Point, xy: Point)
    requires s.toolDown == Some(d)
    ensures var r := React(Line, env, s, Move(xy));
            var dup := s.toolMove == Some(xy);
            && r.state.toolDown == Some(if dup then d else xy)
            && Sent(r.effects) == (if dup then [] else [(d, xy)])
  {
    var r := React(Line, env, s, Move(xy));
    if s.toolMove == Some(xy) {
      SentNone(r.effects);
    } else {
      var c := CursorClear(s.(toolMove := Some(xy)));
      var painted := c.effects + Paint(env.lineXY(d, xy), env.brush);
      SentNone(painted);
      SentAppend(painted, [SendLine(d, xy, env.brush)]);
      assert Sent([SendLine(d, xy, env.brush)]) == [(d, xy)];
    }
  }

  /** A freehand stroke is sent without gaps: during a press, the segments
      the Line tool sends chain from the press point to where the press point
      ends up. */
  lemma {:induction false} StrokeIsChained(env: Env, s: ToolState, d: Point, moves: seq<Point>)
    requires s.toolDown == Some(d)
    ensures var r := ReactAll(Line, env, s, seq(|moves|, i requires 0 <= i < |moves| => Move(moves[i])));
            r.state.toolDown.Some? && Chain(d, Sent(r.effects), r.state.toolDown.value)
    decreases |moves|
  {
    var evs := seq(|moves|, i requires 0 <= i < |moves| => Move(moves[i]));
    if |moves| > 0 {
      var xy := moves[0];
      var first := React(Line, env, s, Move(xy));
      LineMoveSends(env, s, d, xy);
      var tail := seq(|moves| - 1, i requires 0 <= i < |moves| - 1 => Move(moves[1..][i]));
      assert evs[0] == Move(xy) && evs[1..] == tail;
      var d1 := first.state.toolDown.value;
      StrokeIsChained(env, first.state, d1, moves[1..]);
      var rest := ReactAll(Line, env, first.state, tail);
      assert ReactAll(Line, env, s, evs) == Reaction(rest.state, first.effects + rest.effects);
      SentAppend(first.effects, rest.effects);
      if s.toolMove != Some(xy) {
        ChainPrepend(d, (d, xy), Sent(rest.effects), rest.state.toolDown.value);
      } else {
        assert Sent(first.effects) + Sent(rest.effects) == Sent(rest.effects);
      }
    }
  }

  // ---------------------------------------------------------------------------
  // Running the effects

  /** The world the effects act on: the tile data, the frame scheduler, and
      the messages sent so far. */
  datatype World = World(grid: Raf.Grid, frames: Raf.Frames, outbox: seq<Effect>)

  predicate WorldWf(w: World)
  {
    Raf.GridWf(w.grid) && Raf.Sound(w.frames)
  }

  /** Carry out a trace in order. */
  function Perform(w: World, e: seq<Effect>): (r: World)
    requires Raf.GridWf(w.grid)
    ensures Raf.GridWf(r.grid) && r.grid.countX == w.grid.countX && r.grid.countY == w.grid.countY
    ensures WorldWf(w) ==> WorldWf(r)
    ensures r.frames.boards == w.frames.boards
    decreases |e|
  {
    if |e| == 0 then w
    else
      var w1 := match e[0]
        case QueueDraw(xy, c) => w.(frames := Raf.QueueTileDraw(w.grid, w.frames, xy, c))
        case WriteTile(xy, c) => w.(grid := Raf.ApplyTileDataValue(w.grid, xy, c))
        case _ => w.(outbox := w.outbox + [e[0]]);
      Perform(w1, e[1..])
  }

  /** A trace that only draws leaves the tile data and the outbox alone. */
  lemma {:induction false} DrawsKeepData(w: World, e: seq<Effect>)
    requires Raf.GridWf(w.grid) && OnlyDraws(e)
    ensures Perform(w, e).grid == w.grid && Perform(w, e).outbox == w.outbox
    decreases |e|
  {
    if |e| > 0 {
      DrawsKeepData(w.(frames := Raf.QueueTileDraw(w.grid, w.frames, e[0].xy, e[0].given)), e[1..]);
    }
  }

  /** A click with the Line tool, pressed and released on one tile without a
      move, paints that tile on the canvases but neither writes it to the tile
      data nor sends it: the next redraw from tile data erases it. The release
      also redraws whatever cursor tiles the hover left behind. */
  lemma ClickOnlyPaintsCanvas(env: Env, s: ToolState, xy: Point, w: World)
    requires Raf.GridWf(w.grid)
    ensures var down := React(Line, env, s, Down(xy));
            var up := React(Line, env, down.state, Up(xy));
            && down.effects + up.effects
               == [QueueDraw(xy, Some(env.brush))] + Redraws(s.cursorTiles) + [QueueDraw(xy, Some(env.brush))]
            && Perform(w, down.effects + up.effects).grid == w.grid
            && Perform(w, down.effects + up.effects).outbox == w.outbox
  {
    var e := [QueueDraw(xy, Some(env.brush))] + Redraws(s.cursorTiles) + [QueueDraw(xy, Some(env.brush))];
    assert OnlyDraws(e);
    DrawsKeepData(w, e);
  }
}
