/**
  The frame scheduler of the drawing client (packages/client/src/rAF.ts):
  bounds checks, writes to the tile data, and the queue of tile draws that one
  animation frame flushes to every registered board.

  The module's mutable globals become two values: the `Grid` of tile data it
  reads and writes, and the `Frames` state of its queue. A board's draw
  callback is opaque, so a board is an identifier and the flush returns the
  calls it makes, in order.
 */
module Raf {
  import opened Wrappers
  import opened Geometry
  import opened TileData

  /** The tile data and the two tile counts the bounds check reads. */
  datatype Grid = Grid(tiles: seq<seq<Colour>>, countX: int, countY: int)

  /** The counts describe the tile data, as the resize effect keeps them. */
  predicate GridWf(g: Grid)
  {
    g.countX >= 0 && g.countY >= 0 && Shaped(g.tiles, g.countX, g.countY)
  }

  /** `validateTileXY`: the tile is on the board. */
  function ValidateTileXY(g: Grid, xy: Point): (ok: bool)
    ensures ok <==> 0 <= xy.x < g.countX && 0 <= xy.y < g.countY
    ensures ok && GridWf(g) ==> Inside(g.tiles, xy.x, xy.y)
  {
    !(xy.x < 0 || xy.y < 0 || xy.x >= g.countX || xy.y >= g.countY)
  }

  /** The colour tile data holds for an on-board tile. */
  function TileAt(g: Grid, xy: Point): Colour
    requires GridWf(g) && ValidateTileXY(g, xy)
  {
    g.tiles[xy.y][xy.x]
  }

  /** `applyTileDataValue`: an on-board tile takes the colour; anything else
      is ignored. */
  function ApplyTileDataValue(g: Grid, xy: Point, colour: Colour): (r: Grid)
    requires GridWf(g)
    ensures GridWf(r) && r.countX == g.countX && r.countY == g.countY
    ensures ValidateTileXY(g, xy) ==> TileAt(r, xy) == colour
    ensures forall q :: ValidateTileXY(g, q) && q != xy ==> TileAt(r, q) == TileAt(g, q)
    ensures !ValidateTileXY(g, xy) ==> r == g
  {
    if !ValidateTileXY(g, xy) then g
    else g.(tiles := g.tiles[xy.y := g.tiles[xy.y][xy.x := colour]])
  }

  /** Writes to different tiles commute; a later write to the same tile wins. */
  lemma WritesCommute(g: Grid, p: Point, q: Point, c: Colour, d: Colour)
    requires GridWf(g)
    ensures p != q ==> ApplyTileDataValue(ApplyTileDataValue(g, p, c), q, d)
                       == ApplyTileDataValue(ApplyTileDataValue(g, q, d), p, c)
    ensures ApplyTileDataValue(ApplyTileDataValue(g, p, c), p, d) == ApplyTileDataValue(g, p, d)
  {
    var a := ApplyTileDataValue(ApplyTileDataValue(g, p, c), q, d);
    var b := ApplyTileDataValue(ApplyTileDataValue(g, q, d), p, c);
    if p != q {
      SameTiles(a, b);
    }
    SameTiles(ApplyTileDataValue(ApplyTileDataValue(g, p, c), p, d), ApplyTileDataValue(g, p, d));
  }

  /** Two well-formed grids of one shape that agree on every tile are equal. */
  lemma SameTiles(a: Grid, b: Grid)
    requires GridWf(a) && GridWf(b) && a.countX == b.countX && a.countY == b.countY
    requires forall q :: ValidateTileXY(a, q) ==> TileAt(a, q) == TileAt(b, q)
    ensures a == b
  {
    forall i | 0 <= i < a.countY
      ensures a.tiles[i] == b.tiles[i]
    {
      forall j | 0 <= j < a.countX
        ensures a.tiles[i][j] == b.tiles[i][j]
      {
        assert TileAt(a, Point(j, i)) == TileAt(b, Point(j, i));
      }
    }
  }

  // ---------------------------------------------------------------------------
  // The draw queue

  /** A queued draw: a tile and the colour to paint it. */
  datatype Entry = Entry(xy: Point, colour: Colour)

  /** A board, standing for its registered draw callback. */
  type Board = nat

  /** One call of a board's callback during a flush. */
  datatype Delivery = Delivery(board: Board, xy: Point, colour: Colour)

  /** The scheduler: registered boards, queued draws, the "frame requested"
      flag, and how many frame callbacks the browser holds for it. */
  datatype Frames = Frames(boards: seq<Board>, queue: seq<Entry>, scheduled: bool, pending: nat)

  const InitialFrames := Frames([], [], false, 0)

  /** What the flag promises: a frame callback is outstanding exactly when it
      is set (so never more than one), and nothing waits without one. */
  predicate Sound(f: Frames)
  {
    && f.pending == (if f.scheduled then 1 else 0)
    && (|f.queue| > 0 ==> f.scheduled)
  }

  /** The colour a queued draw uses: the one given unless it is missing or
      empty (falsy), else the tile's current colour. */
  function DrawColour(g: Grid, xy: Point, colour: Option<Colour>): (c: Colour)
    requires GridWf(g) && ValidateTileXY(g, xy)
    ensures colour.Some? && colour.value != "" ==> c == colour.value
    ensures colour.None? || colour.value == "" ==> c == TileAt(g, xy)
  {
    if colour.Some? && colour.value != "" then colour.value else TileAt(g, xy)
  }

  /** `queueTileDraw`: an off-board tile is ignored; otherwise exactly one
      entry joins the end of the queue, and a frame is requested only if none
      is already. */
  function QueueTileDraw(g: Grid, f: Frames, xy: Point, colour: Option<Colour>): (r: Frames)
    requires GridWf(g)
    ensures !ValidateTileXY(g, xy) ==> r == f
    ensures ValidateTileXY(g, xy) ==>
              && r.queue == f.queue + [Entry(xy, DrawColour(g, xy, colour))]
              && r.boards == f.boards && r.scheduled
              && r.pending == (if f.scheduled then f.pending else f.pending + 1)
    ensures Sound(f) ==> Sound(r)
  {
    if !ValidateTileXY(g, xy) then f
    else
      var q := f.queue + [Entry(xy, DrawColour(g, xy, colour))];
      if !f.scheduled then f.(queue := q, scheduled := true, pending := f.pending + 1)
      else f.(queue := q)
  }

  /** The calls a flush makes: board by board, every queued entry in order. */
  function Deliveries(boards: seq<Board>, queue: seq<Entry>): (ds: seq<Delivery>)
    decreases |boards|
  {
    if |boards| == 0 then []
    else seq(|queue|, i requires 0 <= i < |queue| => Delivery(boards[0], queue[i].xy, queue[i].colour))
         + Deliveries(boards[1..], queue)
  }

  /** The entries one board received, in the order it received them. */
  function ReceivedBy(ds: seq<Delivery>, b: Board): seq<Entry>
    decreases |ds|
  {
    if |ds| == 0 then []
    else (if ds[0].board == b then [Entry(ds[0].xy, ds[0].colour)] else []) + ReceivedBy(ds[1..], b)
  }

  /** `ReceivedBy` distributes over concatenation. */
  lemma {:induction false} ReceivedByAppend(a: seq<Delivery>, c: seq<Delivery>, b: Board)
    ensures ReceivedBy(a + c, b) == ReceivedBy(a, b) + ReceivedBy(c, b)
    decreases |a|
  {
    if |a| == 0 {
      assert a + c == c;
    } else {
      var h := if a[0].board == b then [Entry(a[0].xy, a[0].colour)] else [];
      ReceivedByAppend(a[1..], c, b);
      assert (a + c)[0] == a[0] && (a + c)[1..] == a[1..] + c;
      assert ReceivedBy(a + c, b) == h + ReceivedBy(a[1..] + c, b);
      assert ReceivedBy(a, b) == h + ReceivedBy(a[1..], b);
    }
  }

  /** One board's share of the flush: the whole queue if it is that board's
      turn, nothing otherwise. */
  lemma {:induction false} ReceivedOneBoard(x: Board, queue: seq<Entry>, b: Board)
    ensures ReceivedBy(seq(|queue|, i requires 0 <= i < |queue| => Delivery(x, queue[i].xy, queue[i].colour)), b)
            == (if x == b then queue else [])
    decreases |queue|
  {
    var ds := seq(|queue|, i requires 0 <= i < |queue| => Delivery(x, queue[i].xy, queue[i].colour));
    if |queue| > 0 {
      var rest := seq(|queue| - 1, i requires 0 <= i < |queue| - 1 => Delivery(x, queue[1..][i].xy, queue[1..][i].colour));
      assert ds[1..] == rest;
      ReceivedOneBoard(x, queue[1..], b);
      assert [queue[0]] + queue[1..] == queue;
    }
  }

  /** Every registered board receives every queued entry, in queue order,
      once per registration; an unregistered board receives nothing. */
  lemma {:induction false} FlushReachesEveryBoard(boards: seq<Board>, queue: seq<Entry>, b: Board)
    ensures b !in boards ==> ReceivedBy(Deliveries(boards, queue), b) == []
    ensures NoRepeat(boards) && b in boards ==> ReceivedBy(Deliveries(boards, queue), b) == queue
    decreases |boards|
  {
    if |boards| > 0 {
      var head := seq(|queue|, i requires 0 <= i < |queue| => Delivery(boards[0], queue[i].xy, queue[i].colour));
      ReceivedByAppend(head, Deliveries(boards[1..], queue), b);
      ReceivedOneBoard(boards[0], queue, b);
      FlushReachesEveryBoard(boards[1..], queue, b);
      if NoRepeat(boards) && b in boards && b != boards[0] {
        assert b in boards[1..];
      }
      if NoRepeat(boards) && b == boards[0] {
        assert b !in boards[1..];
      }
    }
  }

  /** No board is registered twice. */
  predicate NoRepeat(boards: seq<Board>)
  {
    forall i, j :: 0 <= i < j < |boards| ==> boards[i] != boards[j]
  }

  /** The frame callback: when one is outstanding it draws the queue on every
      board, then empties the queue and clears the flag. With none
      outstanding there is nothing to run. */
  function RunFrame(f: Frames): (r: (Frames, seq<Delivery>))
    ensures f.pending == 0 ==> r == (f, [])
    ensures f.pending > 0 ==>
              && r.0 == Frames(f.boards, [], false, f.pending - 1)
              && r.1 == Deliveries(f.boards, f.queue)
    ensures Sound(f) ==> Sound(r.0)
  {
    if f.pending == 0 then (f, [])
    else (Frames(f.boards, [], false, f.pending - 1), Deliveries(f.boards, f.queue))
  }

  /** `registerBoard`: the board joins the end of the list. */
  function RegisterBoard(f: Frames, b: Board): (r: Frames)
    ensures r.boards == f.boards + [b] && r.queue == f.queue
    ensures Sound(f) ==> Sound(r)
  {
    f.(boards := f.boards + [b])
  }

  /** Queue a run of draws, one after another. */
  function QueueAll(g: Grid, f: Frames, draws: seq<(Point, Option<Colour>)>): (r: Frames)
    requires GridWf(g)
    ensures r.boards == f.boards
    ensures Sound(f) ==> Sound(r)
    decreases |draws|
  {
    if |draws| == 0 then f
    else QueueAll(g, QueueTileDraw(g, f, draws[0].0, draws[0].1), draws[1..])
  }

  /** The entries a run of draws queues: one per on-board tile, in order. */
  function Queued(g: Grid, draws: seq<(Point, Option<Colour>)>): seq<Entry>
    requires GridWf(g)
    decreases |draws|
  {
    if |draws| == 0 then []
    else (if ValidateTileXY(g, draws[0].0) then [Entry(draws[0].0, DrawColour(g, draws[0].0, draws[0].1))] else [])
         + Queued(g, draws[1..])
  }

  /** Queuing a run of draws appends exactly their on-board entries, and
      requests at most one frame however many draws there are. */
  lemma {:induction false} QueueAllAppends(g: Grid, f: Frames, draws: seq<(Point, Option<Colour>)>)
    requires GridWf(g) && Sound(f)
    ensures QueueAll(g, f, draws).queue == f.queue + Queued(g, draws)
    ensures QueueAll(g, f, draws).pending <= 1
    decreases |draws|
  {
    if |draws| > 0 {
      var f1 := QueueTileDraw(g, f, draws[0].0, draws[0].1);
      QueueAllAppends(g, f1, draws[1..]);
      assert f.queue + Queued(g, draws) == f1.queue + Queued(g, draws[1..]);
    }
  }

  /** From an idle scheduler, a run of draws followed by the frame delivers
      to each registered board exactly the on-board draws, in order, and
      leaves the scheduler idle again. */
  lemma QueueThenFlush(g: Grid, f: Frames, draws: seq<(Point, Option<Colour>)>, b: Board)
    requires GridWf(g) && Sound(f) && f.queue == [] && NoRepeat(f.boards) && b in f.boards
    requires Queued(g, draws) != []
    ensures var r := RunFrame(QueueAll(g, f, draws));
            && ReceivedBy(r.1, b) == Queued(g, draws)
            && r.0.queue == [] && !r.0.scheduled && r.0.pending == 0
  {
    QueueAllAppends(g, f, draws);
    var f1 := QueueAll(g, f, draws);
    FlushReachesEveryBoard(f1.boards, f1.queue, b);
  }
}
