/**
  The client's board data (packages/client/src/data.ts, and the older copy in
  src/data.ts): the tile grid, its resize effect, the palette that grows with
  the brush colour, and the letter encoding `lzData` builds before it hands
  the string to the compressor.

  The two copies agree line for line on everything modelled here; they differ
  only in the default grid side (30 against 40). The source holds its state in
  reactive signals; here each effect is a pure function from the old value to
  the new one.
 */
module TileData {
  import opened Wrappers

  /** A CSS colour string, as the palette and the tiles hold them. */
  type Colour = string

  const BgColour: Colour := "#FFF"

  const DefaultPalette: seq<Colour> :=
    ["#000000", "#ff7e7e", "#ffc175", "#fbff87", "#9fff8c", "#6cf3ff", "#71a7ff", "#9583ff", "#ff95ff"]

  /** The default grid side of the client package. */
  const ClientTileCount: nat := 30

  /** The default grid side of the older top-level copy. */
  const LegacyTileCount: nat := 40

  /** The 36 letters `lzData` gives to palette indices, in order. */
  const Encoding: string := "ABCDEFGHIJKLMNOPQRSTUVWXYZ0123456789"

  /** What `lzData` writes for a tile it has no letter for. */
  const Unknown: char := '.'

  /** The separator `lzData` puts between rows. */
  const RowSep: char := ','

  // ---------------------------------------------------------------------------
  // The grid

  /** `t` has `y` rows of `x` cells each. */
  predicate Shaped<T>(t: seq<seq<T>>, x: nat, y: nat)
  {
    |t| == y && forall i :: 0 <= i < y ==> |t[i]| == x
  }

  /** `newTiles(x, y)`: `y` separate rows of `x` unset cells. Rows are values
      here, so no two of them can be shared. */
  function NewTiles(x: nat, y: nat): (r: seq<seq<Option<Colour>>>)
    ensures Shaped(r, x, y)
    ensures forall i, j :: 0 <= i < y && 0 <= j < x ==> r[i][j].None?
  {
    seq(y, _ => seq(x, _ => None))
  }

  /** `row.fill(c)` on every row: each cell, set or not, becomes `c`. */
  function Fill(t: seq<seq<Option<Colour>>>, c: Colour): (r: seq<seq<Colour>>)
    ensures |r| == |t| && forall i :: 0 <= i < |t| ==> |r[i]| == |t[i]|
    ensures forall i, j :: 0 <= i < |r| && 0 <= j < |r[i]| ==> r[i][j] == c
  {
    seq(|t|, i requires 0 <= i < |t| => seq(|t[i]|, _ => c))
  }

  /** The grid the module starts with: `n` by `n`, all background. */
  function InitialTiles(n: nat): seq<seq<Colour>>
  {
    Fill(NewTiles(n, n), BgColour)
  }

  /** Both copies start with a square grid of their default side, every tile
      the background colour. */
  lemma InitialGrid()
    ensures Shaped(InitialTiles(ClientTileCount), 30, 30)
    ensures Shaped(InitialTiles(LegacyTileCount), 40, 40)
    ensures forall i, j :: 0 <= i < 30 && 0 <= j < 30 ==> InitialTiles(ClientTileCount)[i][j] == BgColour
    ensures forall i, j :: 0 <= i < 40 && 0 <= j < 40 ==> InitialTiles(LegacyTileCount)[i][j] == BgColour
  {
  }

  /** Row `y`, column `x` exists in `t` (rows may be ragged). */
  predicate Inside<T>(t: seq<seq<T>>, x: int, y: int)
  {
    0 <= y < |t| && 0 <= x < |t[y]|
  }

  /** The resize effect: a fresh `cY` by `cX` grid whose cells inside the old
      grid keep their colour and whose other cells are the background. */
  function Resize(current: seq<seq<Colour>>, cX: nat, cY: nat): (r: seq<seq<Colour>>)
    ensures Shaped(r, cX, cY)
  {
    seq(cY, y requires 0 <= y < cY =>
      seq(cX, x requires 0 <= x < cX => if Inside(current, x, y) then current[y][x] else BgColour))
  }

  /** Cells inside both the old and the new bounds carry over. */
  lemma ResizeCarriesOver(current: seq<seq<Colour>>, cX: nat, cY: nat, x: int, y: int)
    requires Inside(current, x, y) && x < cX && y < cY
    ensures Resize(current, cX, cY)[y][x] == current[y][x]
  {
  }

  /** Every new cell outside the old grid is the background. */
  lemma ResizeFills(current: seq<seq<Colour>>, cX: nat, cY: nat, x: nat, y: nat)
    requires x < cX && y < cY && !Inside(current, x, y)
    ensures Resize(current, cX, cY)[y][x] == BgColour
  {
  }

  /** Resizing to the grid's own shape changes nothing. */
  lemma ResizeToSameShape(t: seq<seq<Colour>>, x: nat, y: nat)
    requires Shaped(t, x, y)
    ensures Resize(t, x, y) == t
  {
    var r := Resize(t, x, y);
    forall i | 0 <= i < y
      ensures r[i] == t[i]
    {
    }
  }

  /** Applying the effect twice with the same counts is the same as once. */
  lemma ResizeIdempotent(t: seq<seq<Colour>>, x: nat, y: nat)
    ensures Resize(Resize(t, x, y), x, y) == Resize(t, x, y)
  {
    ResizeToSameShape(Resize(t, x, y), x, y);
  }

  /** Growing then shrinking back gives the original grid: nothing is lost
      by a temporary enlargement. */
  lemma GrowThenShrink(t: seq<seq<Colour>>, x: nat, y: nat, x': nat, y': nat)
    requires Shaped(t, x, y) && x <= x' && y <= y'
    ensures Resize(Resize(t, x', y'), x, y) == t
  {
    var g := Resize(t, x', y');
    var r := Resize(g, x, y);
    forall i | 0 <= i < y
      ensures r[i] == t[i]
    {
      forall j | 0 <= j < x
        ensures r[i][j] == t[i][j]
      {
        ResizeCarriesOver(t, x', y', j, i);
      }
    }
  }

  /** Shrinking a resized grid is the same as resizing straight to the
      smaller shape: a cell cut off earlier is not brought back later. */
  lemma ShrinkComposes(t: seq<seq<Colour>>, x1: nat, y1: nat, x2: nat, y2: nat)
    requires x2 <= x1 && y2 <= y1
    ensures Resize(Resize(t, x1, y1), x2, y2) == Resize(t, x2, y2)
  {
    var a := Resize(Resize(t, x1, y1), x2, y2);
    var b := Resize(t, x2, y2);
    forall i | 0 <= i < y2
      ensures a[i] == b[i]
    {
    }
  }

  // ---------------------------------------------------------------------------
  // The palette

  /** No colour occurs twice. */
  predicate NoDup(p: seq<Colour>)
  {
    forall i, j :: 0 <= i < j < |p| ==> p[i] != p[j]
  }

  /** The brush effect: a brush colour not yet in the palette is appended. */
  function PaletteAdd(p: seq<Colour>, c: Colour): (r: seq<Colour>)
    ensures c in r && |p| <= |r| <= |p| + 1 && r[..|p|] == p
    ensures forall d :: d in r <==> d in p || d == c
  {
    if c in p then p else p + [c]
  }

  /** A colour already present leaves the palette unchanged; a new one goes
      at the end. */
  lemma PaletteAddCases(p: seq<Colour>, c: Colour)
    ensures c in p ==> PaletteAdd(p, c) == p
    ensures c !in p ==> PaletteAdd(p, c) == p + [c] && PaletteAdd(p, c)[|p|] == c
  {
  }

  /** Adding never introduces a duplicate. */
  lemma PaletteAddKeepsNoDup(p: seq<Colour>, c: Colour)
    requires NoDup(p)
    ensures NoDup(PaletteAdd(p, c))
  {
  }

  /** Choosing the same brush twice is the same as choosing it once. */
  lemma PaletteAddIdempotent(p: seq<Colour>, c: Colour)
    ensures PaletteAdd(PaletteAdd(p, c), c) == PaletteAdd(p, c)
  {
  }

  /** The palette after a run of brush choices, from `p`. */
  function PaletteAfter(p: seq<Colour>, brushes: seq<Colour>): (r: seq<Colour>)
    ensures |p| <= |r| && r[..|p|] == p
    decreases |brushes|
  {
    if |brushes| == 0 then p else PaletteAfter(PaletteAdd(p, brushes[0]), brushes[1..])
  }

  /** Starting from the default palette, any run of brush choices leaves a
      palette without duplicates that holds every colour chosen. */
  lemma {:induction false} PaletteAfterNoDup(p: seq<Colour>, brushes: seq<Colour>)
    requires NoDup(p)
    ensures NoDup(PaletteAfter(p, brushes))
    ensures forall i :: 0 <= i < |brushes| ==> brushes[i] in PaletteAfter(p, brushes)
    decreases |brushes|
  {
    if |brushes| > 0 {
      var p1 := PaletteAdd(p, brushes[0]);
      PaletteAddKeepsNoDup(p, brushes[0]);
      PaletteAfterNoDup(p1, brushes[1..]);
      var r := PaletteAfter(p1, brushes[1..]);
      assert r[..|p1|] == p1;
      assert brushes[0] in r by {
        var k :| 0 <= k < |p1| && p1[k] == brushes[0];
        assert r[k] == p1[k];
      }
      forall i | 1 <= i < |brushes|
        ensures brushes[i] in r
      {
        assert brushes[1..][i - 1] == brushes[i];
      }
    }
  }

  lemma DefaultPaletteNoDup()
    ensures NoDup(DefaultPalette) && |DefaultPalette| == 9
  {
  }

  // ---------------------------------------------------------------------------
  // The lzData tile string

  /** The last index at which `c` occurs in `p`: the one `palMap` keeps,
      since each later entry overwrites the earlier ones. */
  function LastIndex(p: seq<Colour>, c: Colour): (r: Option<nat>)
    ensures r.Some? <==> c in p
    ensures r.Some? ==> r.value < |p| && p[r.value] == c
    ensures r.Some? ==> forall j :: r.value < j < |p| ==> p[j] != c
    decreases |p|
  {
    if |p| == 0 then None
    else if p[|p| - 1] == c then Some(|p| - 1)
    else LastIndex(p[..|p| - 1], c)
  }

  /** A colour `lzData` can write as a letter: its last palette index has one. */
  predicate Encodable(p: seq<Colour>, c: Colour)
  {
    LastIndex(p, c).Some? && LastIndex(p, c).value < |Encoding|
  }

  /** The character `lzData` writes for one tile: the letter of the colour's
      palette index, or `.` for a colour outside the palette or past the
      36th entry (whose `encoding[i]` is undefined). */
  function Code(p: seq<Colour>, c: Colour): (ch: char)
    ensures Encodable(p, c) ==> ch == Encoding[LastIndex(p, c).value]
    ensures !Encodable(p, c) ==> ch == Unknown
  {
    match LastIndex(p, c)
    case Some(i) => if i < |Encoding| then Encoding[i] else Unknown
    case None => Unknown
  }

  /** One row as letters, one per tile. */
  function EncodeRow(p: seq<Colour>, row: seq<Colour>): (s: string)
    ensures |s| == |row|
  {
    seq(|row|, j requires 0 <= j < |row| => Code(p, row[j]))
  }

  /** Strings joined with a separator, as `Array.prototype.join`. */
  function Join(rows: seq<string>, sep: char): string
    decreases |rows|
  {
    if |rows| == 0 then ""
    else if |rows| == 1 then rows[0]
    else rows[0] + [sep] + Join(rows[1..], sep)
  }

  /** The tile string of `lzData`: rows of letters joined by commas. */
  function Encode(p: seq<Colour>, t: seq<seq<Colour>>): string
  {
    Join(seq(|t|, i requires 0 <= i < |t| => EncodeRow(p, t[i])), RowSep)
  }

  /** `String.prototype.split` on one character: the pieces between the
      separators, never fewer than one. */
  function Split(s: string, sep: char): (r: seq<string>)
    ensures |r| >= 1
    decreases |s|
  {
    if |s| == 0 then [""]
    else
      var rest := Split(s[1..], sep);
      if s[0] == sep then [""] + rest else [[s[0]] + rest[0]] + rest[1..]
  }

  /** The palette index a letter stands for: `A`..`Z` are 0 to 25 and `0`..`9`
      are 26 to 35. */
  function LetterIndex(ch: char): (i: Option<nat>)
    ensures i.Some? ==> i.value < |Encoding| && Encoding[i.value] == ch
  {
    LettersInOrder();
    if 'A' <= ch <= 'Z' then Some(ch as int - 'A' as int)
    else if '0' <= ch <= '9' then Some(ch as int - '0' as int + 26)
    else None
  }

  /** The palette entry a letter stands for, if any. */
  function DecodeChar(p: seq<Colour>, ch: char): (c: Option<Colour>)
    ensures c.Some? ==> c.value in p
  {
    match LetterIndex(ch)
    case Some(i) => if i < |p| then Some(p[i]) else None
    case None => None
  }

  /** Reading a tile string back against the palette it was written with:
      one row per comma-separated piece, `None` where no colour is known. */
  function Decode(p: seq<Colour>, s: string): seq<seq<Option<Colour>>>
  {
    var rows := Split(s, RowSep);
    seq(|rows|, i requires 0 <= i < |rows| =>
      seq(|rows[i]|, j requires 0 <= j < |rows[i]| => DecodeChar(p, rows[i][j])))
  }

  /** What a tile string can say about a grid: each tile's colour where it
      has a letter, and nothing otherwise. */
  function Visible(p: seq<Colour>, t: seq<seq<Colour>>): seq<seq<Option<Colour>>>
  {
    seq(|t|, i requires 0 <= i < |t| =>
      seq(|t[i]|, j requires 0 <= j < |t[i]| => if Encodable(p, t[i][j]) then Some(t[i][j]) else None))
  }

  /** The letters are `A`..`Z` then `0`..`9`, in code order. */
  lemma LettersInOrder()
    ensures forall i :: 0 <= i < 26 ==> Encoding[i] as int == 'A' as int + i
    ensures forall i :: 26 <= i < |Encoding| ==> Encoding[i] as int == '0' as int + i - 26
  {
  }

  /** Decoding undoes the letter of one tile. */
  lemma CodeRoundTrip(p: seq<Colour>, c: Colour)
    ensures DecodeChar(p, Code(p, c)) == (if Encodable(p, c) then Some(c) else None)
  {
    LettersInOrder();
  }

  /** Splitting at the first separator: a piece without separators comes
      off whole. */
  lemma {:induction false} SplitPiece(w: string, sep: char, t: string)
    requires sep !in w
    ensures Split(w + [sep] + t, sep) == [w] + Split(t, sep)
    ensures Split(w, sep) == [w]
    decreases |w|
  {
    if |w| == 0 {
      assert w + [sep] + t == [sep] + t;
      assert ([sep] + t)[1..] == t;
    } else {
      SplitPiece(w[1..], sep, t);
      assert (w + [sep] + t)[1..] == w[1..] + [sep] + t;
      assert [w[0]] + w[1..] == w;
    }
  }

  /** Splitting undoes joining, for at least one piece and no separator
      inside a piece. */
  lemma {:induction false} SplitJoin(rows: seq<string>, sep: char)
    requires |rows| >= 1
    requires forall i :: 0 <= i < |rows| ==> sep !in rows[i]
    ensures Split(Join(rows, sep), sep) == rows
    decreases |rows|
  {
    if |rows| == 1 {
      SplitPiece(rows[0], sep, "");
    } else {
      SplitJoin(rows[1..], sep);
      SplitPiece(rows[0], sep, Join(rows[1..], sep));
      assert [rows[0]] + rows[1..] == rows;
    }
  }

  /** The tile string round trip: reading back what `lzData` wrote gives
      every encodable tile its colour and loses the rest. The grid must have
      a row, since no rows and one empty row both write as "". */
  lemma EncodeDecode(p: seq<Colour>, t: seq<seq<Colour>>)
    requires |t| >= 1
    ensures Decode(p, Encode(p, t)) == Visible(p, t)
  {
    var rows := seq(|t|, i requires 0 <= i < |t| => EncodeRow(p, t[i]));
    LettersInOrder();
    forall i | 0 <= i < |rows|
      ensures RowSep !in rows[i]
    {
      assert forall j :: 0 <= j < |rows[i]| ==> rows[i][j] == Code(p, t[i][j]) != RowSep;
    }
    SplitJoin(rows, RowSep);
    var d := Decode(p, Encode(p, t));
    var v := Visible(p, t);
    forall i | 0 <= i < |t|
      ensures d[i] == v[i]
    {
      forall j | 0 <= j < |t[i]|
        ensures d[i][j] == v[i][j]
      {
        CodeRoundTrip(p, t[i][j]);
      }
    }
  }

  /** With every tile colour among the first 36 palette entries, the round
      trip is exact. */
  lemma EncodeDecodeExact(p: seq<Colour>, t: seq<seq<Colour>>)
    requires |t| >= 1
    requires forall i, j :: 0 <= i < |t| && 0 <= j < |t[i]| ==> Encodable(p, t[i][j])
    ensures Decode(p, Encode(p, t)) == Known(t)
  {
    EncodeDecode(p, t);
    var v := Visible(p, t);
    forall i | 0 <= i < |t|
      ensures v[i] == Known(t)[i]
    {
    }
  }

  /** Every tile of `t`, known. */
  function Known(t: seq<seq<Colour>>): seq<seq<Option<Colour>>>
  {
    seq(|t|, i requires 0 <= i < |t| => seq(|t[i]|, j requires 0 <= j < |t[i]| => Some(t[i][j])))
  }

  /** A grid without rows and a grid of one empty row write the same string. */
  lemma EmptyGridsCollide(p: seq<Colour>)
    ensures Encode(p, []) == Encode(p, [[]]) == ""
  {
  }
}
