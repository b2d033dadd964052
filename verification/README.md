# etch in Dafny

A model of the core of etch, a shared pixel-drawing board. It has two halves.

**The document engine** (`packages/shared/crdt.ts`) is a miniature Automerge-style
operation-based CRDT: a JSON-like document of maps, lists and primitives.
Each actor delivers changes to every replica in order. A change is a numbered
batch of operations with ids `counter@actor`. Maps resolve concurrent writes
last-writer-wins by op id. Lists place concurrent inserts after the same
element in descending op-id order and keep deleted elements as tombstones.
The model covers these pieces:
- Op ids: parsing, formatting and the id order (`OpIds`).
- The document's data model (`CrdtTypes`).
- List operations (`CrdtList`), map operations (`CrdtMap`) and the change and operation driver (`Crdt`).
- The commutation of concurrent list inserts (`CrdtCommute`).
- A replay of the source's own two-replica and todo-list scenarios (`CrdtScenarios`).

**The drawing client** (`packages/client/src`, and the older `src/data.ts`) covers:
- Bresenham lines and midpoint circles (`Drawings`).
- The tile grid, palette and text export (`TileData`).
- The animation-frame draw scheduler (`Raf`).
- The four board tools as state machines that emit a trace of effects (`Tools`).
- The keyboard draw-mode switch (`Keypress`).

Points and integer helpers are in `Geometry`; `Option` and `Result` are in `Wrappers`.

Two behaviours of the code are modelled as written:
- `makeMap` allocates an empty list, not a map (`crdt.ts:106-108`). A child
  created by `makeMap` is therefore treated as a list by later operations.
  `Crdt.ApplyOp` models this as written.
- A change that throws part-way is not rolled back. The change is already in
  its actor's log (`crdt.ts:86-87`) and earlier operations stay applied.
  `Crdt.ApplyChange` returns `Thrown(error, state reached)`.

The sequence-number and dependency checks, by contrast, throw before anything
changes, so there the returned state is the one passed in.

## Model

| member | source | states |
|---|---|---|
| CrdtTypes.Init | packages/shared/crdt.ts:47-63 | a fresh replica has no change logs and exactly one object, the root, an empty map with empty metadata |
| OpIds.LessIsStrictTotalOrder | packages/shared/crdt.ts:216-231 | the id order (counter numerically, then actor lexicographically) is irreflexive, asymmetric, transitive and total on distinct ids |
| OpIds.NatToString | packages/shared/crdt.ts:90 | the decimal counter of a generated id is a non-empty digit string with no leading zero |
| OpIds.DigitsValueOfNatToString | packages/shared/crdt.ts:228-229 | parsing the digits of a generated counter gives back the counter |
| OpIds.ParseOpId | packages/shared/crdt.ts:222-224 | an accepted id is a non-empty digit run, then `@`, then an actor free of line terminators; its counter is the run's decimal value |
| OpIds.ParseSplit | packages/shared/crdt.ts:222-224 | conversely, any digit run followed by `@` and an actor free of line terminators parses, to the run's decimal value and that actor, and with a line terminator in the actor it does not |
| OpIds.ParseFormat | packages/shared/crdt.ts:90 | parsing a generated id `counter@actor` recovers the counter and actor exactly when the actor has no line terminator |
| OpIds.FormatInjective | packages/shared/crdt.ts:90 | distinct (counter, actor) pairs never produce the same id string |
| OpIds.CompareOpIds | packages/shared/crdt.ts:221-231 | the comparison throws exactly when either string fails the pattern, and otherwise answers the id order |
| OpIds.CompareFormatted | packages/shared/crdt.ts:221-231 | comparing two generated ids answers the id order of the pairs they came from |
| Crdt.OpIdIsNotRoot | packages/shared/crdt.ts:7 | no generated op id can collide with the root object's id `_root` |
| Crdt.ApplyOp | packages/shared/crdt.ts:97-139 | it throws "object does not exist" exactly when the target is unknown, leaving the state unchanged; a make operation adds one new empty object under the op's own id; no other object changes; a later failure keeps that allocation |
| Crdt.ApplyOpTarget | packages/shared/crdt.ts:101-138 | after the allocation, a map target takes the last-writer-wins step and a list target the insert or update step chosen by the op's insert flag, a `make*` op storing a reference to its own object; the op succeeds exactly when that step does and otherwise throws the step's error |
| Crdt.MakeStoresReference | packages/shared/crdt.ts:102-134 | a `make*` op under a fresh id that wins a map field stores there a reference to the new empty object, which the field then reads as an empty list |
| Crdt.ApplyOpsFrom | packages/shared/crdt.ts:89-91 | applying a change's operations only adds objects, never touches the change logs, and on success every make operation has allocated its object |
| Crdt.ApplyChange | packages/shared/crdt.ts:69-92 | a wrong sequence number throws a sequence error and a missing dependency a dependency error, both leaving the document untouched; otherwise the change is appended to its actor's log and objects are only ever added |
| Crdt.ApplyChanges | packages/shared/crdt.ts:69-92 | delivering a run of changes keeps the document well formed |
| Crdt.ChangesLogged | packages/shared/crdt.ts:69-92 | when no change of a run throws, every actor's earlier log is a prefix of its new one and every delivered change is in its actor's log |
| Crdt.DuplicateRejected | packages/shared/crdt.ts:71-76 | delivering an accepted change a second time is refused with a sequence error and changes nothing |
| Crdt.Materialize | packages/shared/crdt.ts:233-234 | reading a value gives primitives as themselves, maps with exactly their fields' keys and lists with exactly their visible length |
| CrdtList.FindFrom | packages/shared/crdt.ts:206-209 | the scan stops at the first record with the id, counting the live records before it, or reports that no record has it |
| CrdtList.FindListElement | packages/shared/crdt.ts:199-214 | it finds the first record with the id and the number of live elements before it, and fails with "element not found" exactly when no record has the id |
| CrdtList.SkipGreater | packages/shared/crdt.ts:160-163 | the insert position passes exactly the records whose ids are greater than the new id, stopping at the first smaller one, and throws exactly when an id on the way is malformed |
| CrdtList.InsertStart | packages/shared/crdt.ts:153-159 | an insert starts at the head for `_head` and just after the key's element otherwise, failing exactly when the key is neither |
| CrdtList.ApplyListInsert | packages/shared/crdt.ts:144-166 | a successful insert adds one live record at the placed position and grows the visible list by one, so the list stays consistent; it fails with "element not found" exactly when the key is unknown |
| CrdtList.ApplyListUpdate | packages/shared/crdt.ts:171-192 | only the keyed record changes: a delete tombstones it, and a set replaces its value only when the new id is greater; tombstones are never revived |
| CrdtList.TombstoneMaterialised | packages/shared/crdt.ts:179-183 | tombstoning a record removes exactly its visible element, or nothing if it was already deleted |
| CrdtList.OverwriteMaterialised | packages/shared/crdt.ts:184-191 | overwriting a record's value replaces its visible element in place, and nothing when it is a tombstone |
| CrdtList.DeleteIdempotent | packages/shared/crdt.ts:179-183 | deleting an element a second time, with any op id, leaves the list as the first delete left it |
| CrdtMap.ApplyMapOp | packages/shared/crdt.ts:126-138 | a write wins exactly when the field has no winner or the new id is greater; a winning set stores its value and a winning delete removes the field, both recording the id; a losing write changes nothing; other fields never change |
| CrdtMap.DeleteNotResurrected | packages/shared/crdt.ts:129-132 | after a winning delete, a set with a smaller id arriving late leaves the field deleted |
| CrdtMap.StepHolds | packages/shared/crdt.ts:129-138 | one more write leaves the field holding whichever of the old and new writes has the greater id |
| CrdtMap.WritesConverge | packages/shared/crdt.ts:126-138 | whatever order writes to a field with no winner yet arrive in, the field ends holding the write with the greatest id and the other fields are untouched |
| CrdtMap.WritesFrom | packages/shared/crdt.ts:126-138 | the same for a field an earlier write already holds: in any order, the field ends held by the greatest of the holder and the new writes, other fields untouched |
| CrdtMap.TwoWritesCommute | packages/shared/crdt.ts:126-138 | two writes to the same field with no winner yet, in either order, give the same map |
| CrdtMap.HeldTwoWritesCommute | packages/shared/crdt.ts:126-138 | two concurrent writes to a field an earlier write already holds, as the two title edits of the reference run do, give the same map in either order |
| CrdtCommute.InsertsCommute | packages/shared/crdt.ts:144-166 | two concurrent inserts after the same element, delivered in either order, give identical metadata and visible list |
| CrdtScenarios.DeliveredInOrder | packages/shared/crdt.ts:244-262 | the replica that receives the second actor's change last reaches the converged document |
| CrdtScenarios.DeliveredSwapped | packages/shared/crdt.ts:244-262 | the replica that receives the changes in the other order reaches the same document |
| CrdtScenarios.ReferenceScenario | packages/shared/crdt.ts:244-268 | both delivery orders converge, and the document reads `{title: 'Hello 2', tags: ['baz', 'bar']}` |
| CrdtScenarios.TodoScenario | packages/shared/crdt.ts:270-293 | creating, deleting, overwriting and appending todos reads `['Task 1','Task 2']`, then `['Task 2','Task 3']`, then `['Task 3b','Task 4']` |
| Geometry.Dir | packages/client/src/drawings.ts:9-10 | a unit step that brings the coordinate one tile nearer the target whenever they differ; -1 when they are equal, a step the line never takes because that axis does not advance |
| Drawings.TrackedDeviation | packages/client/src/drawings.ts:7-25 | at every pass of the loop, `err` equals `dx - dy` minus the cross product of the current point's offset from `a` with `b - a`, which is the scaled distance from the ideal segment; the point is within half a tile of that segment |
| Drawings.BresenhamStep | packages/client/src/drawings.ts:19-25 | one step moves along the major axis always, and along the minor axis only as the error term allows, keeping the point within half a pixel of the line |
| Drawings.DrawLine | packages/client/src/drawings.ts:5-28 | the line has one point per step along the longer axis; it runs from `a` to `b`, each point is a king's move from the last, it stays within half a pixel of the true line, and `a` is left at `b` |
| Drawings.MidpointStep | packages/client/src/drawings.ts:47-55 | each iteration keeps the decision variable equal to the midpoint test and the point within one step of the circle |
| Drawings.OctantsOnRing | packages/client/src/drawings.ts:56-65 | all eight reflections of a point near the circle are near the circle |
| Drawings.DrawCircle | packages/client/src/drawings.ts:32-68 | the four axial points come first, then groups of eight symmetric reflections, all within the radius box and on the ring; a non-positive radius gives only the four axial points |
| TileData.NewTiles | packages/client/src/data.ts:34-38 | a y-by-x grid of empty cells |
| TileData.Fill | packages/client/src/data.ts:41 | every cell holds the fill colour and the shape is unchanged |
| TileData.InitialGrid | packages/client/src/data.ts:5-8 | the client starts with a 30 by 30 grid and the older client with a 40 by 40 one, every tile the background colour |
| TileData.Resize | packages/client/src/data.ts:44-57 | the resized grid has exactly the new counts |
| TileData.ResizeCarriesOver | packages/client/src/data.ts:53-54 | a tile inside both the old and the new grid keeps its colour |
| TileData.ResizeFills | packages/client/src/data.ts:55 | a tile new to the grid is the background colour |
| TileData.ResizeToSameShape | packages/client/src/data.ts:44-57 | resizing to the grid's own size changes nothing |
| TileData.ResizeIdempotent | packages/client/src/data.ts:44-57 | resizing twice to the same size is resizing once |
| TileData.GrowThenShrink | packages/client/src/data.ts:44-57 | growing then shrinking back restores the drawing |
| TileData.ShrinkComposes | packages/client/src/data.ts:44-57 | two successive shrinks equal one shrink to the final size |
| TileData.PaletteAdd | packages/client/src/data.ts:23-30 | the new brush colour is in the palette afterwards, the old palette is a prefix, and at most one colour is added |
| TileData.PaletteAddCases | packages/client/src/data.ts:26-28 | a known colour leaves the palette unchanged and a new one is appended at the end |
| TileData.PaletteAddKeepsNoDup | packages/client/src/data.ts:23-30 | a palette without repeats stays without repeats |
| TileData.PaletteAddIdempotent | packages/client/src/data.ts:23-30 | choosing the same brush twice adds it once |
| TileData.PaletteAfterNoDup | packages/client/src/data.ts:9-30 | after any run of brush choices from a repeat-free palette, the palette has no repeats and holds every brush chosen |
| TileData.DefaultPaletteNoDup | packages/client/src/data.ts:9-13 | the default palette has nine distinct colours |
| TileData.LastIndex | packages/client/src/data.ts:71 | a colour's code index is its last position in the palette, because later entries overwrite earlier ones, and it exists exactly when the colour is in the palette |
| TileData.Code | packages/client/src/data.ts:68-75 | a tile is written as the encoding letter of its palette index when it has one, and as `.` otherwise |
| TileData.CodeRoundTrip | packages/client/src/data.ts:68-75 | reading a code back gives the colour when it was encodable and nothing otherwise |
| TileData.SplitJoin | packages/client/src/data.ts:75 | splitting the comma-joined rows gives back the rows |
| TileData.EncodeDecode | packages/client/src/data.ts:67-79 | the exported text of a non-empty grid decodes to the grid with unencodable tiles blanked |
| TileData.EncodeDecodeExact | packages/client/src/data.ts:67-79 | when every tile is encodable, the export decodes to exactly the grid |
| TileData.EmptyGridsCollide | packages/client/src/data.ts:75 | a grid with no rows and a grid with one empty row export to the same text |
| Raf.ValidateTileXY | packages/client/src/rAF.ts:20-27 | a tile is valid exactly when both coordinates are inside the counts, and a valid tile is inside the grid |
| Raf.ApplyTileDataValue | packages/client/src/rAF.ts:29-35 | a valid tile takes the colour and no other tile changes; an invalid one changes nothing |
| Raf.WritesCommute | packages/client/src/rAF.ts:29-35 | writes to different tiles commute, and a second write to a tile overrides the first |
| Raf.QueueTileDraw | packages/client/src/rAF.ts:38-59 | an invalid tile is ignored; otherwise the draw is queued with its colour, or the tile's stored colour when none is given, and one frame is requested only if none is pending |
| Raf.RunFrame | packages/client/src/rAF.ts:47-56 | a frame hands every queued draw to every board, boards first, then empties the queue and clears the flag; with no frame pending nothing happens |
| Raf.RegisterBoard | packages/client/src/rAF.ts:61-63 | a board joins the end of the list and the queue is untouched |
| Raf.FlushReachesEveryBoard | packages/client/src/rAF.ts:49-53 | each registered board receives exactly the queued draws in order; others receive none |
| Raf.QueueAllAppends | packages/client/src/rAF.ts:38-59 | a burst of draws extends the queue by its valid tiles in order while at most one frame is pending |
| Raf.QueueThenFlush | packages/client/src/rAF.ts:38-59 | after a burst and one frame, every board has drawn exactly the burst and the scheduler is idle again |
| Tools.CursorDraw | packages/client/src/drawing/tools.ts:15-18 | the tile joins the cursor tiles and is drawn in the cursor colour; nothing else in the state changes |
| Tools.CursorClear | packages/client/src/drawing/tools.ts:20-26 | every cursor tile is redrawn from the tile data and the cursor list empties |
| Tools.CursorDrawAll | packages/client/src/drawing/tools.ts:138-140 | drawing a run of tiles as cursor appends them all and marks each in order |
| Tools.Paint | packages/client/src/drawing/tools.ts:85-88 | each generated tile is written with the colour and then queued for drawing, in order |
| Tools.ToolMoveDuplicate | packages/client/src/drawing/tools.ts:28-34 | a move is a duplicate exactly when it is at the last seen tile |
| Tools.IntSqrt | packages/client/src/drawing/tools.ts:152 | the integer square root is the floor of the square root |
| Tools.IntSqrtUnique | packages/client/src/drawing/tools.ts:152 | the floor square root is the only such number |
| Tools.CalcRadius | packages/client/src/drawing/tools.ts:148-154 | the radius is the floor of the distance between the two tiles |
| Tools.ReleaseClears | packages/client/src/drawing/tools.ts:42-46 | releasing the pointer with any tool clears the cursor tiles first and leaves no tool down |
| Tools.DuplicateMoveIgnored | packages/client/src/drawing/tools.ts:49-51 | a move to the last seen tile does nothing, with any tool |
| Tools.HoverShowsCursor | packages/client/src/drawing/tools.ts:48-55 | a hover move clears the old cursor and shows the cursor at the new tile only |
| Tools.LineDragAdvances | packages/client/src/drawing/tools.ts:72-97 | a freehand drag paints the segment from the down point, sends it to the server, and makes the new tile the down point |
| Tools.LineMoveSends | packages/client/src/drawing/tools.ts:72-97 | a freehand drag sends exactly one segment, from the down point to the move, unless the move is a duplicate |
| Tools.StrokeIsChained | packages/client/src/drawing/tools.ts:72-97 | the segments one freehand stroke sends join end to end, starting at the press point and ending at the current down point |
| Tools.StraightDragPreviews | packages/client/src/drawing/tools.ts:127-143 | dragging a straight line only previews it as cursor tiles, ending with the start tile in the brush colour, and writes nothing |
| Tools.StraightReleaseSends | packages/client/src/drawing/tools.ts:108-126 | releasing a straight line paints and sends the whole segment and lifts the tool |
| Tools.CircleDownSilent | packages/client/src/drawing/tools.ts:157-160 | pressing with the circle tool records the centre and draws nothing |
| Tools.CircleReleaseSends | packages/client/src/drawing/tools.ts:161-180 | releasing a circle sends it with the floor-distance radius and lifts the tool |
| Tools.Perform | packages/client/src/rAF.ts:29-59 | replaying a tool's effects keeps the grid's shape and the scheduler's invariant, and never changes the boards |
| Tools.DrawsKeepData | packages/client/src/rAF.ts:37-38 | draw-only effects leave the tile data and the outgoing messages untouched |
| Tools.ClickOnlyPaintsCanvas | packages/client/src/drawing/tools.ts:62-71 | a freehand click without moving, made after a hover or not, draws its tile on the canvas, redraws the hover's cursor tiles in between and draws the tile again, but writes no tile data and sends nothing |
| Keypress.OnKeyDown | packages/client/src/keypress.ts:5-18 | while latched nothing changes; otherwise Shift selects straight lines, else Ctrl selects circles, and either latches |
| Keypress.OnKeyUp | packages/client/src/keypress.ts:20-25 | releasing with neither modifier held returns to freehand lines and unlatches; otherwise nothing changes |
| Keypress.AlwaysLatched | packages/client/src/keypress.ts:3-25 | across any key sequence, the latch is closed exactly while straight lines or circles are selected |
| Keypress.RadioCanBreakLatch | packages/client/src/visual/tools.tsx:22 | the radio buttons assign the mode without touching the latch: picking freehand lines while Shift is latched leaves the latch closed in line mode, where a key-down changes nothing |
| Keypress.LatchHoldsMode | packages/client/src/keypress.ts:6 | while latched, further presses and releases with a modifier still held cannot change the mode |

## Left out

- Numbers are mathematical integers. JavaScript doubles, coordinates above 2^53 and non-integer coordinates are not modelled.
- Strings are sequences of code points. JavaScript's UTF-16 units matter only for the actor comparison and the `.` of the id pattern.
- Object-literal lookups such as `palMap[text]` and the CRDT stores are modelled as maps. A key such as `__proto__` or `toString`, which hits the prototype in JavaScript, is not modelled.
- Object values in the CRDT are references by object id rather than shared JavaScript objects; the model reads a child through its id. The two agree while op ids are unique. When an op id repeats, they differ. This happens when an actor starts a later change at a `startOp` it has already used. The source then rebinds the id to a fresh array (`crdt.ts:103-104`, `107-108`), but a parent field set earlier (`crdt.ts:134`) keeps the old array. The model's `Allocate` replaces the entry, so that field reads the new, empty object. Example: actor `x` sends seq 1 from `startOp` 1 with `makeList` of root field `a` and an insert of `"v"` at the head of `1@x`, then seq 2 from `startOp` 1 with `makeList` of root field `b`. The source reads `{a: ["v"], b: []}`; the model reads `{a: [], b: []}`.
- `Change.startOp` is a natural number. The source also accepts a negative `startOp` and then formats ids such as `-1@x`. These are stored unchecked as a field's first winner or as a list element, and a later comparison against them throws. Such changes are not modelled.
- `action` is a closed set of four. The "Unsupported operation type" throw of `crdt.ts:113-114` cannot arise.
- Buffering of changes whose dependencies are missing is not part of the source, which simply throws.
- Crdt.Materialize: reads to a given depth rather than following references without bound.
- CrdtCommute.InsertsCommute: proves commutation of two concurrent inserts, not convergence of arbitrary concurrent histories.
- `new Array` with a negative or fractional tile count throws in the source. The model takes counts as natural numbers.
- `rAF.ts` reads `data.tileCountX()`, `data.tileCountY()` and `data.tileData[y][x]` (`rAF.ts:23`, `34`, `43`). The `data.ts` of this snapshot does not define these on `data`: it nests the count and tile signals under `data.tiles` (`data.ts:59-83`), so as the files stand these reads throw. The model uses the flat reading that every caller uses and reads the grid value directly.
- Raf.ApplyTileDataValue: requires the tile data to match the counts (`GridWf`), which the size-change handler maintains. A mismatch, where the source would write past a row, is not modelled.
- `JSON.stringify`, the LZ-String compression and the file text around the tile data in `lzData` are not modelled. `TileData.Encode` is the `data` field.
- The palette signal being re-set with the same, mutated array is not modelled. Only the resulting colour list is.
- The cursor colour from the style macro and the brush colour signal are inputs of each tool event.
- `genLineXY` and `genCircleXY` (`shapeGenerators.js`) are not part of this model. They are inputs of each tool event.
- Tools.CalcRadius: uses the exact integer square root. `Math.floor(Math.sqrt(...))` on doubles agrees only while the squared distance is exactly representable.
- Timers, `requestAnimationFrame`, the websocket, the DOM, canvas drawing and console logging are outside the model. A frame is an explicit `RunFrame` step and a message is an effect.
- `newTiles` builds fresh row arrays to avoid aliasing. Value semantics make that automatic here.
- Key events and the tool radio buttons (`visual/tools.tsx:22`) both set the draw mode. Nothing sets it at start, so it starts unset. The radio buttons are UI; the model keeps only their assignment, as `Keypress.OnRadio`.
- Keypress.AlwaysLatched: covers key events only. A radio choice made while a modifier is latched leaves `down` set with any mode, as `Keypress.RadioCanBreakLatch` shows. Every key-down is then ignored until a key-up with no modifier held.
- `toolUp` is part of the tool state but no tool uses it.
