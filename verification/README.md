# AutoTrixel grid logic in Dafny

AutoTrixel is a pixel-art editor whose canvas is a grid of triangles. Cell `(r, c)` points
up when `r % 2 === Math.abs(c) % 2`, using JavaScript's truncating remainder, and down
otherwise. The drawing is a sparse map from cells to CSS colour strings; a missing key is an
empty cell. This project models the integer and string logic at the heart of the editor and
proves what it promises:

- `utils.dfy` (`Utils`): `clamp` and `inGamut`.
- `geometry.dfy` (`Geometry`):
  - the orientation rule, with JavaScript's `%` written out;
  - triangle vertices in units of `(W_half, triHeight)`;
  - the three fill neighbours of a cell, and the proof that neighbouring cells share a whole
    edge.
- `brush.dfy` (`Brush`): the brush cluster (`getTriangleCluster`) and the anchor search that
  centres a brush under the cursor (`findBestCenter`). Both are loops proved against
  specification functions.
- `actions.dfy` (`Actions`):
  - batch pencil and eraser painting, with change detection;
  - the breadth-first bucket fill, with its neighbour queue and its cap of 500,000 dequeues;
  - the order-preserving de-duplication of the cells a stroke sweeps.
- `session.dfy` (`Session`): the editor's closure state as a class `Session`. It covers:
  - the undo history of at most ten snapshots;
  - gesture snapshots: a snapshot on pointer-down, pushed on pointer-up only if the grid
    changed;
  - reset and tool selection;
  - brush size and zoom, both clamped;
  - the click dispatch and the mouse, touch, keyboard and wheel handlers.

  Each handler is a method whose new state is a function of the old one. The history,
  gesture, brush and click properties are lemmas about those functions.
- `jstext.dfy` (`JsText`): the JavaScript built-ins the palette codec depends on. These are
  `trim`, `split(/\r?\n/)`, `split(/\s+/)`, `parseInt` (with its leading-digits rule),
  `Number.prototype.toString(radix)` and `padStart`.
- `palette.dfy` (`Palette`): the GIMP palette (`.gpl`) parser and writer, and the round
  trip. For a single-line name and colours of the form `#rgb` or `#rrggbb`, parsing the
  generated text gives back the colours as lowercase six-digit hex.
- `wrappers.dfy` (`Wrappers`): the `Option` type.

Modelling choices:

- A cell is a pair of unbounded integers, and a grid is a `map<Cell, string>`.
- In `actions.js`, JavaScript mutates the grid object in place. Here the action methods take
  a grid value and return the new one, and `Session` reassigns its `grid` field.
- An undo snapshot is a grid value, not its `JSON.stringify` text. So "the grid changed" is
  map inequality.
- Anchor distances are exact `real`s.
- Facts that hold only for rows `>= 0` say so in their preconditions. Cells on the canvas
  always have such rows, but `findBestCenter` also probes negative rows.

## Model

| member | source | states |
|---|---|---|
| Utils.Clamp | src/logic/autotrixel/utils.js:1 | If `lo <= hi`, the result lies in `[lo, hi]`. A value already in range is returned unchanged. A value below `lo` gives `lo` and a value above `hi` gives `hi`. When `lo > hi` the result is `hi`. |
| Utils.ClampIdempotent | src/logic/autotrixel/utils.js:1 | Clamping twice to the same bounds gives the same result as clamping once. |
| Geometry.JsRem2 | src/logic/autotrixel/geometry.js:84 | JavaScript's `a % 2`. The result has the parity of `a`, has the sign of `a`, and has absolute value below 2. |
| Geometry.OrientationRule | src/logic/autotrixel/geometry.js:137 | A cell is up iff `r + c` is even and the row is not a negative odd row. So every negative odd row is down, and negative even rows follow the column parity. |
| Geometry.OrientationAlternates | src/logic/autotrixel/geometry.js:84 | On rows `>= 0`, orientation flips from a cell to its right neighbour and from a cell to the one below. |
| Geometry.Corners | src/logic/autotrixel/geometry.js:134-152 | An up cell has its base on `y = r + 1` and its apex at `(c + 1, r)`. A down cell has its base on `y = r` and its apex at `(c + 1, r + 1)`. The base always spans `x = c` to `x = c + 2`. |
| Geometry.DownIsMirrorOfUp | src/logic/autotrixel/geometry.js:139-151 | The down triangle at an address is the up triangle reflected in the horizontal midline of its row, vertex by vertex. |
| Geometry.RowNeighboursShareEdge | src/logic/autotrixel/geometry.js:134-152 | On rows `>= 0`, cells `(r, c)` and `(r, c + 1)` have opposite orientation and share exactly two vertices. |
| Geometry.ColumnNeighboursShareEdge | src/logic/autotrixel/geometry.js:134-152 | An up cell on a row `>= 0` and the cell below it (a down cell) share exactly two vertices. |
| Geometry.NeighboursShareEdge | src/logic/autotrixel/actions.js:48-55 | On rows `>= 0`, the bucket fill steps only to cells that share a whole edge (two vertices) with the current cell. |
| Brush.GetTriangleCluster | src/logic/autotrixel/geometry.js:81-96 | The nested loops return exactly the cluster specification: `[(r, c)]` for size `<= 1`, otherwise the in-bounds cells of each layer in turn. |
| Brush.ClusterMembers | src/logic/autotrixel/geometry.js:84-93 | For size `> 1`, a cell is in the cluster iff it is in bounds and lies in layer `i < size`. Layer `i` is on row `r + i` (up anchor) or `r - i` (down anchor), at columns `c - i` to `c + i`. |
| Brush.ClusterBounds | src/logic/autotrixel/geometry.js:82-90 | Size `<= 1` gives exactly `[(r, c)]`, with no bounds check. For larger sizes every cell returned is inside the grid. |
| Brush.ClusterOrderedAndDistinct | src/logic/autotrixel/geometry.js:85-93 | Cells come out layer by layer, with columns ascending inside a layer, so no cell appears twice. |
| Brush.ClusterCount | src/logic/autotrixel/geometry.js:85-93 | The cluster has at most `size²` cells, and exactly `size²` iff the whole triangle is inside the grid. |
| Brush.FirstMinSpec | src/logic/autotrixel/geometry.js:102-128 | The running minimum with a strict `<` picks nothing iff nothing was scored. Otherwise it picks a scored entry that no entry undercuts and that every earlier scored entry strictly exceeds. |
| Brush.BestCenterChoice | src/logic/autotrixel/geometry.js:98-113 | Size `<= 1` returns the target. Otherwise the anchor lies within `|dr| <= ceil(size/2) + 1` and `|dc| <= 1` of the target. It is an unscored cell (then exactly the target) iff no candidate is scored, that is, every candidate is outside the widened window or has an empty cluster. |
| Brush.BestCenterClosest | src/logic/autotrixel/geometry.js:115-128 | The chosen anchor's cluster mean is no farther from the target than any scored candidate's, and strictly nearer than every candidate scanned before it, so ties keep the first in scan order. |
| Brush.CentroidDistance | src/logic/autotrixel/geometry.js:115-124 | The summing loop computes the squared distance from the cluster's mean cell to the target. |
| Brush.ScoreCandidate | src/logic/autotrixel/geometry.js:107-124 | A candidate is scored iff it lies in the widened window and its cluster is non-empty. When scored, its distance is its cluster's centroid distance. |
| Brush.FindBestCenter | src/logic/autotrixel/geometry.js:98-132 | The scan over `dr`, then `dc`, returns the anchor of the specification whose choice and minimality the two lemmas above prove. |
| Actions.BatchPaintCells | src/logic/autotrixel/actions.js:3-20 | The loop returns the grid after painting the cells in order, and reports true exactly when some step changed a cell. |
| Actions.PaintEffect | src/logic/autotrixel/actions.js:7-16 | The pencil leaves every listed cell holding the colour. The eraser leaves no listed cell holding a truthy value, and keeps empty-string values. Any other tool changes nothing. Unlisted cells never change. |
| Actions.PaintChangesIffDiffers | src/logic/autotrixel/actions.js:3-19 | The returned flag is true iff the grid after painting differs from the grid before. |
| Actions.RepaintIsNoOp | src/logic/autotrixel/actions.js:3-19 | Repeating the same call straight away leaves the grid as it is and reports no change. |
| Actions.AddNeighbor | src/logic/autotrixel/actions.js:60-64 | The cell is appended to the queue iff it is inside the grid. |
| Actions.EnqueueNeighbours | src/logic/autotrixel/actions.js:48-55 | One fill step appends exactly the in-bounds cells among the left neighbour, the right neighbour and the neighbour across the horizontal edge, in that order (at most three). |
| Actions.FillBucket | src/logic/autotrixel/actions.js:22-58 | If the start already holds the fill colour, nothing changes and the result is false; otherwise the result is true and the start is filled. Only cells whose old value equals the start's change, each to the fill colour. Each rewritten cell is distinct, there are at most 500,000 of them, and all are reachable from the start through same-valued neighbours. Unless the cap stopped the loop, every such reachable cell is filled; the cap stops it only after at least a third of 500,000 cells have been rewritten, since each rewritten cell enqueues at most three neighbours. |
| Actions.FillComplete | src/logic/autotrixel/actions.js:33-56 | When the queue empties, every cell connected to the start through cells of the target value has been filled. |
| Actions.FillSound | src/logic/autotrixel/actions.js:33-56 | Every cell the fill rewrote is connected to the start through cells of the target value. |
| Actions.DedupSpec | src/logic/autotrixel/actions.js:90-96 | The seen-set de-duplication keeps exactly the cells of its input, never repeats one, and keeps the order of first occurrences. |
| Actions.InterpolateStroke | src/logic/autotrixel/actions.js:73-99 | The loop returns the de-duplicated concatenation of the clusters of the samples that resolved to a cell. Picker and bucket use size 1; other tools use the brush size and the anchor search. |
| Actions.StrokeSpec | src/logic/autotrixel/actions.js:73-99 | The stroke list repeats no cell, follows first-occurrence order, and holds exactly the cells of the clusters of the resolved samples. |
| Actions.FlattenMembers | src/logic/autotrixel/actions.js:90-96 | A cell is among the swept cells iff it is in some sample's cluster. |
| Session.InitialConsistent | src/logic/createAutoTrixel.js:58-81 | The editor starts consistent, with an empty grid and history, no gesture snapshot, not drawing, the pencil, brush and stored size 1 (inside 1..5) and a triangle side of 25 (inside 5..200). |
| Session.Pushed | src/logic/createAutoTrixel.js:157-163 | After a push, a history shorter than ten grows by one and a full one stays at ten. The result is always a suffix of the old history followed by the new snapshot. |
| Session.PushedPop | src/logic/createAutoTrixel.js:157-163 | The pushed snapshot is last. What precedes it is the old history, without its oldest entry if the history was full, in the same order. |
| Session.UndoAfterPush | src/logic/createAutoTrixel.js:157-175 | Undo right after pushing a snapshot restores that snapshot as the grid. The history returns to what it was, minus the oldest entry if it had been full. |
| Session.ResetIsUndoable | src/logic/createAutoTrixel.js:830-835 | Undo after reset brings the grid back. If the history was not full, the whole state comes back. |
| Session.UndoShrinks | src/logic/createAutoTrixel.js:165-175 | Undo on an empty history changes nothing. Otherwise it removes one snapshot and takes the grid from the history. |
| Session.GestureRecordsOneStep | src/logic/createAutoTrixel.js:583-597 | Suppose a gesture starts on a grid and mid-gesture painting changes only the grid. Pointer-up then pushes the pre-gesture snapshot iff the grid changed, and otherwise leaves the history alone. In both cases drawing ends. An undo after a changed gesture restores the pre-gesture grid. |
| Session.HistoryStaysBounded | src/logic/createAutoTrixel.js:77 | Push, undo, reset, pointer-down, pointer-up and mouse-leave all keep the history within ten snapshots, keep a gesture's snapshot and the drawing tools' brush size in step, and leave the tool, both brush sizes and the zoom unchanged. |
| Session.SetToolRestoresBrush | src/logic/createAutoTrixel.js:810-828 | Selecting the pencil or the eraser restores the brush size from the stored size. Selecting the picker or the bucket changes only the tool. |
| Session.BrushSizeStep | src/logic/createAutoTrixel.js:538-555 | With the guard corrected, the stored size becomes the active size plus `change`, clamped to `[1, 5]`. While picking the brush size stays put; otherwise it equals the new stored size. Nothing else changes. |
| Session.BrushGuardDiffers | src/logic/createAutoTrixel.js:541 | The guard as written gives a different state from the corrected one iff the user is picking, the stored size differs from the brush size, and the adjusted stored size equals the brush size. |
| Session.BrushGuardLosesStep | src/logic/createAutoTrixel.js:538-555 | A concrete state in which the guard as written drops a step that should be stored. |
| Session.ZoomStep | src/logic/createAutoTrixel.js:557-566 | Zoom keeps the triangle side within `[5, 200]`, moves it by exactly `change` when that stays in range, and changes nothing else. An in-range zoom is undone by the opposite zoom. |
| Session.ResizeKeepsDrawing | src/logic/createAutoTrixel.js:762-776 | Resizing the grid sets exactly one bound and keeps everything else, including cells now outside the bounds; the editor stays consistent. |
| Session.ScaleSetsSide | src/logic/createAutoTrixel.js:746-751 | The scale input sets the side to the parsed value, which may lie outside 5..200, and changes nothing else. |
| Session.PickerNeverPaints | src/logic/createAutoTrixel.js:464-483 | The picker changes at most the colour, the tool and the brush size. A colour it takes is the truthy `#…` or matching `oklch…` value of the hovered cell, and taking one selects the pencil. |
| Session.ClickKeepsHistory | src/logic/createAutoTrixel.js:456-492 | A single click never touches the history, the snapshot or the drawing flag, and reports a change exactly when the grid changed. |
| Session.MoveKeepsGesture | src/logic/createAutoTrixel.js:599-628 | A move paints only while drawing with the pencil or eraser, touches only swept cells, and otherwise changes only the hover cells. |
| Session.Session.constructor | src/logic/createAutoTrixel.js:58-81 | A new session is in the initial state. |
| Session.Session.SaveStateForUndo | src/logic/createAutoTrixel.js:153-155 | The snapshot is the current grid. |
| Session.Session.PushToHistory | src/logic/createAutoTrixel.js:157-163 | The new state is `PushState` of the old one, and the history stays bounded. |
| Session.Session.Undo | src/logic/createAutoTrixel.js:165-175 | The new state is `UndoState` of the old one, and the method reports true iff there was something to undo. |
| Session.Session.ResetCanvas | src/logic/createAutoTrixel.js:830-835 | The current grid is pushed to the history, then the grid is emptied. |
| Session.Session.SetTool | src/logic/createAutoTrixel.js:810-828 | The new state is `SetToolState` of the old one. |
| Session.Session.UpdateBrushSize | src/logic/createAutoTrixel.js:538-555 | The new state is the corrected `BrushSizeState` of the old one (see Findings): the stored size becomes the clamped step of the active size, and the drawing tools' brush size follows it. |
| Session.Session.Zoom | src/logic/createAutoTrixel.js:557-566 | The new state is `ZoomState` of the old one. |
| Session.Session.BrushInput | src/logic/createAutoTrixel.js:755-760 | The slider value becomes both the brush size and the stored size. |
| Session.Session.UpdateWidth | src/logic/createAutoTrixel.js:762-767 | The parsed value becomes the grid width; nothing else changes. |
| Session.Session.UpdateHeight | src/logic/createAutoTrixel.js:771-776 | The parsed value becomes the grid height; nothing else changes. |
| Session.Session.UpdateScale | src/logic/createAutoTrixel.js:746-751 | The parsed value becomes the triangle side, unclamped; nothing else changes. |
| Session.Session.KeyDown | src/logic/createAutoTrixel.js:713-732 | With Ctrl held: `z`/`Z` undoes, `=`/`+` and `-` step the brush size, and `[`/`]` zoom by 5. Without Ctrl, nothing changes. The size steps follow the corrected brush guard (see Findings). |
| Session.Session.Wheel | src/logic/createAutoTrixel.js:734-744 | Ctrl with the wheel scrolled up enlarges the brush by one; any other Ctrl-scroll shrinks it by one, through the corrected brush guard (see Findings). Without Ctrl, nothing changes. |
| Session.Session.UpdateColorUI | src/logic/createAutoTrixel.js:135-151 | The colour is set, and the eraser or picker switches to the pencil. |
| Session.Session.HandleSingleClick | src/logic/createAutoTrixel.js:456-492 | Dispatches as `Clicked` specifies. With no hovered cell nothing happens. The bucket fills from the first hovered cell, the picker picks, and the other tools paint every hovered cell. |
| Session.Session.MouseDown | src/logic/createAutoTrixel.js:578-587 | Takes the snapshot, starts drawing, then applies a single click. |
| Session.Session.MouseUp | src/logic/createAutoTrixel.js:589-597 | Ends the gesture, pushing the snapshot iff the grid changed (also `touchend`, lines 703-711). |
| Session.Session.Hover | src/logic/createAutoTrixel.js:606-615 | The hover cells become the brush cluster at the anchor found for the cell, or none off the grid. |
| Session.Session.MouseMove | src/logic/createAutoTrixel.js:599-628 | The new state is `MoveState` of the old one (also `touchmove`, lines 667-701). |
| Session.Session.TouchStart | src/logic/createAutoTrixel.js:636-665 | Takes the snapshot, starts drawing, updates the hover cells, then applies a single click. |
| Session.Session.MouseLeave | src/logic/createAutoTrixel.js:630-634 | Clears the hover cells and stops drawing without pushing a snapshot. |
| JsText.Trim | src/logic/palette-utils.js:12 | The trimmed line neither starts nor ends with white space, uses only characters of the line, and is the line itself when the line has no white space. |
| JsText.TrimAround | src/logic/palette-utils.js:12 | Trimming removes exactly the padding around a core that starts and ends with non-space characters. |
| JsText.LinesCons | src/logic/palette-utils.js:7 | Splitting at a line feed yields the first line, without a trailing `\r`, followed by the lines of the rest. |
| JsText.WordsCons | src/logic/palette-utils.js:25 | Splitting on white space yields a leading word, followed by the words of the rest. |
| JsText.ParseIntString | src/logic/palette-utils.js:27-36 | `parseInt` reads back exactly what `toString` writes, in radix 10 and 16. |
| JsText.NatDigitsValue | src/logic/palette-utils.js:36 | `toString(radix)` of a natural number denotes that number, has no leading zero, and is one digit long exactly when the number is below the radix. |
| Palette.ParseGPL | src/logic/palette-utils.js:6-46 | The line loop returns the colours the lines yield, in line order. |
| Palette.LineColorShape | src/logic/palette-utils.js:4-44 | A line yields a colour only if its first three words are numbers. When all three lie in 0..255, the colour has the promised "#RRGGBB" form: `#` and six lowercase hex digits whose pairs denote the three numbers. |
| Palette.CollectedAppend | src/logic/palette-utils.js:11-43 | The colours of a concatenation of lines are the colours of each part, in order. |
| Palette.HexByte | src/logic/palette-utils.js:35-38 | A channel in `0..255` becomes exactly two lowercase hex digits that read back as the channel. |
| Palette.GenerateGPL | src/logic/palette-utils.js:54-84 | The loop writes the four header lines, then one line per colour in order, each ended by a line feed. |
| Palette.GplLines | src/logic/palette-utils.js:54-84 | Splitting the generated text gives back the header lines and the colour lines, then one empty line. |
| Palette.ColorLineRoundTrip | src/logic/palette-utils.js:60-81 | The line written for a `#rgb` or `#rrggbb` colour parses back to that colour in lowercase six-digit form. |
| Palette.HeaderYieldsNothing | src/logic/palette-utils.js:13-21 | The four header lines the writer emits yield no colour. |
| Palette.RoundTrip | src/logic/palette-utils.js:6-84 | For a single-line name and valid colours, parsing the generated text gives back the colours, normalised to lowercase six-digit hex, in order. |

## Left out

- Pixel geometry in floating point: both copies of `pixelToGrid`, `getBarycentric`,
  `findBestCenterPixel`, and the sampling step of `interpolateStroke` (`sqrt`, `ceil`, float
  division). A stroke is given as the sequence of optional cells its sample points resolve to.
  A pointer position is given as the optional cell it resolves to.
- OKLCH and sRGB conversion (`hexToOklchVals`, `oklchToRgb`, `syncColorFromHex`'s colour
  state, the slider handler). The picker's `oklch(...)` regular expression is a boolean
  parameter of the click handlers.
- Rendering, export, the DOM and toasts: `drawCursor`, `fullRedraw`, `updateDimensions`,
  `updateUndoButton`, `showToast`, the palette swatches (`setupPalette`), the grid toggle and
  the grid colour. These are user-interface effects with no grid logic, apart from the swatch
  click. That click sets the colour as `Session.Session.UpdateColorUI` does.
- The width, height and scale inputs (`updateWidth`, `updateHeight`, `updateScale`) are
  modelled as taking an integer. `parseInt` of an empty or non-numeric input gives NaN, which
  the model cannot represent; nor are the slider and number elements they write back.
- Serialisation with `JSON.stringify`: snapshots are grid values, and "the grid changed" is
  map inequality. Serialised text also depends on key insertion order. So in the original,
  erasing and re-painting a cell to the same colour within one gesture can push an undo step
  although the map is unchanged. The model pushes nothing in that case.
- Number precision: channels and coordinates are exact integers, and anchor distances are
  exact reals. Float rounding, and `parseInt` above 2^53, are not modelled. Nor is `-0`: a
  `"-0"` channel reads as 0.
- Strings are sequences of Unicode scalar values (Dafny `char`s), not of UTF-16 code units.
  The parser's white-space set is ECMAScript's. A character outside the Basic Multilingual
  Plane counts as two units in JavaScript and one `char` here, so `hex.length` and `hex[i]` in
  `generateGPL` (src/logic/palette-utils.js:65-69) can differ: for `"#😀a"` the original
  sees length 4 and writes `NaN NaN 170`, while the model sees length 3 and writes `  0   0   0`.
- `inGamut` is modelled as the predicate `Utils.InGamut`, which is its own specification (the
  closed unit cube); its only caller, the OKLCH conversion, is left out, so no lemma builds
  on it.
- The copies of `getTriangleCluster`, `findBestCenter`, `batchPaintCells`,
  `interpolateStroke`, `fillBucket` and `addNeighbor` in `src/logic/createAutoTrixel.js`
  (lines 247-298, 401-454, 494-536) are the same code as in `geometry.js` and `actions.js`.
  They are modelled once, with the session reading the grid configuration from its state.
- `parseGPL`'s `headerFound` flag is written but never read, so it is not modelled.
- Actions.FillBucket: the cells it rewrote and whether the 500,000-dequeue cap stopped it are
  ghost results. Completeness is promised only when the cap was not reached; when it was,
  the contract promises only that at least 166,667 cells were rewritten.
- Session.Session.HandleSingleClick: for the bucket, the contract (through `Clicked`) states
  what a fill may change and that it fills the start cell. It does not restate that the whole
  region gets filled; that is proved of `Actions.FillBucket` itself.
- Session.Session.MouseDown and Session.Session.TouchStart: their contracts say the click
  happened from the pressed state, but not what the click reported.
- Session.Session.UpdateBrushSize follows the corrected guard of the Findings table, not line
  542 as written. The two differ exactly when `Session.BrushGuardDiffers` says: the picker or
  bucket is selected, the stored size differs from `config.brushSize`, and the clamped step
  lands on `config.brushSize`. Then the original keeps the stored size and the model updates
  it. The as-written behaviour is `Session.BrushSizeAsWritten`.
- Session.Session.KeyDown: its Ctrl `+`/`=`/`-` steps go through the corrected guard, so they
  differ from the original in the same states as `Session.Session.UpdateBrushSize`.
- Session.Session.Wheel: its Ctrl-scroll steps go through the corrected guard, so they differ
  from the original in the same states as `Session.Session.UpdateBrushSize`.
- Palette.LineColorShape proves the "#RRGGBB" form only for channels in 0..255. The
  original does not check the range, so other numbers give other shapes; "256 0 0", for
  instance, yields "#1000000". The model computes the same strings but proves nothing about
  their shape.
- Palette.RoundTrip is stated for colours of the form `#rgb` and `#rrggbb` only. For any other
  length the writer emits `0 0 0`, and the colour does not come back.

## Findings

| source | as written | input that shows it | evidently intended | confidence | as-written member | corrected member |
|---|---|---|---|---|---|---|
| src/logic/createAutoTrixel.js:538-555 | `updateBrushSize` compares the new size with `config.brushSize` even when the picker or bucket is selected, although the size being adjusted then is `storedBrushSize` | With the pencil at size 3, select the bucket (stored size 3) and press Ctrl+`-`: the stored size becomes 2. Press Ctrl+`+`: the new size 3 equals `config.brushSize`, so the step is dropped and the stored size stays 2 | While picking, compare with `storedBrushSize`, so that every step of the stored size is recorded | not executed | Session.BrushGuardLosesStep | Session.BrushSizeStep |
