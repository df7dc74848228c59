/**
 * The editor session of src/logic/createAutoTrixel.js: the grid, the undo history, the
 * drawing gesture, the current tool, the brush size and the zoom level, as the event
 * handlers change them.
 *
 * Each handler is a method of the class `Session` that updates its fields; each is proved to
 * perform one of the pure transitions on `EditorState` below (or, for a click, to satisfy
 * `Clicked`), and the lemmas about those transitions carry what the editor promises: the
 * history stays bounded, undo takes back a push, a reset or a whole gesture, the brush and
 * the zoom stay within their limits.
 *
 * Snapshots are grids (`map`s), where the source keeps `JSON.stringify(gridData)` strings.
 */
module Session {
  import opened Wrappers
  import opened Geometry
  import opened Utils
  import opened Brush
  import opened Actions

  /** `MAX_HISTORY`: the undo history keeps at most ten snapshots. */
  const MaxHistory := 10

  /** The colour the editor starts with. */
  const DefaultColor := "oklch(60% 0.15 200)"

  /** Brush sizes run from 1 to 5; the triangle side (zoom) from 5 to 200 pixels. */
  const MinBrush := 1
  const MaxBrush := 5
  const MinSide := 5
  const MaxSide := 200

  /** Everything the handlers read or write. `brushSize` is `config.brushSize`, `triSide` is
      `config.triSide`, `hovered` is `hoveredCells`, `color` is `currentCssColor`;
      `tempSnapshot` is None while it is still `null`. */
  datatype EditorState = EditorState(
    grid: Grid,
    history: seq<Grid>,
    tempSnapshot: Option<Grid>,
    isDrawing: bool,
    tool: Tool,
    brushSize: int,
    storedBrushSize: int,
    triSide: int,
    cfg: Config,
    hovered: seq<Cell>,
    color: string)

  /** The state the editor is created in. */
  function Initial(): EditorState
  {
    EditorState(map[], [], None, false, Pencil, 1, 1, 25, Config(40, 30), [], DefaultColor)
  }

  /** What every handler keeps true: the history is bounded, a gesture in progress has its
      snapshot, and while a drawing tool is active the brush size is the stored one. */
  predicate Consistent(st: EditorState)
  {
    |st.history| <= MaxHistory &&
    (st.isDrawing ==> st.tempSnapshot.Some?) &&
    ((st.tool == Pencil || st.tool == Eraser) ==> st.brushSize == st.storedBrushSize)
  }

  /** The editor starts consistent: an empty grid and history, no gesture, the pencil, and
      brush and zoom sizes inside the ranges the size controls clamp to. */
  lemma InitialConsistent()
    ensures Consistent(Initial())
    ensures Initial().history == [] && Initial().grid == map[]
    ensures Initial().tempSnapshot == None && !Initial().isDrawing && Initial().tool == Pencil
    ensures MinBrush <= Initial().brushSize == Initial().storedBrushSize <= MaxBrush
    ensures MinSide <= Initial().triSide <= MaxSide
  {
  }

  // ---------------------------------------------------------------------------------------
  // Undo history
  // ---------------------------------------------------------------------------------------

  /** The history after `pushToHistory(s)`: the snapshot goes last and, once there are more
      than MaxHistory, the oldest one is dropped, so the history is the newest snapshots. */
  function Pushed(h: seq<Grid>, s: Grid): (h': seq<Grid>)
    ensures |h| <= MaxHistory ==> |h'| == if |h| < MaxHistory then |h| + 1 else MaxHistory
    ensures |h'| <= |h| + 1
    ensures h' == (h + [s])[|h| + 1 - |h'|..]
  {
    var pushed := h + [s];
    if |pushed| > MaxHistory then pushed[1..] else pushed
  }

  function PushState(st: EditorState, s: Grid): EditorState
  {
    st.(history := Pushed(st.history, s))
  }

  /** `undoAction`: with an empty history nothing happens; otherwise the newest snapshot is
      popped and becomes the grid. */
  function UndoState(st: EditorState): EditorState
  {
    if |st.history| == 0 then st
    else st.(grid := st.history[|st.history| - 1], history := st.history[..|st.history| - 1])
  }

  /** `resetCanvas`: the current grid is pushed, then the grid is emptied. */
  function ResetState(st: EditorState): EditorState
  {
    PushState(st, st.grid).(grid := map[])
  }

  /** Popping after a push gives back the pushed snapshot and the history before it, less
      its oldest snapshot when the push had to drop one. */
  lemma PushedPop(h: seq<Grid>, s: Grid)
    requires |h| <= MaxHistory
    ensures |Pushed(h, s)| > 0 && Pushed(h, s)[|Pushed(h, s)| - 1] == s
    ensures Pushed(h, s)[..|Pushed(h, s)| - 1] == if |h| < MaxHistory then h else h[1..]
  {
    var kept := if |h| < MaxHistory then h else h[1..];
    assert Pushed(h, s) == kept + [s] by {
      if |h| == MaxHistory {
        assert (h + [s])[1..] == h[1..] + [s];
      }
    }
    assert (kept + [s])[..|kept|] == kept;
  }

  /** Undo takes back a push: the pushed snapshot becomes the grid and the history is what it
      was, less its oldest snapshot when the push had to drop one. */
  lemma UndoAfterPush(st: EditorState, s: Grid)
    requires |st.history| <= MaxHistory
    ensures |st.history| < MaxHistory ==> UndoState(PushState(st, s)) == st.(grid := s)
    ensures |st.history| == MaxHistory ==> UndoState(PushState(st, s)) == st.(grid := s, history := st.history[1..])
  {
    PushedPop(st.history, s);
  }

  /** A reset can be undone: undo brings back the grid as it was before the reset. */
  lemma ResetIsUndoable(st: EditorState)
    requires |st.history| <= MaxHistory
    ensures UndoState(ResetState(st)).grid == st.grid
    ensures |st.history| < MaxHistory ==> UndoState(ResetState(st)) == st
  {
    UndoAfterPush(st, st.grid);
    UndoAfterPush(st.(grid := map[]), st.grid);
  }

  /** Undo with an empty history changes nothing, and undo never lengthens the history. */
  lemma UndoShrinks(st: EditorState)
    ensures st.history == [] ==> UndoState(st) == st
    ensures st.history != [] ==> |UndoState(st).history| == |st.history| - 1
    ensures st.history != [] ==> UndoState(st).grid in st.history
  {
  }

  // ---------------------------------------------------------------------------------------
  // Gestures
  // ---------------------------------------------------------------------------------------

  /** The part of `mousedown`/`touchstart` before the click: snapshot the grid, start drawing. */
  function DownState(st: EditorState): EditorState
  {
    st.(tempSnapshot := Some(st.grid), isDrawing := true)
  }

  /** `mouseup`/`touchend`: a gesture in progress ends, and its snapshot is pushed when the
      grid differs from it. */
  function UpState(st: EditorState): EditorState
    requires st.isDrawing ==> st.tempSnapshot.Some?
  {
    if !st.isDrawing then st
    else if st.grid != st.tempSnapshot.value then PushState(st, st.tempSnapshot.value).(isDrawing := false)
    else st.(isDrawing := false)
  }

  /** `mouseleave`: the hover goes and the gesture stops, without recording anything. */
  function LeaveState(st: EditorState): EditorState
  {
    st.(hovered := [], isDrawing := false)
  }

  /** A whole gesture (press, any handlers that leave the snapshot, the drawing flag and the
      history alone, release) records exactly one undo step, the grid from before the press,
      when and only when it changed the grid; undo then restores that grid. */
  lemma GestureRecordsOneStep(st: EditorState, mid: EditorState)
    requires Consistent(st)
    requires mid.tempSnapshot == Some(st.grid) && mid.isDrawing && mid.history == st.history
    ensures mid.grid != st.grid ==> UpState(mid).history == Pushed(st.history, st.grid)
    ensures mid.grid == st.grid ==> UpState(mid).history == st.history
    ensures !UpState(mid).isDrawing
    ensures mid.grid != st.grid ==> UndoState(UpState(mid)).grid == st.grid
    ensures mid.grid != st.grid && |st.history| < MaxHistory ==> UndoState(UpState(mid)).history == st.history
  {
    if mid.grid != st.grid {
      UndoAfterPush(mid.(isDrawing := false), st.grid);
    }
  }

  // ---------------------------------------------------------------------------------------
  // Tools, brush size, zoom
  // ---------------------------------------------------------------------------------------

  /** The picker and the bucket draw with size 1 and keep the brush size aside. */
  predicate Picking(t: Tool)
  {
    t == Picker || t == Bucket
  }

  /** `setTool(t)`: the pencil and the eraser take back the stored brush size. */
  function SetToolState(st: EditorState, t: Tool): EditorState
  {
    st.(tool := t, brushSize := if t == Pencil || t == Eraser then st.storedBrushSize else st.brushSize)
  }

  /** Selecting a tool changes only the tool and, for a drawing tool, restores the stored
      size; selecting the picker or the bucket leaves both sizes alone. */
  lemma SetToolRestoresBrush(st: EditorState, t: Tool)
    ensures SetToolState(st, t).tool == t
    ensures !Picking(t) ==> SetToolState(st, t).brushSize == st.storedBrushSize
    ensures Picking(t) ==> SetToolState(st, t) == st.(tool := t)
    ensures Consistent(st) ==> Consistent(SetToolState(st, t))
  {
  }

  /** The size the brush keys adjust: the stored size while picking, the brush size otherwise. */
  function ActiveSize(st: EditorState): int
  {
    if Picking(st.tool) then st.storedBrushSize else st.brushSize
  }

  /** `updateBrushSize(change)` as written: the new size is compared with `config.brushSize`
      even while picking, when the size being adjusted is the stored one. */
  function BrushSizeAsWritten(st: EditorState, change: int): EditorState
  {
    var newSize := Clamp(ActiveSize(st) + change, MinBrush, MaxBrush);
    if newSize == st.brushSize then st
    else if Picking(st.tool) then st.(storedBrushSize := newSize)
    else st.(brushSize := newSize, storedBrushSize := newSize)
  }

  /** `updateBrushSize(change)` with the guard comparing against the size being adjusted. */
  function BrushSizeState(st: EditorState, change: int): EditorState
  {
    var newSize := Clamp(ActiveSize(st) + change, MinBrush, MaxBrush);
    if Picking(st.tool) then
      (if newSize == st.storedBrushSize then st else st.(storedBrushSize := newSize))
    else if newSize == st.brushSize then st
    else st.(brushSize := newSize, storedBrushSize := newSize)
  }

  /** The brush keys move the size being adjusted by `change`, clamped to [1, 5]: while
      picking only the stored size moves, otherwise both move together. */
  lemma BrushSizeStep(st: EditorState, change: int)
    requires Consistent(st)
    ensures BrushSizeState(st, change).storedBrushSize == Clamp(ActiveSize(st) + change, MinBrush, MaxBrush)
    ensures MinBrush <= BrushSizeState(st, change).storedBrushSize <= MaxBrush
    ensures Picking(st.tool) ==> BrushSizeState(st, change).brushSize == st.brushSize
    ensures !Picking(st.tool) ==> BrushSizeState(st, change).brushSize == BrushSizeState(st, change).storedBrushSize
    ensures BrushSizeState(st, change) == st.(brushSize := BrushSizeState(st, change).brushSize,
                                              storedBrushSize := BrushSizeState(st, change).storedBrushSize)
    ensures Consistent(BrushSizeState(st, change))
  {
  }

  /** The guard as written loses a step exactly when picking, the stored size differs from
      the brush size, and the adjusted size lands on the brush size. */
  lemma BrushGuardDiffers(st: EditorState, change: int)
    requires Consistent(st)
    ensures BrushSizeAsWritten(st, change) != BrushSizeState(st, change) <==>
            Picking(st.tool) && st.storedBrushSize != st.brushSize &&
            Clamp(st.storedBrushSize + change, MinBrush, MaxBrush) == st.brushSize
  {
  }

  /** A session that shows it: size 3 with the pencil, then the bucket and one step down
      (stored size 2), then one step up. The step up should store 3; as written it is lost. */
  lemma BrushGuardLosesStep()
    ensures var st := EditorState(map[], [], None, false, Bucket, 3, 2, 25, Config(40, 30), [], DefaultColor);
            BrushSizeAsWritten(st, 1).storedBrushSize == 2 &&
            BrushSizeState(st, 1).storedBrushSize == 3
  {
    var st := EditorState(map[], [], None, false, Bucket, 3, 2, 25, Config(40, 30), [], DefaultColor);
    assert Clamp(2 + 1, MinBrush, MaxBrush) == 3;
  }

  /** `zoom(change)`: the triangle side moves by `change`, clamped to [5, 200]. */
  function ZoomState(st: EditorState, change: int): EditorState
  {
    var newSize := Clamp(st.triSide + change, MinSide, MaxSide);
    if newSize != st.triSide then st.(triSide := newSize) else st
  }

  /** Zooming keeps the side within [5, 200], moves it by exactly `change` when that stays
      within the limits, and a zoom that stays within them is undone by the opposite zoom. */
  lemma ZoomStep(st: EditorState, change: int)
    ensures MinSide <= ZoomState(st, change).triSide <= MaxSide
    ensures ZoomState(st, change) == st.(triSide := ZoomState(st, change).triSide)
    ensures MinSide <= st.triSide + change <= MaxSide ==> ZoomState(st, change).triSide == st.triSide + change
    ensures MinSide <= st.triSide <= MaxSide && MinSide <= st.triSide + change <= MaxSide ==>
              ZoomState(ZoomState(st, change), -change) == st
  {
  }

  /** The `input` event of the brush slider: the parsed value becomes both sizes. */
  function BrushInputState(st: EditorState, val: int): EditorState
  {
    st.(brushSize := val, storedBrushSize := val)
  }

  /** `updateWidth(val)`: the parsed value becomes the grid's width in triangles. */
  function WidthState(st: EditorState, val: int): EditorState
  {
    st.(cfg := st.cfg.(widthTriangles := val))
  }

  /** `updateHeight(val)`: the parsed value becomes the grid's height in triangles. */
  function HeightState(st: EditorState, val: int): EditorState
  {
    st.(cfg := st.cfg.(heightTriangles := val))
  }

  /** `updateScale(val)`: the parsed value becomes the triangle side, without the clamp the
      zoom shortcuts apply. */
  function ScaleState(st: EditorState, val: int): EditorState
  {
    st.(triSide := val)
  }

  /** Resizing the grid changes its bounds and nothing else: the drawing, including any cell
      now outside the bounds, the history, the gesture, the tool and the sizes all stay, and
      the editor stays consistent. Later handlers read the new bounds. */
  lemma ResizeKeepsDrawing(st: EditorState, val: int)
    requires Consistent(st)
    ensures Consistent(WidthState(st, val)) && Consistent(HeightState(st, val))
    ensures WidthState(st, val).cfg == Config(val, st.cfg.heightTriangles)
    ensures HeightState(st, val).cfg == Config(st.cfg.widthTriangles, val)
    ensures WidthState(st, val).(cfg := st.cfg) == st && HeightState(st, val).(cfg := st.cfg) == st
    ensures forall x :: x in st.grid ==> x in WidthState(st, val).grid && x in HeightState(st, val).grid
  {
  }

  /** Setting the scale changes only the triangle side, and keeps the editor consistent;
      unlike the zoom it may leave the side outside 5..200. */
  lemma ScaleSetsSide(st: EditorState, val: int)
    requires Consistent(st)
    ensures Consistent(ScaleState(st, val))
    ensures ScaleState(st, val).triSide == val
    ensures ScaleState(st, val).(triSide := st.triSide) == st
  {
  }

  /** The keyboard shortcuts; every one needs the Ctrl key. */
  function KeyState(st: EditorState, ctrl: bool, key: string): EditorState
  {
    if !ctrl then st
    else if key == "z" || key == "Z" then UndoState(st)
    else if key == "=" || key == "+" then BrushSizeState(st, 1)
    else if key == "-" then BrushSizeState(st, -1)
    else if key == "[" then ZoomState(st, -5)
    else if key == "]" then ZoomState(st, 5)
    else st
  }

  /** The wheel with Ctrl: scrolling up enlarges the brush, anything else shrinks it. */
  function WheelState(st: EditorState, ctrl: bool, deltaY: real): EditorState
  {
    if ctrl then BrushSizeState(st, if deltaY < 0.0 then 1 else -1) else st
  }

  /** Every history operation keeps the history within MaxHistory snapshots, and none of
      them touches the tool or the sizes. */
  lemma HistoryStaysBounded(st: EditorState, s: Grid)
    requires Consistent(st)
    ensures Consistent(PushState(st, s)) && Consistent(UndoState(st)) && Consistent(ResetState(st))
    ensures Consistent(DownState(st)) && Consistent(UpState(st)) && Consistent(LeaveState(st))
    ensures SameSettings(st, PushState(st, s)) && SameSettings(st, UndoState(st)) && SameSettings(st, ResetState(st))
    ensures SameSettings(st, DownState(st)) && SameSettings(st, UpState(st)) && SameSettings(st, LeaveState(st))
  {
  }

  /** The tool, both brush sizes and the zoom are the same in both states. */
  predicate SameSettings(st: EditorState, st': EditorState)
  {
    st'.tool == st.tool && st'.brushSize == st.brushSize &&
    st'.storedBrushSize == st.storedBrushSize && st'.triSide == st.triSide
  }

  // ---------------------------------------------------------------------------------------
  // Clicks
  // ---------------------------------------------------------------------------------------

  predicate StartsWith(s: string, prefix: string)
  {
    |prefix| <= |s| && s[..|prefix|] == prefix
  }

  /** The picker on the first hovered cell: a truthy value that is a hex colour, or an
      `oklch(...)` string the colour pattern matches (`oklchMatches`), becomes the current
      colour, and picking a colour switches to the pencil. */
  function PickColor(st: EditorState, oklchMatches: bool): EditorState
    requires st.hovered != []
  {
    var x := st.hovered[0];
    if Holds(st.grid, x) && (StartsWith(st.grid[x], "#") || (StartsWith(st.grid[x], "oklch") && oklchMatches))
    then SetToolState(st.(color := st.grid[x]), Pencil)
    else st
  }

  /** The picker never paints: it changes at most the colour, the tool and the brush size, and
      a colour it takes is the truthy value of the hovered cell. */
  lemma PickerNeverPaints(st: EditorState, oklchMatches: bool)
    requires st.hovered != []
    ensures var st' := PickColor(st, oklchMatches);
            st' == st.(color := st'.color, tool := st'.tool, brushSize := st'.brushSize)
    ensures var st' := PickColor(st, oklchMatches);
            st' != st ==> Holds(st.grid, st.hovered[0]) && st'.color == st.grid[st.hovered[0]] && st'.tool == Pencil
    ensures Consistent(st) ==> Consistent(PickColor(st, oklchMatches))
  {
  }

  /** The grid after a bucket fill from `start`: what `fillBucket` guarantees. */
  ghost predicate BucketFilled(cfg: Config, g: Grid, g': Grid, start: Cell, fill: string)
  {
    (Get(g, start) == Some(fill) ==> g' == g) &&
    (Get(g, start) != Some(fill) ==> Get(g', start) == Some(fill)) &&
    (forall x :: Get(g', x) == Get(g, x) || (Get(g, x) == Get(g, start) && Get(g', x) == Some(fill))) &&
    (forall x :: Get(g', x) != Get(g, x) ==> Reachable(cfg, g, start, x))
  }

  /** `handleSingleClick` took `st` to `st'` and reported `didChange`: nothing without a
      hovered cell; the bucket fills from the first hovered cell; the picker picks; the pencil
      and the eraser paint every hovered cell. */
  ghost predicate Clicked(st: EditorState, st': EditorState, oklchMatches: bool, didChange: bool)
  {
    if st.hovered == [] then st' == st && !didChange
    else if st.tool == Picker then st' == PickColor(st, oklchMatches) && !didChange
    else if st.tool == Bucket then
      st' == st.(grid := st'.grid) &&
      BucketFilled(st.cfg, st.grid, st'.grid, st.hovered[0], st.color) &&
      didChange == (Get(st.grid, st.hovered[0]) != Some(st.color))
    else
      st' == st.(grid := Painted(st.grid, st.hovered, st.tool, st.color)) &&
      didChange == PaintChanges(st.grid, st.hovered, st.tool, st.color)
  }

  /** A click never touches the history, the snapshot or the drawing flag, reports a change
      exactly when the grid changed, and keeps the session consistent. */
  lemma ClickKeepsHistory(st: EditorState, st': EditorState, oklchMatches: bool, didChange: bool)
    requires Consistent(st) && Clicked(st, st', oklchMatches, didChange)
    ensures st'.history == st.history && st'.tempSnapshot == st.tempSnapshot && st'.isDrawing == st.isDrawing
    ensures didChange <==> st'.grid != st.grid
    ensures Consistent(st')
  {
    if st.hovered != [] {
      if st.tool == Picker {
        PickerNeverPaints(st, oklchMatches);
      } else if st.tool == Bucket {
        var start := st.hovered[0];
        if Get(st.grid, start) != Some(st.color) {
          assert Get(st'.grid, start) != Get(st.grid, start);
        }
      } else {
        PaintChangesIffDiffers(st.grid, st.hovered, st.tool, st.color);
      }
    }
  }

  /** The cells under the cursor at a resolved cell: the brush cluster, or none off the grid. */
  function HoverCells(cfg: Config, tool: Tool, brushSize: int, cell: Option<Cell>): seq<Cell>
  {
    if cell.Some? then SampleCells(cfg, tool, brushSize, cell.value) else []
  }

  /** `mousemove`/`touchmove`: the hover cluster follows the cursor and, while drawing with
      the pencil or the eraser, every cell swept since the last position is painted. */
  function MoveState(st: EditorState, cell: Option<Cell>, samples: seq<Option<Cell>>): EditorState
  {
    var hovered := HoverCells(st.cfg, st.tool, st.brushSize, cell);
    if st.isDrawing && !Picking(st.tool) then
      st.(hovered := hovered,
          grid := Painted(st.grid, Dedup(SweptCells(st.cfg, st.tool, st.brushSize, samples)), st.tool, st.color))
    else st.(hovered := hovered)
  }

  /** A move paints only while drawing with a drawing tool, writes only swept cells, and never
      touches the history or the gesture. */
  lemma MoveKeepsGesture(st: EditorState, cell: Option<Cell>, samples: seq<Option<Cell>>)
    ensures var st' := MoveState(st, cell, samples);
            st' == st.(hovered := st'.hovered, grid := st'.grid)
    ensures (!st.isDrawing || Picking(st.tool)) ==> MoveState(st, cell, samples).grid == st.grid
    ensures forall x :: x !in SweptCells(st.cfg, st.tool, st.brushSize, samples) ==>
              Get(MoveState(st, cell, samples).grid, x) == Get(st.grid, x)
    ensures Consistent(st) ==> Consistent(MoveState(st, cell, samples))
  {
    var cells := Dedup(SweptCells(st.cfg, st.tool, st.brushSize, samples));
    DedupSpec(SweptCells(st.cfg, st.tool, st.brushSize, samples));
    PaintEffect(st.grid, cells, st.tool, st.color);
  }

  // ---------------------------------------------------------------------------------------
  // The session object
  // ---------------------------------------------------------------------------------------

  class Session {
    var grid: Grid
    var history: seq<Grid>
    var tempSnapshot: Option<Grid>
    var isDrawing: bool
    var tool: Tool
    var brushSize: int
    var storedBrushSize: int
    var triSide: int
    var cfg: Config
    var hovered: seq<Cell>
    var color: string

    function State(): EditorState
      reads this
    {
      EditorState(grid, history, tempSnapshot, isDrawing, tool, brushSize, storedBrushSize,
                  triSide, cfg, hovered, color)
    }

    ghost predicate Valid()
      reads this
    {
      Consistent(State())
    }

    constructor ()
      ensures Valid() && State() == Initial()
    {
      grid := map[];
      history := [];
      tempSnapshot := None;
      isDrawing := false;
      tool := Pencil;
      brushSize := 1;
      storedBrushSize := 1;
      triSide := 25;
      cfg := Config(40, 30);
      hovered := [];
      color := DefaultColor;
    }

    /** `saveStateForUndo`: a snapshot of the grid. */
    method SaveStateForUndo() returns (s: Grid)
      ensures s == grid
    {
      s := grid;
    }

    method PushToHistory(s: Grid)
      requires Valid()
      modifies this
      ensures Valid() && State() == PushState(old(State()), s)
    {
      history := history + [s];
      if |history| > MaxHistory {
        history := history[1..];
      }
    }

    method Undo() returns (undone: bool)
      requires Valid()
      modifies this
      ensures Valid() && State() == UndoState(old(State()))
      ensures undone <==> old(history) != []
    {
      if |history| == 0 {
        return false;
      }
      grid := history[|history| - 1];
      history := history[..|history| - 1];
      undone := true;
    }

    method ResetCanvas()
      requires Valid()
      modifies this
      ensures Valid() && State() == ResetState(old(State()))
    {
      var s := SaveStateForUndo();
      PushToHistory(s);
      grid := map[];
    }

    method SetTool(t: Tool)
      requires Valid()
      modifies this
      ensures Valid() && State() == SetToolState(old(State()), t)
    {
      tool := t;
      if t == Pencil || t == Eraser {
        brushSize := storedBrushSize;
      }
    }

    method UpdateBrushSize(change: int)
      requires Valid()
      modifies this
      ensures Valid() && State() == BrushSizeState(old(State()), change)
    {
      var picking := tool == Picker || tool == Bucket;
      var newSize := if picking then storedBrushSize else brushSize;
      newSize := Clamp(newSize + change, MinBrush, MaxBrush);
      if picking {
        if newSize != storedBrushSize {
          storedBrushSize := newSize;
        }
      } else if newSize != brushSize {
        brushSize := newSize;
        storedBrushSize := newSize;
      }
      BrushSizeStep(old(State()), change);
    }

    method Zoom(change: int)
      requires Valid()
      modifies this
      ensures Valid() && State() == ZoomState(old(State()), change)
    {
      var newSize := Clamp(triSide + change, MinSide, MaxSide);
      if newSize != triSide {
        triSide := newSize;
      }
    }

    method BrushInput(val: int)
      requires Valid()
      modifies this
      ensures Valid() && State() == BrushInputState(old(State()), val)
    {
      brushSize := val;
      storedBrushSize := val;
    }

    method UpdateWidth(val: int)
      requires Valid()
      modifies this
      ensures Valid() && State() == WidthState(old(State()), val)
    {
      cfg := cfg.(widthTriangles := val);
    }

    method UpdateHeight(val: int)
      requires Valid()
      modifies this
      ensures Valid() && State() == HeightState(old(State()), val)
    {
      cfg := cfg.(heightTriangles := val);
    }

    method UpdateScale(val: int)
      requires Valid()
      modifies this
      ensures Valid() && State() == ScaleState(old(State()), val)
    {
      triSide := val;
    }

    method KeyDown(ctrl: bool, key: string)
      requires Valid()
      modifies this
      ensures Valid() && State() == KeyState(old(State()), ctrl, key)
    {
      if ctrl {
        if key == "z" || key == "Z" {
          var _ := Undo();
        } else if key == "=" || key == "+" {
          UpdateBrushSize(1);
        } else if key == "-" {
          UpdateBrushSize(-1);
        } else if key == "[" {
          Zoom(-5);
        } else if key == "]" {
          Zoom(5);
        }
      }
    }

    method Wheel(ctrl: bool, deltaY: real)
      requires Valid()
      modifies this
      ensures Valid() && State() == WheelState(old(State()), ctrl, deltaY)
    {
      if ctrl {
        var delta := if deltaY < 0.0 then 1 else -1;
        UpdateBrushSize(delta);
      }
    }

    /** Picking a colour: `updateColorUI` sets the colour and, from the picker, selects the pencil. */
    method UpdateColorUI(css: string)
      requires Valid()
      modifies this
      ensures Valid()
      ensures State() == if old(tool) == Eraser || old(tool) == Picker
                         then SetToolState(old(State()).(color := css), Pencil)
                         else old(State()).(color := css)
    {
      color := css;
      if tool == Eraser || tool == Picker {
        SetTool(Pencil);
      }
    }

    method HandleSingleClick(oklchMatches: bool) returns (didChange: bool)
      requires Valid()
      modifies this
      ensures Valid()
      ensures Clicked(old(State()), State(), oklchMatches, didChange)
    {
      if |hovered| == 0 {
        return false;
      }
      didChange := false;
      var cell := hovered[0];
      if tool == Bucket {
        ghost var filled, capped;
        grid, didChange, filled, capped := FillBucket(cfg, cell, color, grid);
      } else if tool == Picker {
        if Holds(grid, cell) {
          var value := grid[cell];
          if StartsWith(value, "#") {
            UpdateColorUI(value);
          } else if StartsWith(value, "oklch") && oklchMatches {
            UpdateColorUI(value);
          }
        }
      } else {
        grid, didChange := BatchPaintCells(hovered, tool, grid, color);
      }
    }

    /** `mousedown`: snapshot the grid, start the gesture, apply the click. */
    method MouseDown(oklchMatches: bool)
      requires Valid()
      modifies this
      ensures Valid()
      ensures exists didChange :: Clicked(DownState(old(State())), State(), oklchMatches, didChange)
    {
      var s := SaveStateForUndo();
      tempSnapshot := Some(s);
      isDrawing := true;
      ghost var pressed := State();
      assert pressed == DownState(old(State()));
      var didChange := HandleSingleClick(oklchMatches);
      assert Clicked(pressed, State(), oklchMatches, didChange);
    }

    /** `mouseup` and `touchend`. */
    method MouseUp()
      requires Valid()
      modifies this
      ensures Valid() && State() == UpState(old(State()))
    {
      if isDrawing {
        isDrawing := false;
        if grid != tempSnapshot.value {
          PushToHistory(tempSnapshot.value);
        }
      }
    }

    /** The hover update shared by `mousemove`, `touchstart` and `touchmove`. */
    method Hover(cell: Option<Cell>)
      requires Valid()
      modifies this
      ensures Valid() && State() == old(State()).(hovered := HoverCells(cfg, tool, brushSize, cell))
    {
      if cell.Some? {
        var useSize := if tool == Picker || tool == Bucket then 1 else brushSize;
        var anchor := cell.value;
        if useSize > 1 {
          anchor := FindBestCenter(cfg, anchor.r, anchor.c, useSize);
        }
        hovered := GetTriangleCluster(cfg, anchor.r, anchor.c, useSize);
      } else {
        hovered := [];
      }
    }

    /** `mousemove`/`touchmove` at a position resolving to `cell`; `samples` are the cells the
        stroke from the previous position resolves to. */
    method MouseMove(cell: Option<Cell>, samples: seq<Option<Cell>>)
      requires Valid()
      modifies this
      ensures Valid() && State() == MoveState(old(State()), cell, samples)
    {
      Hover(cell);
      if isDrawing && tool != Bucket && tool != Picker {
        var cellsToPaint := InterpolateStroke(cfg, tool, brushSize, samples);
        if |cellsToPaint| > 0 {
          var didChange;
          grid, didChange := BatchPaintCells(cellsToPaint, tool, grid, color);
        } else {
          PaintEffect(grid, cellsToPaint, tool, color);
          assert Painted(grid, cellsToPaint, tool, color) == grid;
        }
      }
    }

    /** `touchstart`: the hover at the touched cell, then what `mousedown` does. */
    method TouchStart(cell: Option<Cell>, oklchMatches: bool)
      requires Valid()
      modifies this
      ensures Valid()
      ensures exists didChange :: Clicked(DownState(old(State())).(hovered := HoverCells(old(cfg), old(tool), old(brushSize), cell)),
                                          State(), oklchMatches, didChange)
    {
      var s := SaveStateForUndo();
      tempSnapshot := Some(s);
      isDrawing := true;
      Hover(cell);
      ghost var pressed := State();
      assert pressed == DownState(old(State())).(hovered := HoverCells(old(cfg), old(tool), old(brushSize), cell));
      var didChange := HandleSingleClick(oklchMatches);
      assert Clicked(pressed, State(), oklchMatches, didChange);
    }

    method MouseLeave()
      requires Valid()
      modifies this
      ensures Valid() && State() == LeaveState(old(State()))
    {
      hovered := [];
      isDrawing := false;
    }
  }
}
