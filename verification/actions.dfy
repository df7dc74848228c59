/**
 * Painting actions (src/logic/autotrixel/actions.js) over the sparse grid: a map from a cell
 * to its colour string, where an absent key is an empty cell.
 *
 * The source mutates the shared `gridData` object in place; here each action takes the grid
 * as a value and returns the grid it leaves behind (the session reassigns its field).
 */
module Actions {
  import opened Wrappers
  import opened Geometry
  import opened Brush

  type Grid = map<Cell, string>

  /** The tools that reach the actions; "subdivide" does not exist in this editor. */
  datatype Tool = Pencil | Eraser | Bucket | Picker

  /** `gridData[key]`: the colour, or None for `undefined`. */
  function Get(g: Grid, x: Cell): Option<string>
  {
    if x in g then Some(g[x]) else None
  }

  /** JavaScript truthiness of `gridData[key]`: present and not the empty string. */
  predicate Holds(g: Grid, x: Cell)
  {
    x in g && g[x] != ""
  }

  // ---------------------------------------------------------------------------------------
  // Batch painting
  // ---------------------------------------------------------------------------------------

  /** The grid once every listed cell has been painted: the pencil writes the colour into
      every listed cell, the eraser deletes every listed cell holding a truthy value, any other
      tool writes nothing. */
  function Painted(g: Grid, cells: seq<Cell>, tool: Tool, color: string): Grid
  {
    if tool == Pencil then map x | x in g.Keys + (set y | y in cells) :: if x in cells then color else g[x]
    else if tool == Eraser then map x | x in g && !(x in cells && g[x] != "") :: g[x]
    else g
  }

  /** The `didChange` the source reports: some listed cell did not hold the colour (pencil),
      or some listed cell held a truthy value (eraser). */
  predicate PaintChanges(g: Grid, cells: seq<Cell>, tool: Tool, color: string)
  {
    (tool == Pencil && exists x :: x in cells && Get(g, x) != Some(color)) ||
    (tool == Eraser && exists x :: x in cells && Holds(g, x))
  }

  lemma PaintedStep(g: Grid, cells: seq<Cell>, x: Cell, tool: Tool, color: string)
    ensures var before := Painted(g, cells, tool, color);
            Painted(g, cells + [x], tool, color) ==
              if tool == Pencil then before[x := color]
              else if tool == Eraser && Holds(before, x) then before - {x}
              else before
    ensures PaintChanges(g, cells + [x], tool, color) <==>
              PaintChanges(g, cells, tool, color) ||
              (tool == Pencil && Get(Painted(g, cells, tool, color), x) != Some(color)) ||
              (tool == Eraser && Holds(Painted(g, cells, tool, color), x))
  {
    var before := Painted(g, cells, tool, color);
    var after := Painted(g, cells + [x], tool, color);
    if tool == Pencil {
      assert after == before[x := color];
    } else if tool == Eraser {
      assert after == if Holds(before, x) then before - {x} else before;
    }
  }

  /** The same step, for the prefix of a list that the batch paint has worked through. */
  lemma PaintedPrefix(g: Grid, cells: seq<Cell>, i: int, tool: Tool, color: string)
    requires 0 <= i < |cells|
    ensures var before := Painted(g, cells[..i], tool, color);
            Painted(g, cells[..i + 1], tool, color) ==
              if tool == Pencil then before[cells[i] := color]
              else if tool == Eraser && Holds(before, cells[i]) then before - {cells[i]}
              else before
    ensures PaintChanges(g, cells[..i + 1], tool, color) <==>
              PaintChanges(g, cells[..i], tool, color) ||
              (tool == Pencil && Get(Painted(g, cells[..i], tool, color), cells[i]) != Some(color)) ||
              (tool == Eraser && Holds(Painted(g, cells[..i], tool, color), cells[i]))
  {
    assert cells[..i + 1] == cells[..i] + [cells[i]];
    PaintedStep(g, cells[..i], cells[i], tool, color);
  }

  /** `batchPaintCells(cells, currentTool, gridData, currentCssColor)`. */
  method BatchPaintCells(cells: seq<Cell>, tool: Tool, g: Grid, color: string) returns (g': Grid, didChange: bool)
    ensures g' == Painted(g, cells, tool, color)
    ensures didChange == PaintChanges(g, cells, tool, color)
  {
    g' := g;
    didChange := false;
    for i := 0 to |cells|
      invariant g' == Painted(g, cells[..i], tool, color)
      invariant didChange == PaintChanges(g, cells[..i], tool, color)
    {
      var key := cells[i];
      PaintedPrefix(g, cells, i, tool, color);
      if tool == Pencil {
        if Get(g', key) != Some(color) {
          g' := g'[key := color];
          didChange := true;
        }
      } else if tool == Eraser {
        if key in g' && g'[key] != "" {
          g' := g' - {key};
          didChange := true;
        }
      }
    }
    assert cells[..|cells|] == cells;
  }

  /** What a batch paint does to each cell: afterwards every listed cell holds the colour
      (pencil) or holds no truthy value (eraser; an empty-string value stays), other tools leave
      the grid alone, and unlisted cells never change. */
  lemma PaintEffect(g: Grid, cells: seq<Cell>, tool: Tool, color: string)
    ensures tool == Pencil ==> forall x :: x in cells ==> Get(Painted(g, cells, tool, color), x) == Some(color)
    ensures tool == Eraser ==> forall x :: x in cells ==> !Holds(Painted(g, cells, tool, color), x)
    ensures tool == Eraser ==> forall x :: x in g && g[x] == "" ==> Get(Painted(g, cells, tool, color), x) == Some("")
    ensures tool != Pencil && tool != Eraser ==> Painted(g, cells, tool, color) == g
    ensures forall x :: x !in cells ==> Get(Painted(g, cells, tool, color), x) == Get(g, x)
  {
  }

  /** The reported flag is exact: a batch paint says it changed the grid iff the grid it
      leaves behind differs from the one it was given. */
  lemma PaintChangesIffDiffers(g: Grid, cells: seq<Cell>, tool: Tool, color: string)
    ensures PaintChanges(g, cells, tool, color) <==> Painted(g, cells, tool, color) != g
  {
    var g' := Painted(g, cells, tool, color);
    match tool
    case Pencil =>
      if PaintChanges(g, cells, tool, color) {
        var x :| x in cells && Get(g, x) != Some(color);
        assert Get(g', x) == Some(color);
      } else {
        assert g'.Keys == g.Keys;
        forall x | x in g ensures g'[x] == g[x] {
          if x in cells {
            assert Get(g, x) == Some(color);
          }
        }
      }
    case Eraser =>
      if PaintChanges(g, cells, tool, color) {
        var x :| x in cells && Holds(g, x);
        assert x !in g';
      } else {
        assert g'.Keys == g.Keys;
      }
    case _ =>
  }

  /** Repeating the same batch paint straight away changes nothing and reports no change. */
  lemma RepaintIsNoOp(g: Grid, cells: seq<Cell>, tool: Tool, color: string)
    ensures var g' := Painted(g, cells, tool, color);
            Painted(g', cells, tool, color) == g' && !PaintChanges(g', cells, tool, color)
  {
    var g' := Painted(g, cells, tool, color);
    PaintEffect(g, cells, tool, color);
    PaintChangesIffDiffers(g', cells, tool, color);
    if tool == Pencil {
      assert !PaintChanges(g', cells, tool, color);
    } else if tool == Eraser {
      assert !PaintChanges(g', cells, tool, color);
    }
  }

  // ---------------------------------------------------------------------------------------
  // Bucket fill
  // ---------------------------------------------------------------------------------------

  /** The safety valve: the fill stops after this many dequeues. */
  const FillCap := 500000

  /** One fill step: to one of the three candidate neighbours, when it is inside the grid. */
  predicate Step(cfg: Config, a: Cell, b: Cell)
  {
    b in NeighbourCandidates(a) && InBounds(cfg, b.r, b.c)
  }

  /** A candidate cell, kept when it lies inside the grid. */
  function Kept(cfg: Config, x: Cell): (k: seq<Cell>)
    ensures InBounds(cfg, x.r, x.c) ==> k == [x]
    ensures !InBounds(cfg, x.r, x.c) ==> k == []
  {
    if 0 <= x.r < cfg.heightTriangles && 0 <= x.c < cfg.widthTriangles then [x] else []
  }

  /** `addNeighbor(r, c, queue, config)`: the cell is enqueued exactly when it is in bounds. */
  method AddNeighbor(cfg: Config, x: Cell, queue: seq<Cell>) returns (queue': seq<Cell>)
    ensures queue' == queue + Kept(cfg, x)
  {
    queue' := queue;
    if x.r >= 0 && x.r < cfg.heightTriangles && x.c >= 0 && x.c < cfg.widthTriangles {
      queue' := queue' + [x];
    }
  }

  /** The three candidates in order, each kept when it is in bounds: what the three
      `addNeighbor` calls append to the queue. */
  function InBoundsOf(cfg: Config, ns: seq<Cell>): (qs: seq<Cell>)
    requires |ns| == 3
    ensures forall x :: x in qs <==> x in ns && InBounds(cfg, x.r, x.c)
    ensures |qs| <= 3
  {
    Kept(cfg, ns[0]) + Kept(cfg, ns[1]) + Kept(cfg, ns[2])
  }

  /** n copies of v. */
  function Repeat(n: nat, v: int): (s: seq<int>)
    ensures |s| == n && forall i :: 0 <= i < n ==> s[i] == v
  {
    if n == 0 then [] else Repeat(n - 1, v) + [v]
  }

  /** A walk along fill steps whose every cell held `target` in grid g. */
  ghost predicate RegionPath(cfg: Config, g: Grid, target: Option<string>, p: seq<Cell>)
  {
    |p| > 0 &&
    (forall i :: 0 <= i < |p| ==> Get(g, p[i]) == target) &&
    (forall i :: 0 <= i < |p| - 1 ==> Step(cfg, p[i], p[i + 1]))
  }

  /** x is in the fill region of `start`: reachable along fill steps through cells holding the
      start cell's value. */
  ghost predicate Reachable(cfg: Config, g: Grid, start: Cell, x: Cell)
  {
    exists p :: RegionPath(cfg, g, Get(g, start), p) && p[0] == start && p[|p| - 1] == x
  }

  /** A walk extended by one fill step into a `target` cell is still a walk. */
  lemma ExtendPath(cfg: Config, g: Grid, target: Option<string>, q: seq<Cell>, y: Cell)
    requires RegionPath(cfg, g, target, q)
    requires Get(g, y) == target && Step(cfg, q[|q| - 1], y)
    ensures RegionPath(cfg, g, target, q + [y]) && (q + [y])[|q|] == y
  {
    var p := q + [y];
    forall k | 0 <= k < |p| - 1 ensures Step(cfg, p[k], p[k + 1]) {
      if k < |q| - 1 {
        assert p[k] == q[k] && p[k + 1] == q[k + 1];
      }
    }
  }

  /** Cells recorded with a parent filled earlier all hang off the first one. */
  lemma {:induction false} FillTreeReachable(cfg: Config, g: Grid, target: Option<string>,
                                             order: seq<Cell>, parent: seq<int>, i: int)
    requires |parent| == |order| && 0 <= i < |order|
    requires forall j :: 0 <= j < |order| ==> Get(g, order[j]) == target
    requires forall j :: 0 < j < |order| ==> 0 <= parent[j] < j && Step(cfg, order[parent[j]], order[j])
    ensures exists p :: RegionPath(cfg, g, target, p) && p[0] == order[0] && p[|p| - 1] == order[i]
    decreases i
  {
    if i == 0 {
      assert RegionPath(cfg, g, target, [order[0]]);
    } else {
      FillTreeReachable(cfg, g, target, order, parent, parent[i]);
      var q :| RegionPath(cfg, g, target, q) && q[0] == order[0] && q[|q| - 1] == order[parent[i]];
      ExtendPath(cfg, g, target, q, order[i]);
      assert (q + [order[i]])[0] == order[0];
    }
  }

  /** A set closed under fill steps out of its `target` cells contains every walk through
      `target` cells that starts in it. */
  lemma {:induction false} ClosedSetContainsWalks(cfg: Config, g: Grid, target: Option<string>,
                                                  s: set<Cell>, p: seq<Cell>)
    requires RegionPath(cfg, g, target, p) && p[0] in s
    requires forall x, n :: x in s && Get(g, x) == target && Step(cfg, x, n) ==> n in s
    ensures p[|p| - 1] in s
    decreases |p|
  {
    if |p| > 1 {
      var q := p[..|p| - 1];
      forall k | 0 <= k < |q| - 1 ensures Step(cfg, q[k], q[k + 1]) {
        assert q[k] == p[k] && q[k + 1] == p[k + 1];
      }
      ClosedSetContainsWalks(cfg, g, target, s, q);
      assert Step(cfg, p[|p| - 2], p[|p| - 1]);
    }
  }

  /** What the fill loop keeps about the grid: it is the original grid with the cells of
      `order` painted over in the fill colour, and `order` lists, once each, exactly the visited
      cells that held the target value. */
  ghost predicate Recolored(g: Grid, g': Grid, target: Option<string>, fill: string, visited: set<Cell>, order: seq<Cell>)
  {
    g' == Painted(g, order, Pencil, fill) &&
    (forall i :: 0 <= i < |order| ==> order[i] in visited && Get(g, order[i]) == target) &&
    (forall i, j :: 0 <= i < j < |order| ==> order[i] != order[j]) &&
    (forall x :: x in visited && Get(g, x) == target ==> x in order)
  }

  /** Painting over cells that held the target value with a different colour: a cell differs
      from the original exactly when it was painted over, and then it went from the target value
      to the fill colour. */
  lemma RecoloredCells(g: Grid, target: Option<string>, fill: string, order: seq<Cell>)
    requires target != Some(fill)
    requires forall i :: 0 <= i < |order| ==> Get(g, order[i]) == target
    ensures forall x :: x in order ==> Get(g, x) == target && Get(Painted(g, order, Pencil, fill), x) == Some(fill)
    ensures forall x :: x !in order ==> Get(Painted(g, order, Pencil, fill), x) == Get(g, x)
  {
    PaintEffect(g, order, Pencil, fill);
  }

  /** Every rewritten cell but the first was enqueued by an earlier rewritten cell. */
  ghost predicate FillTree(cfg: Config, order: seq<Cell>, parent: seq<int>)
  {
    |parent| == |order| &&
    forall i :: 0 < i < |order| ==> 0 <= parent[i] < i && Step(cfg, order[parent[i]], order[i])
  }

  /** Every queued cell is the start cell or was enqueued by a rewritten cell. */
  ghost predicate QueueLinks(cfg: Config, start: Cell, queue: seq<Cell>, queueParent: seq<int>, order: seq<Cell>)
  {
    |queueParent| == |queue| &&
    forall k :: 0 <= k < |queue| ==>
      queue[k] == start || (0 <= queueParent[k] < |order| && Step(cfg, order[queueParent[k]], queue[k]))
  }

  /** Every fill step out of a visited target cell leads to a visited or a queued cell. */
  ghost predicate ClosedButQueue(cfg: Config, g: Grid, target: Option<string>, visited: set<Cell>, queue: seq<Cell>)
  {
    forall x, n :: x in visited && Get(g, x) == target && Step(cfg, x, n) ==> n in visited || n in queue
  }

  /** The fill loop's invariant over its state: the grid so far, the visited set and the queue,
      with the ghost record of rewritten cells (`order`), the parent of each of them, and the
      parent of each queued cell. */
  ghost predicate FillInv(cfg: Config, g: Grid, start: Cell, target: Option<string>, fill: string,
                          g': Grid, visited: set<Cell>, queue: seq<Cell>, queueParent: seq<int>,
                          order: seq<Cell>, parent: seq<int>)
  {
    Recolored(g, g', target, fill, visited, order) &&
    FillTree(cfg, order, parent) &&
    QueueLinks(cfg, start, queue, queueParent, order) &&
    ClosedButQueue(cfg, g, target, visited, queue)
  }

  lemma DequeueLinks(cfg: Config, start: Cell, queue: seq<Cell>, queueParent: seq<int>, order: seq<Cell>)
    requires |queue| > 0 && QueueLinks(cfg, start, queue, queueParent, order)
    ensures QueueLinks(cfg, start, queue[1..], queueParent[1..], order)
  {
    forall k | 0 <= k < |queue| - 1
      ensures queue[1..][k] == start ||
              (0 <= queueParent[1..][k] < |order| && Step(cfg, order[queueParent[1..][k]], queue[1..][k]))
    {
      assert queue[1..][k] == queue[k + 1] && queueParent[1..][k] == queueParent[k + 1];
    }
  }

  /** Dropping a dequeued cell that was already visited keeps the fill's invariant. */
  lemma SkipVisited(cfg: Config, g: Grid, start: Cell, target: Option<string>, fill: string,
                    g': Grid, visited: set<Cell>, queue: seq<Cell>, queueParent: seq<int>,
                    order: seq<Cell>, parent: seq<int>)
    requires |queue| > 0 && queue[0] in visited
    requires FillInv(cfg, g, start, target, fill, g', visited, queue, queueParent, order, parent)
    ensures FillInv(cfg, g, start, target, fill, g', visited, queue[1..], queueParent[1..], order, parent)
  {
    DequeueLinks(cfg, start, queue, queueParent, order);
    forall x, n | x in visited && Get(g, x) == target && Step(cfg, x, n) ensures n in visited || n in queue[1..] {
      if n !in visited {
        assert n in queue && n != queue[0];
      }
    }
  }

  /** Visiting a dequeued cell that does not hold the target value keeps the invariant. */
  lemma SkipOther(cfg: Config, g: Grid, start: Cell, target: Option<string>, fill: string,
                  g': Grid, visited: set<Cell>, queue: seq<Cell>, queueParent: seq<int>,
                  order: seq<Cell>, parent: seq<int>)
    requires |queue| > 0 && queue[0] !in visited && Get(g', queue[0]) != target
    requires FillInv(cfg, g, start, target, fill, g', visited, queue, queueParent, order, parent)
    ensures FillInv(cfg, g, start, target, fill, g', visited + {queue[0]}, queue[1..], queueParent[1..], order, parent)
  {
    var cell := queue[0];
    PaintEffect(g, order, Pencil, fill);
    assert Get(g', cell) == Get(g, cell);
    DequeueLinks(cfg, start, queue, queueParent, order);
    forall x, n | x in visited + {cell} && Get(g, x) == target && Step(cfg, x, n)
      ensures n in visited + {cell} || n in queue[1..]
    {
      if n !in visited && n != cell {
        assert n in queue;
      }
    }
  }

  lemma FillOneRecolored(g: Grid, g': Grid, target: Option<string>, fill: string, visited: set<Cell>,
                         order: seq<Cell>, cell: Cell)
    requires cell !in visited && Get(g', cell) == target && target != Some(fill)
    requires Recolored(g, g', target, fill, visited, order)
    ensures Recolored(g, g'[cell := fill], target, fill, visited + {cell}, order + [cell])
  {
    var order' := order + [cell];
    PaintEffect(g, order, Pencil, fill);
    assert Get(g', cell) == Get(g, cell);
    PaintedStep(g, order, cell, Pencil, fill);
    forall i, j | 0 <= i < j < |order'| ensures order'[i] != order'[j] {
      if j == |order| {
        assert order[i] in visited;
      } else {
        assert order'[i] == order[i] && order'[j] == order[j];
      }
    }
  }

  lemma FillOneTree(cfg: Config, order: seq<Cell>, parent: seq<int>, cell: Cell, p: int)
    requires FillTree(cfg, order, parent)
    requires order != [] ==> 0 <= p < |order| && Step(cfg, order[p], cell)
    ensures FillTree(cfg, order + [cell], parent + [if order == [] then -1 else p])
  {
    var order' := order + [cell];
    var parent' := parent + [if order == [] then -1 else p];
    forall i | 0 < i < |order'| ensures 0 <= parent'[i] < i && Step(cfg, order'[parent'[i]], order'[i]) {
      if i < |order| {
        assert parent'[i] == parent[i] && order'[i] == order[i] && order'[parent'[i]] == order[parent[i]];
      } else {
        assert order'[parent'[i]] == order[p];
      }
    }
  }

  /** Cells enqueued by a newly rewritten cell link to it. */
  lemma AppendLinks(cfg: Config, start: Cell, queue: seq<Cell>, queueParent: seq<int>, order: seq<Cell>,
                    cell: Cell, added: seq<Cell>)
    requires QueueLinks(cfg, start, queue, queueParent, order)
    requires forall x :: x in added ==> Step(cfg, cell, x)
    ensures QueueLinks(cfg, start, queue + added, queueParent + Repeat(|added|, |order|), order + [cell])
  {
    var order' := order + [cell];
    var queue' := queue + added;
    var queueParent' := queueParent + Repeat(|added|, |order|);
    forall k | 0 <= k < |queue'|
      ensures queue'[k] == start || (0 <= queueParent'[k] < |order'| && Step(cfg, order'[queueParent'[k]], queue'[k]))
    {
      if k < |queue| {
        assert queue'[k] == queue[k] && queueParent'[k] == queueParent[k];
        if queue'[k] != start {
          assert order'[queueParent'[k]] == order[queueParent[k]];
        }
      } else {
        assert queue'[k] == added[k - |queue|] && queueParent'[k] == |order|;
        assert order'[|order|] == cell;
      }
    }
  }

  lemma FillOneLinks(cfg: Config, start: Cell, queue: seq<Cell>, queueParent: seq<int>, order: seq<Cell>)
    requires |queue| > 0 && QueueLinks(cfg, start, queue, queueParent, order)
    ensures var added := InBoundsOf(cfg, NeighbourCandidates(queue[0]));
            QueueLinks(cfg, start, queue[1..] + added, queueParent[1..] + Repeat(|added|, |order|), order + [queue[0]])
  {
    DequeueLinks(cfg, start, queue, queueParent, order);
    AppendLinks(cfg, start, queue[1..], queueParent[1..], order, queue[0], InBoundsOf(cfg, NeighbourCandidates(queue[0])));
  }

  lemma FillOneClosed(cfg: Config, g: Grid, target: Option<string>, visited: set<Cell>, queue: seq<Cell>)
    requires |queue| > 0 && ClosedButQueue(cfg, g, target, visited, queue)
    ensures ClosedButQueue(cfg, g, target, visited + {queue[0]}, queue[1..] + InBoundsOf(cfg, NeighbourCandidates(queue[0])))
  {
    var cell := queue[0];
    var queue' := queue[1..] + InBoundsOf(cfg, NeighbourCandidates(cell));
    forall x, n | x in visited + {cell} && Get(g, x) == target && Step(cfg, x, n)
      ensures n in visited + {cell} || n in queue'
    {
      if x == cell {
        assert n in InBoundsOf(cfg, NeighbourCandidates(cell));
      } else if n !in visited && n != cell {
        assert n in queue;
      }
    }
  }

  /** Rewriting a dequeued target cell and enqueueing its in-bounds neighbours keeps the
      invariant. */
  lemma FillOne(cfg: Config, g: Grid, start: Cell, target: Option<string>, fill: string,
                g': Grid, visited: set<Cell>, queue: seq<Cell>, queueParent: seq<int>,
                order: seq<Cell>, parent: seq<int>)
    requires |queue| > 0 && queue[0] !in visited && Get(g', queue[0]) == target && target != Some(fill)
    requires order != [] ==> queue[0] != start
    requires FillInv(cfg, g, start, target, fill, g', visited, queue, queueParent, order, parent)
    ensures var added := InBoundsOf(cfg, NeighbourCandidates(queue[0]));
            FillInv(cfg, g, start, target, fill, g'[queue[0] := fill], visited + {queue[0]},
                    queue[1..] + added, queueParent[1..] + Repeat(|added|, |order|),
                    order + [queue[0]], parent + [if order == [] then -1 else queueParent[0]])
  {
    FillOneRecolored(g, g', target, fill, visited, order, queue[0]);
    FillOneTree(cfg, order, parent, queue[0], queueParent[0]);
    FillOneLinks(cfg, start, queue, queueParent, order);
    FillOneClosed(cfg, g, target, visited, queue);
  }

  /** Three `addNeighbor` calls append the in-bounds candidates, in order. */
  lemma EnqueuedNeighbours(cfg: Config, cell: Cell, rest: seq<Cell>, queue: seq<Cell>)
    requires queue == rest + Kept(cfg, Cell(cell.r, cell.c - 1)) + Kept(cfg, Cell(cell.r, cell.c + 1)) +
                     Kept(cfg, if IsUp(cell.r, cell.c) then Cell(cell.r + 1, cell.c) else Cell(cell.r - 1, cell.c))
    ensures queue == rest + InBoundsOf(cfg, NeighbourCandidates(cell))
  {
    var ns := NeighbourCandidates(cell);
    var a, b, c := Kept(cfg, ns[0]), Kept(cfg, ns[1]), Kept(cfg, ns[2]);
    assert InBoundsOf(cfg, ns) == a + b + c;
    assert rest + a + b + c == rest + (a + b + c);
  }

  /** The three `addNeighbor` calls of one fill step: the left and right neighbours, then the
      one across the horizontal edge (below an up cell, above a down one). */
  method EnqueueNeighbours(cfg: Config, cell: Cell, queue: seq<Cell>) returns (queue': seq<Cell>)
    ensures queue' == queue + InBoundsOf(cfg, NeighbourCandidates(cell))
  {
    var r, c := cell.r, cell.c;
    var isUp := IsUp(r, c);
    var across := if isUp then Cell(r + 1, c) else Cell(r - 1, c);
    queue' := AddNeighbor(cfg, Cell(r, c - 1), queue);
    queue' := AddNeighbor(cfg, Cell(r, c + 1), queue');
    queue' := AddNeighbor(cfg, across, queue');
    EnqueuedNeighbours(cfg, cell, queue, queue');
  }

  /** `fillBucket(startR, startC, fillCol, gridData, config)`: breadth-first flood fill.
      Besides the new grid and the flag it gives, as ghost results, the cells it rewrote in
      the order it rewrote them and whether the dequeue cap cut it short. */
  method FillBucket(cfg: Config, start: Cell, fill: string, g: Grid)
    returns (g': Grid, changed: bool, ghost filled: seq<Cell>, ghost capped: bool)
    ensures Get(g, start) == Some(fill) ==> g' == g && !changed
    ensures Get(g, start) != Some(fill) ==> changed && Get(g', start) == Some(fill)
    ensures forall x :: Get(g', x) == Get(g, x) || (Get(g, x) == Get(g, start) && Get(g', x) == Some(fill))
    ensures forall x :: Get(g', x) != Get(g, x) <==> x in filled
    ensures forall i, j :: 0 <= i < j < |filled| ==> filled[i] != filled[j]
    ensures |filled| <= FillCap
    ensures forall x :: Get(g', x) != Get(g, x) ==> Reachable(cfg, g, start, x)
    ensures !capped ==> forall x :: Reachable(cfg, g, start, x) ==> Get(g', x) == Some(fill)
    ensures capped ==> 3 * |filled| >= FillCap
  {
    var target := Get(g, start);
    if target == Some(fill) {
      g', changed, filled, capped := g, false, [], false;
      forall x | Reachable(cfg, g, start, x) ensures Get(g', x) == Some(fill) {
        var p :| RegionPath(cfg, g, target, p) && p[0] == start && p[|p| - 1] == x;
      }
      return;
    }
    var queue := [start];
    var visited: set<Cell> := {};
    var count := 0;
    changed := false;
    g' := g;
    ghost var order: seq<Cell> := [];
    ghost var parent: seq<int> := [];
    ghost var queueParent: seq<int> := [-1];
    while |queue| > 0
      invariant 0 <= count <= FillCap && |order| <= count
      invariant count == 0 ==> queue == [start] && visited == {} && order == [] && g' == g && !changed
      invariant count > 0 ==> changed && |order| > 0 && order[0] == start && start in visited
      invariant FillInv(cfg, g, start, target, fill, g', visited, queue, queueParent, order, parent)
      // every dequeue removes one cell and every rewritten cell enqueues at most three
      invariant count + |queue| <= 1 + 3 * |order|
      decreases FillCap - count
    {
      count := count + 1;
      if count > FillCap {
        break;
      }
      var cell := queue[0];
      if cell in visited {
        SkipVisited(cfg, g, start, target, fill, g', visited, queue, queueParent, order, parent);
        queue, queueParent := queue[1..], queueParent[1..];
        continue;
      }
      if Get(g', cell) != target {
        SkipOther(cfg, g, start, target, fill, g', visited, queue, queueParent, order, parent);
        queue, queueParent := queue[1..], queueParent[1..];
        visited := visited + {cell};
        continue;
      }
      FillOne(cfg, g, start, target, fill, g', visited, queue, queueParent, order, parent);
      ghost var added := InBoundsOf(cfg, NeighbourCandidates(cell));
      queue := EnqueueNeighbours(cfg, cell, queue[1..]);
      visited := visited + {cell};
      g' := g'[cell := fill];
      changed := true;
      parent := parent + [if order == [] then -1 else queueParent[0]];
      queueParent := queueParent[1..] + Repeat(|added|, |order|);
      order := order + [cell];
    }
    filled := order;
    capped := count > FillCap;
    RecoloredCells(g, target, fill, order);
    if !capped {
      FillComplete(cfg, g, g', start, fill, visited, order);
    }
    FillSound(cfg, g, g', start, fill, visited, order, parent);
  }

  /** Once the queue is empty the fill has reached its whole region. */
  lemma FillComplete(cfg: Config, g: Grid, g': Grid, start: Cell, fill: string, visited: set<Cell>, order: seq<Cell>)
    requires start in visited
    requires Recolored(g, g', Get(g, start), fill, visited, order)
    requires ClosedButQueue(cfg, g, Get(g, start), visited, [])
    ensures forall x :: Reachable(cfg, g, start, x) ==> Get(g', x) == Some(fill)
  {
    PaintEffect(g, order, Pencil, fill);
    forall x | Reachable(cfg, g, start, x) ensures Get(g', x) == Some(fill) {
      var p :| RegionPath(cfg, g, Get(g, start), p) && p[0] == start && p[|p| - 1] == x;
      ClosedSetContainsWalks(cfg, g, Get(g, start), visited, p);
    }
  }

  /** Every cell the fill rewrote lies in the region of the start cell. */
  lemma FillSound(cfg: Config, g: Grid, g': Grid, start: Cell, fill: string, visited: set<Cell>,
                  order: seq<Cell>, parent: seq<int>)
    requires order != [] ==> order[0] == start
    requires Recolored(g, g', Get(g, start), fill, visited, order)
    requires FillTree(cfg, order, parent)
    ensures forall x :: Get(g', x) != Get(g, x) ==> Reachable(cfg, g, start, x)
  {
    PaintEffect(g, order, Pencil, fill);
    forall x | Get(g', x) != Get(g, x) ensures Reachable(cfg, g, start, x) {
      var i :| 0 <= i < |order| && order[i] == x;
      FillTreeReachable(cfg, g, Get(g, start), order, parent, i);
    }
  }

  // ---------------------------------------------------------------------------------------
  // Stroke cells
  // ---------------------------------------------------------------------------------------

  /** The brush size a stroke uses: 1 for the picker and the bucket, the brush size otherwise. */
  function StrokeSize(tool: Tool, brushSize: int): int
  {
    if tool == Picker || tool == Bucket then 1 else brushSize
  }

  /** The cells one resolved sample covers: the cluster around the best anchor (the sample's
      own cell for size 1). */
  function SampleCells(cfg: Config, tool: Tool, brushSize: int, center: Cell): seq<Cell>
  {
    var size := StrokeSize(tool, brushSize);
    var anchor := if size > 1 then BestCenter(cfg, center.r, center.c, size) else center;
    Cluster(cfg, anchor.r, anchor.c, size)
  }

  /** The cluster each sample covers, in sample order; a sample that resolved to no cell
      (None: `pixelToGrid` found no cell) covers nothing. */
  function SampleClusters(cfg: Config, tool: Tool, brushSize: int, samples: seq<Option<Cell>>): (ps: seq<seq<Cell>>)
    ensures |ps| == |samples|
  {
    seq(|samples|, i requires 0 <= i < |samples| =>
      if samples[i].Some? then SampleCells(cfg, tool, brushSize, samples[i].value) else [])
  }

  /** The concatenation of a list of lists. */
  function Flatten<T>(ps: seq<seq<T>>): seq<T>
  {
    if ps == [] then [] else Flatten(ps[..|ps| - 1]) + ps[|ps| - 1]
  }

  lemma {:induction false} FlattenMembers<T>(ps: seq<seq<T>>)
    ensures forall x :: x in Flatten(ps) ==> exists i :: 0 <= i < |ps| && x in ps[i]
    ensures forall x, i :: 0 <= i < |ps| && x in ps[i] ==> x in Flatten(ps)
  {
    if ps != [] {
      var init := ps[..|ps| - 1];
      FlattenMembers(init);
      assert Flatten(ps) == Flatten(init) + ps[|ps| - 1];
      forall x | x in Flatten(ps) ensures exists i :: 0 <= i < |ps| && x in ps[i] {
        if x in Flatten(init) {
          var i :| 0 <= i < |init| && x in init[i];
          assert ps[i] == init[i];
        } else {
          assert x in ps[|ps| - 1];
        }
      }
      forall x, i | 0 <= i < |ps| && x in ps[i] ensures x in Flatten(ps) {
        if i < |ps| - 1 {
          assert init[i] == ps[i];
        }
      }
    }
  }

  /** Every cell the samples of a stroke cover, repeats included. */
  function SweptCells(cfg: Config, tool: Tool, brushSize: int, samples: seq<Option<Cell>>): seq<Cell>
  {
    Flatten(SampleClusters(cfg, tool, brushSize, samples))
  }

  /** The first occurrence of each element, in order of first occurrence. */
  function Dedup<T(==)>(s: seq<T>): seq<T>
  {
    if s == [] then []
    else
      var d := Dedup(s[..|s| - 1]);
      if s[|s| - 1] in d then d else d + [s[|s| - 1]]
  }

  lemma DedupSnoc<T>(s: seq<T>, y: T)
    ensures Dedup(s + [y]) == if y in Dedup(s) then Dedup(s) else Dedup(s) + [y]
  {
    assert (s + [y])[..|s|] == s;
  }

  /** One more element of the second list, in the terms the de-duplicating loop uses. */
  lemma DedupExtend<T>(prefix: seq<T>, cluster: seq<T>, j: int)
    requires 0 <= j < |cluster|
    ensures var d := Dedup(prefix + cluster[..j]);
            Dedup(prefix + cluster[..j + 1]) == if cluster[j] in d then d else d + [cluster[j]]
  {
    assert prefix + cluster[..j + 1] == (prefix + cluster[..j]) + [cluster[j]];
    DedupSnoc(prefix + cluster[..j], cluster[j]);
  }

  /** The position of the first occurrence of x in s. */
  function FirstIndex<T(==)>(s: seq<T>, x: T): (k: nat)
    requires x in s
    ensures k < |s| && s[k] == x && x !in s[..k]
  {
    if x in s[..|s| - 1] then FirstIndex(s[..|s| - 1], x) else |s| - 1
  }

  /** De-duplication keeps exactly the elements of its input, each once, in the order of their
      first occurrences. */
  lemma {:induction false} DedupSpec<T>(s: seq<T>)
    ensures forall x :: x in Dedup(s) <==> x in s
    ensures forall i, j :: 0 <= i < j < |Dedup(s)| ==> Dedup(s)[i] != Dedup(s)[j]
    ensures forall i, j :: 0 <= i < j < |Dedup(s)| ==> FirstIndex(s, Dedup(s)[i]) < FirstIndex(s, Dedup(s)[j])
  {
    if s != [] {
      var init := s[..|s| - 1];
      var y := s[|s| - 1];
      DedupSpec(init);
      var d := Dedup(init);
      assert s == init + [y];
      forall x | x in init ensures FirstIndex(s, x) == FirstIndex(init, x) {
        assert x in s[..|s| - 1];
      }
      if y !in d {
        var d' := d + [y];
        assert y !in init;
        assert FirstIndex(s, y) == |s| - 1;
        forall i, j | 0 <= i < j < |d'| ensures FirstIndex(s, d'[i]) < FirstIndex(s, d'[j]) {
          if j < |d| {
            assert d'[i] == d[i] && d'[j] == d[j];
          } else {
            assert d'[i] == d[i] && d[i] in d;
          }
        }
      } else {
        forall i, j | 0 <= i < j < |d| ensures FirstIndex(s, d[i]) < FirstIndex(s, d[j]) {
          assert d[i] in d && d[j] in d;
        }
      }
    }
  }

  /** Adding the cells of one more cluster, skipping those already seen, is de-duplicating
      the longer list. */
  lemma FlattenSnoc<T>(ps: seq<seq<T>>, i: int)
    requires 0 <= i < |ps|
    ensures Flatten(ps[..i + 1]) == Flatten(ps[..i]) + ps[i]
  {
    assert ps[..i + 1][..i] == ps[..i];
  }

  /** `interpolateStroke(...)` from the resolved samples on: the cluster of each sample that
      resolved to a cell, added cell by cell unless its key was seen before. */
  method InterpolateStroke(cfg: Config, tool: Tool, brushSize: int, samples: seq<Option<Cell>>)
    returns (uniqueCells: seq<Cell>)
    ensures uniqueCells == Dedup(SweptCells(cfg, tool, brushSize, samples))
  {
    uniqueCells := [];
    var seenKeys: set<Cell> := {};
    ghost var ps := SampleClusters(cfg, tool, brushSize, samples);
    for i := 0 to |samples|
      invariant uniqueCells == Dedup(Flatten(ps[..i]))
      invariant forall x :: x in seenKeys <==> x in uniqueCells
    {
      FlattenSnoc(ps, i);
      ghost var prefix := Flatten(ps[..i]);
      var centerCell := samples[i];
      if centerCell.Some? {
        var useSize := if tool == Picker || tool == Bucket then 1 else brushSize;
        var anchor := centerCell.value;
        if useSize > 1 {
          anchor := FindBestCenter(cfg, centerCell.value.r, centerCell.value.c, useSize);
        }
        var cluster := GetTriangleCluster(cfg, anchor.r, anchor.c, useSize);
        assert cluster == ps[i];
        assert prefix + cluster[..0] == prefix;
        for j := 0 to |cluster|
          invariant uniqueCells == Dedup(prefix + cluster[..j])
          invariant forall x :: x in seenKeys <==> x in uniqueCells
        {
          var k := cluster[j];
          DedupExtend(prefix, cluster, j);
          if k !in seenKeys {
            seenKeys := seenKeys + {k};
            uniqueCells := uniqueCells + [k];
          }
        }
        assert cluster[..|cluster|] == cluster;
      } else {
        assert ps[i] == [];
        assert prefix + ps[i] == prefix;
      }
    }
    assert ps[..|samples|] == ps;
  }

  /** The stroke list holds no cell twice, keeps first-occurrence order, and holds exactly the
      cells of the clusters of the samples that resolved to a cell. */
  lemma StrokeSpec(cfg: Config, tool: Tool, brushSize: int, samples: seq<Option<Cell>>)
    ensures var u := Dedup(SweptCells(cfg, tool, brushSize, samples));
            forall i, j :: 0 <= i < j < |u| ==> u[i] != u[j]
    ensures var s := SweptCells(cfg, tool, brushSize, samples);
            var u := Dedup(s);
            forall i, j :: 0 <= i < j < |u| ==> u[i] in s && u[j] in s && FirstIndex(s, u[i]) < FirstIndex(s, u[j])
    ensures forall x :: x in Dedup(SweptCells(cfg, tool, brushSize, samples)) <==>
              exists i :: 0 <= i < |samples| && samples[i].Some? && x in SampleCells(cfg, tool, brushSize, samples[i].value)
  {
    var ps := SampleClusters(cfg, tool, brushSize, samples);
    var s := SweptCells(cfg, tool, brushSize, samples);
    DedupSpec(s);
    FlattenMembers(ps);
    forall x | x in s
      ensures exists i :: 0 <= i < |samples| && samples[i].Some? && x in SampleCells(cfg, tool, brushSize, samples[i].value)
    {
      var i :| 0 <= i < |ps| && x in ps[i];
    }
    forall x, i | 0 <= i < |samples| && samples[i].Some? && x in SampleCells(cfg, tool, brushSize, samples[i].value)
      ensures x in s
    {
      assert x in ps[i];
    }
  }
}
