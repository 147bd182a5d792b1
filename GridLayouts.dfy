/** The fixed-grid kolam layouts: Straight Lines, Connected Diamonds, Diamond with Arcs,
    Loops/Arcs and Mixed of final.py, final2.py, final3.py and final4.py, and the layouts of
    kolam_app.py. Every layout is a row-major double loop ("for i: for j: draw cell (i, j)")
    or a single loop ("for i: draw two strokes"); what one iteration draws is given by a
    CellRule or a StripRule, and Grid and Strip are the sequences the loops emit. */
module GridLayouts {
  import opened Geometry

  /** Python's range(n - 1): the number of diamond cells per side of an n-dot grid. */
  function Cells(n: nat): nat { if n == 0 then 0 else n - 1 }

  /** Python's range(1, n - 1): the number of border arcs per side. */
  function Slots(n: nat): nat { if n < 2 then 0 else n - 2 }

  /** The centre of the cell between dots (i, j) and (i + 1, j + 1). */
  function CellCentre(s: real, i: nat, j: nat): Point {
    Point((i as real + 0.5) * s, (j as real + 0.5) * s)
  }

  /** kolam_app.py places its dot (i, j) at (2i, 2j). */
  function AppPoint(i: nat, j: nat): Point {
    Point(i as real * 2.0, j as real * 2.0)
  }

  /** What one iteration of a double loop draws. */
  datatype CellRule =
    | GridDot(spacing: real)        // the show-dots loop of generate_kolam
    | CellDiamond(spacing: real)    // Connected Diamonds
    | DotLoop(spacing: real)        // Loops/Arcs
    | Checker(spacing: real)        // Mixed: diamond or loop by parity
    | AppDiamond(withArcs: bool)    // kolam_app.py draw_connected_diamonds
    | AppLoop                       // kolam_app.py draw_loops
    | AppChecker                    // kolam_app.py draw_mixed

  function Arity(rule: CellRule): nat {
    if rule == AppDiamond(true) then 5 else 1
  }

  /** The four radius-1.4 arcs kolam_app.py adds around a diamond at c. */
  function AppArcs(c: Point): seq<Motif> {
    [Arc(Point(c.x, c.y + 1.4), 1.4, 0.0, 180.0), Arc(Point(c.x, c.y - 1.4), 1.4, 180.0, 360.0),
     Arc(Point(c.x - 1.4, c.y), 1.4, 90.0, 270.0), Arc(Point(c.x + 1.4, c.y), 1.4, -90.0, 90.0)]
  }

  function CellMotifs(rule: CellRule, i: nat, j: nat): (r: seq<Motif>)
    ensures |r| == Arity(rule)
  {
    match rule
    case GridDot(s) => [Dot(Point(i as real * s, j as real * s))]
    case CellDiamond(s) => [Diamond(CellCentre(s, i, j), s)]
    case DotLoop(s) => [Loop(Point(i as real * s, j as real * s), s / 2.2)]
    case Checker(s) =>
      if (i + j) % 2 == 0 then [Diamond(CellCentre(s, i, j), s)] else [Loop(CellCentre(s, i, j), s / 2.2)]
    case AppDiamond(withArcs) =>
      [TiltedDiamond(AppPoint(i, j), 1.0)] + (if withArcs then AppArcs(AppPoint(i, j)) else [])
    case AppLoop => [Loop(AppPoint(i, j), 0.8)]
    case AppChecker =>
      if (i + j) % 2 == 0 then [TiltedDiamond(AppPoint(i, j), 1.0)] else [Loop(AppPoint(i, j), 0.8)]
  }

  /** What one iteration of a single loop draws: always two strokes. */
  datatype StripRule =
    | Straight(n: nat, spacing: real)
    | ArcsTopBottom(n: nat, spacing: real, r: real, offset: real)
    | ArcsLeftRight(n: nat, spacing: real, r: real, offset: real)
    | MixedArcsTopBottom(n: nat, spacing: real, r: real, offset: real)
    | MixedArcsLeftRight(n: nat, spacing: real, r: real, offset: real)

  function StripMotifs(rule: StripRule, i: nat): (r: seq<Motif>)
    ensures |r| == 2
  {
    match rule
    case Straight(n, s) =>
      var far := (n as real - 1.0) * s;
      [Segment(Point(0.0, i as real * s), Point(far, i as real * s)),
       Segment(Point(i as real * s, 0.0), Point(i as real * s, far))]
    case ArcsTopBottom(n, s, r, off) =>
      var cx := (i as real - 0.5) * s + r;
      [Arc(Point(cx, (n as real - 1.0) + off), r, 0.0, 180.0), Arc(Point(cx, -off), r, 180.0, 360.0)]
    case ArcsLeftRight(n, s, r, off) =>
      var cy := (i as real - 0.5) * s + r;
      [Arc(Point(-off, cy), r, 90.0, 270.0), Arc(Point((n as real - 1.0) + off, cy), r, 270.0, 450.0)]
    case MixedArcsTopBottom(n, s, r, off) =>
      var cx := (i as real - 0.5) * s;
      [Arc(Point(cx, (n as real - 1.0) + off), r, 180.0, 360.0), Arc(Point(cx, -off), r, 0.0, 180.0)]
    case MixedArcsLeftRight(n, s, r, off) =>
      var cy := (i as real - 0.5) * s;
      [Arc(Point(-off, cy), r, 270.0, 450.0), Arc(Point((n as real - 1.0) + off, cy), r, 90.0, 270.0)]
  }

  /** One iteration of a double loop, as a function value. */
  function CellFn(rule: CellRule): (nat, nat) -> seq<Motif> {
    (i: nat, j: nat) => CellMotifs(rule, i, j)
  }

  /** One iteration of a single loop, as a function value. */
  function StripFn(rule: StripRule): nat -> seq<Motif> {
    (i: nat) => StripMotifs(rule, i)
  }

  /** Every iteration of a single loop draws two strokes. */
  lemma StripFnPairs(rule: StripRule)
    ensures forall x: nat :: |StripFn(rule)(x)| == 2
  {
    forall x: nat ensures |StripFn(rule)(x)| == 2 {
      var r := StripMotifs(rule, x);
    }
  }

  /** Every cell draws k motifs. */
  ghost predicate Uniform(cell: (nat, nat) -> seq<Motif>, k: nat) {
    forall i: nat, j: nat :: |cell(i, j)| == k
  }

  lemma CellFnUniform(rule: CellRule)
    ensures Uniform(CellFn(rule), Arity(rule))
  {
    forall i: nat, j: nat ensures |CellFn(rule)(i, j)| == Arity(rule) {
      var r := CellMotifs(rule, i, j);
    }
  }

  /** Cells (i, 0), ..., (i, cols - 1) in loop order. */
  function GridRow(cell: (nat, nat) -> seq<Motif>, i: nat, cols: nat): seq<Motif>
    decreases cols
  {
    if cols == 0 then [] else GridRow(cell, i, cols - 1) + cell(i, cols - 1)
  }

  /** What "for i in range(rows): for j in range(cols): cell(i, j)" emits. */
  function Grid(cell: (nat, nat) -> seq<Motif>, rows: nat, cols: nat): seq<Motif>
    decreases rows
  {
    if rows == 0 then [] else Grid(cell, rows - 1, cols) + GridRow(cell, rows - 1, cols)
  }

  /** What "for i in range(lo, hi): step(i)" emits. */
  function Strip(step: nat -> seq<Motif>, lo: nat, hi: nat): seq<Motif>
    requires lo <= hi
    decreases hi - lo
  {
    if hi == lo then [] else Strip(step, lo, hi - 1) + step(hi - 1)
  }

  // ---------------------------------------------------------------------------------
  // The loops

  method EmitGrid(rule: CellRule, rows: nat, cols: nat) returns (ms: seq<Motif>)
    ensures ms == Grid(CellFn(rule), rows, cols)
  {
    ms := [];
    var i := 0;
    while i < rows
      invariant 0 <= i <= rows
      invariant ms == Grid(CellFn(rule), i, cols)
    {
      var row := EmitRow(rule, i, cols);
      ms := ms + row;
      i := i + 1;
    }
  }

  /** The inner loop "for j in range(cols): draw cell (i, j)". */
  method EmitRow(rule: CellRule, i: nat, cols: nat) returns (ms: seq<Motif>)
    ensures ms == GridRow(CellFn(rule), i, cols)
  {
    ms := [];
    var j := 0;
    while j < cols
      invariant 0 <= j <= cols
      invariant ms == GridRow(CellFn(rule), i, j)
    {
      ms := ms + CellMotifs(rule, i, j);
      j := j + 1;
    }
  }

  method EmitStrip(rule: StripRule, lo: nat, hi: nat) returns (ms: seq<Motif>)
    requires lo <= hi
    ensures ms == Strip(StripFn(rule), lo, hi)
  {
    ms := [];
    var i := lo;
    while i < hi
      invariant lo <= i <= hi
      invariant ms == Strip(StripFn(rule), lo, i)
    {
      ms := ms + StripMotifs(rule, i);
      i := i + 1;
    }
  }

  // ---------------------------------------------------------------------------------
  // How many motifs a loop draws, and which

  lemma MulSucc(a: nat, k: nat)
    ensures (a + 1) * k == a * k + k
  {
  }

  lemma {:induction false} GridRowLength(cell: (nat, nat) -> seq<Motif>, k: nat, i: nat, cols: nat)
    requires Uniform(cell, k)
    ensures |GridRow(cell, i, cols)| == cols * k
    decreases cols
  {
    if cols > 0 {
      GridRowLength(cell, k, i, cols - 1);
      MulSucc(cols - 1, k);
    }
  }

  lemma {:induction false} GridLength(cell: (nat, nat) -> seq<Motif>, k: nat, rows: nat, cols: nat)
    requires Uniform(cell, k)
    ensures |Grid(cell, rows, cols)| == rows * (cols * k)
    decreases rows
  {
    if rows > 0 {
      GridLength(cell, k, rows - 1, cols);
      GridRowLength(cell, k, rows - 1, cols);
      MulSucc(rows - 1, cols * k);
    }
  }

  lemma {:induction false} GridRowWitness(cell: (nat, nat) -> seq<Motif>, i: nat, cols: nat, m: Motif)
    returns (j: nat)
    requires m in GridRow(cell, i, cols)
    ensures j < cols && m in cell(i, j)
    decreases cols
  {
    if m in cell(i, cols - 1) {
      j := cols - 1;
    } else {
      j := GridRowWitness(cell, i, cols - 1, m);
    }
  }

  lemma {:induction false} GridWitness(cell: (nat, nat) -> seq<Motif>, rows: nat, cols: nat, m: Motif)
    returns (i: nat, j: nat)
    requires m in Grid(cell, rows, cols)
    ensures i < rows && j < cols && m in cell(i, j)
    decreases rows
  {
    var prev, last := Grid(cell, rows - 1, cols), GridRow(cell, rows - 1, cols);
    assert Grid(cell, rows, cols) == prev + last;
    if m in last {
      i := rows - 1;
      j := GridRowWitness(cell, i, cols, m);
    } else {
      assert m in prev;
      i, j := GridWitness(cell, rows - 1, cols, m);
    }
  }

  lemma {:induction false} GridRowHas(cell: (nat, nat) -> seq<Motif>, i: nat, cols: nat, j: nat, m: Motif)
    requires j < cols && m in cell(i, j)
    ensures m in GridRow(cell, i, cols)
    decreases cols
  {
    if j < cols - 1 {
      GridRowHas(cell, i, cols - 1, j, m);
    }
  }

  lemma {:induction false} GridHas(cell: (nat, nat) -> seq<Motif>, rows: nat, cols: nat, i: nat, j: nat, m: Motif)
    requires i < rows && j < cols && m in cell(i, j)
    ensures m in Grid(cell, rows, cols)
    decreases rows
  {
    var prev, last := Grid(cell, rows - 1, cols), GridRow(cell, rows - 1, cols);
    assert Grid(cell, rows, cols) == prev + last;
    if i < rows - 1 {
      GridHas(cell, rows - 1, cols, i, j, m);
      assert m in prev;
    } else {
      GridRowHas(cell, i, cols, j, m);
      assert m in last;
    }
  }

  /** A motif no cell of a row draws does not occur in the row. */
  lemma GridRowNone(cell: (nat, nat) -> seq<Motif>, i: nat, cols: nat, m: Motif)
    requires forall j: nat :: j < cols ==> m !in cell(i, j)
    ensures multiset(GridRow(cell, i, cols))[m] == 0
  {
    if m in GridRow(cell, i, cols) {
      var j := GridRowWitness(cell, i, cols, m);
    }
  }

  /** A motif no cell draws does not occur in the grid. */
  lemma GridNone(cell: (nat, nat) -> seq<Motif>, rows: nat, cols: nat, m: Motif)
    requires forall i: nat, j: nat :: i < rows && j < cols ==> m !in cell(i, j)
    ensures multiset(Grid(cell, rows, cols))[m] == 0
  {
    if m in Grid(cell, rows, cols) {
      var i, j := GridWitness(cell, rows, cols, m);
    }
  }

  /** A motif that cell (i, j0) draws once and no other cell of the row draws occurs
      exactly once in the row. */
  lemma {:induction false} GridRowOnce(cell: (nat, nat) -> seq<Motif>, i: nat, cols: nat, j0: nat, m: Motif)
    requires j0 < cols && multiset(cell(i, j0))[m] == 1
    requires forall j: nat :: j < cols && j != j0 ==> m !in cell(i, j)
    ensures multiset(GridRow(cell, i, cols))[m] == 1
    decreases cols
  {
    var prev, last := GridRow(cell, i, cols - 1), cell(i, cols - 1);
    assert multiset(GridRow(cell, i, cols)) == multiset(prev) + multiset(last);
    if j0 == cols - 1 {
      GridRowNone(cell, i, cols - 1, m);
    } else {
      GridRowOnce(cell, i, cols - 1, j0, m);
      assert m !in last;
    }
  }

  /** The multiplicity of a cell's motif: drawn once by cell (i0, j0) and by no other
      cell, it occurs exactly once in the grid. */
  lemma {:induction false} GridOnce(cell: (nat, nat) -> seq<Motif>, rows: nat, cols: nat, i0: nat, j0: nat, m: Motif)
    requires i0 < rows && j0 < cols && multiset(cell(i0, j0))[m] == 1
    requires forall i: nat, j: nat :: i < rows && j < cols && (i != i0 || j != j0) ==> m !in cell(i, j)
    ensures multiset(Grid(cell, rows, cols))[m] == 1
    decreases rows
  {
    var r: nat := rows - 1;
    var prev, last := Grid(cell, r, cols), GridRow(cell, r, cols);
    assert multiset(Grid(cell, rows, cols)) == multiset(prev) + multiset(last);
    if i0 == r {
      GridNone(cell, r, cols, m);
      GridRowOnce(cell, r, cols, j0, m);
    } else {
      GridOnce(cell, r, cols, i0, j0, m);
      GridRowNone(cell, r, cols, m);
    }
  }

  /** A grid draws exactly the motifs of its cells, nothing else. */
  lemma GridMembers(cell: (nat, nat) -> seq<Motif>, rows: nat, cols: nat, m: Motif)
    ensures m in Grid(cell, rows, cols)
      <==> exists i: nat, j: nat :: i < rows && j < cols && m in cell(i, j)
  {
    if m in Grid(cell, rows, cols) {
      var i, j := GridWitness(cell, rows, cols, m);
    }
    if exists i: nat, j: nat :: i < rows && j < cols && m in cell(i, j) {
      var i: nat, j: nat :| i < rows && j < cols && m in cell(i, j);
      GridHas(cell, rows, cols, i, j, m);
    }
  }

  /** Iteration i of a two-stroke strip draws its strokes at indices 2(i - lo) and
      2(i - lo) + 1. */
  lemma {:induction false} StripAt(step: nat -> seq<Motif>, lo: nat, hi: nat, i: nat, t: nat)
    requires forall x: nat :: |step(x)| == 2
    requires lo <= i < hi && t < 2
    ensures |Strip(step, lo, hi)| == 2 * (hi - lo)
      && Strip(step, lo, hi)[2 * (i - lo) + t] == step(i)[t]
    decreases hi - lo
  {
    if i < hi - 1 {
      StripAt(step, lo, hi - 1, i, t);
    } else if lo < hi - 1 {
      StripAt(step, lo, hi - 1, lo, 0);
    }
  }

  lemma {:induction false} StripWitness(step: nat -> seq<Motif>, lo: nat, hi: nat, m: Motif)
    returns (i: nat)
    requires lo <= hi && m in Strip(step, lo, hi)
    ensures lo <= i < hi && m in step(i)
    decreases hi - lo
  {
    if m in step(hi - 1) {
      i := hi - 1;
    } else {
      i := StripWitness(step, lo, hi - 1, m);
    }
  }

  lemma {:induction false} StripHas(step: nat -> seq<Motif>, lo: nat, hi: nat, i: nat, m: Motif)
    requires lo <= i < hi && m in step(i)
    ensures m in Strip(step, lo, hi)
    decreases hi - lo
  {
    if i < hi - 1 {
      StripHas(step, lo, hi - 1, i, m);
    }
  }

  /** A strip draws exactly the strokes of its iterations. */
  lemma StripMembers(step: nat -> seq<Motif>, lo: nat, hi: nat, m: Motif)
    requires lo <= hi
    ensures m in Strip(step, lo, hi) <==> exists i: nat :: lo <= i < hi && m in step(i)
  {
    if m in Strip(step, lo, hi) {
      var i := StripWitness(step, lo, hi, m);
    }
    if exists i: nat :: lo <= i < hi && m in step(i) {
      var i: nat :| lo <= i < hi && m in step(i);
      StripHas(step, lo, hi, i, m);
    }
  }
}
