/** kolam_app.py: a stand-alone generator on an n x n lattice with spacing 2 (dot (i, j)
    sits at (2i, 2j)). The chosen pattern is drawn first and the dots, when shown, on top
    of it. */
module KolamApp {
  import opened Geometry
  import opened GridLayouts

  datatype AppType =
    | AppConnectedDiamonds
    | AppDiamondsWithArcs
    | AppLoopsOnly
    | AppStraightLines
    | AppMixed

  const AppSpacing: real := 2.0

  function AppPattern(kind: AppType, n: nat): seq<Motif> {
    match kind
    case AppConnectedDiamonds => Grid(CellFn(AppDiamond(false)), n, n)
    case AppDiamondsWithArcs => Grid(CellFn(AppDiamond(true)), n, n)
    case AppLoopsOnly => Grid(CellFn(AppLoop), n, n)
    case AppStraightLines => Strip(StripFn(Straight(n, AppSpacing)), 0, n)
    case AppMixed => Grid(CellFn(AppChecker), n, n)
  }

  function AppDots(n: nat, show: bool): seq<Motif> {
    if show then Grid(CellFn(GridDot(AppSpacing)), n, n) else []
  }

  /** The "Generate Kolam" handler: dispatch on the kolam type, then the dot loop. */
  method GenerateAppKolam(kind: AppType, n: nat, showDots: bool) returns (ms: seq<Motif>)
    ensures ms == AppPattern(kind, n) + AppDots(n, showDots)
  {
    match kind {
      case AppConnectedDiamonds =>
        ms := EmitGrid(AppDiamond(false), n, n);
      case AppDiamondsWithArcs =>
        ms := EmitGrid(AppDiamond(true), n, n);
      case AppLoopsOnly =>
        ms := EmitGrid(AppLoop, n, n);
      case AppStraightLines =>
        ms := EmitStrip(Straight(n, AppSpacing), 0, n);
      case AppMixed =>
        ms := EmitGrid(AppChecker, n, n);
    }
    if showDots {
      var dots := EmitGrid(GridDot(AppSpacing), n, n);
      ms := ms + dots;
    }
  }

  /** Connected Diamonds draws one diamond of radius 1 on every dot; with arcs, each
      diamond is followed by its four arcs, so the pattern has 5n^2 motifs. */
  lemma AppDiamondsMembers(withArcs: bool, n: nat, m: Motif)
    ensures |Grid(CellFn(AppDiamond(withArcs)), n, n)| == n * (n * (if withArcs then 5 else 1))
    ensures m.TiltedDiamond? ==>
      (m in Grid(CellFn(AppDiamond(withArcs)), n, n)
       <==> exists i: nat, j: nat :: i < n && j < n && m == TiltedDiamond(AppPoint(i, j), 1.0))
  {
    var rule := AppDiamond(withArcs);
    var cell := CellFn(rule);
    CellFnUniform(rule);
    GridLength(cell, Arity(rule), n, n);
    if m.TiltedDiamond? && m in Grid(cell, n, n) {
      var i, j := GridWitness(cell, n, n, m);
      assert cell(i, j) == [TiltedDiamond(AppPoint(i, j), 1.0)] + (if withArcs then AppArcs(AppPoint(i, j)) else []);
      assert m == TiltedDiamond(AppPoint(i, j), 1.0);
    }
    if m.TiltedDiamond? && exists i: nat, j: nat :: i < n && j < n && m == TiltedDiamond(AppPoint(i, j), 1.0) {
      var i: nat, j: nat :| i < n && j < n && m == TiltedDiamond(AppPoint(i, j), 1.0);
      assert cell(i, j)[0] == m;
      GridHas(cell, n, n, i, j, m);
    }
  }

  /** The four arcs draw_connected_diamonds adds around a dot join into one closed curve:
      the top arc runs from 0 to 180 degrees, the left from 90 to 270, the bottom from 180
      to 360 and the right from -90 to 90, and each ends where the next begins. */
  lemma AppArcsCloseLoop(c: Point)
    ensures var a := AppArcs(c);
      && |a| == 4
      && (forall k :: 0 <= k < 4 ==> a[k].Arc? && a[k].radius == 1.4)
      && a[0].startDeg == 0.0 && a[0].endDeg == 180.0
      && a[2].startDeg == 90.0 && a[2].endDeg == 270.0
      && a[1].startDeg == 180.0 && a[1].endDeg == 360.0
      && a[3].startDeg == -90.0 && a[3].endDeg == 90.0
      && QuarterPoint(a[0].center, 1.4, 2) == QuarterPoint(a[2].center, 1.4, 1)
      && QuarterPoint(a[2].center, 1.4, 3) == QuarterPoint(a[1].center, 1.4, 2)
      && QuarterPoint(a[1].center, 1.4, 4) == QuarterPoint(a[3].center, 1.4, -1)
      && QuarterPoint(a[3].center, 1.4, 1) == QuarterPoint(a[0].center, 1.4, 0)
  {
  }

  /** Every arc's circle passes through the dot it surrounds: its centre lies 1.4 from the
      dot along one axis, at the point of angle 270, 90, 0 or 180 degrees. */
  lemma AppArcsThroughDot(c: Point)
    ensures var a := AppArcs(c);
      && QuarterPoint(a[0].center, a[0].radius, 3) == c
      && QuarterPoint(a[1].center, a[1].radius, 1) == c
      && QuarterPoint(a[2].center, a[2].radius, 0) == c
      && QuarterPoint(a[3].center, a[3].radius, 2) == c
  {
  }

  /** Loops Only draws n^2 circles of radius 0.8, one on every dot. */
  lemma AppLoopsMembers(n: nat, m: Motif)
    ensures |AppPattern(AppLoopsOnly, n)| == n * n
    ensures m in AppPattern(AppLoopsOnly, n)
      <==> exists i: nat, j: nat :: i < n && j < n && m == Loop(AppPoint(i, j), 0.8)
  {
    var cell := CellFn(AppLoop);
    CellFnUniform(AppLoop);
    GridLength(cell, 1, n, n);
    if m in Grid(cell, n, n) {
      var i, j := GridWitness(cell, n, n, m);
      assert m == Loop(AppPoint(i, j), 0.8);
    }
    if exists i: nat, j: nat :: i < n && j < n && m == Loop(AppPoint(i, j), 0.8) {
      var i: nat, j: nat :| i < n && j < n && m == Loop(AppPoint(i, j), 0.8);
      assert m in cell(i, j);
      GridHas(cell, n, n, i, j, m);
    }
  }

  /** Mixed is a checkerboard on the dots themselves: a diamond where i + j is even and a
      circle elsewhere, so neighbouring dots alternate. */
  lemma AppMixedCell(i: nat, j: nat)
    ensures var m := CellMotifs(AppChecker, i, j)[0];
      && (m.TiltedDiamond? <==> (i + j) % 2 == 0) && (m.Loop? <==> (i + j) % 2 == 1)
      && m.center == AppPoint(i, j)
    ensures CellMotifs(AppChecker, i, j)[0].TiltedDiamond? <==> CellMotifs(AppChecker, i + 1, j)[0].Loop?
  {
  }

  /** Straight Lines draws 2n segments: for every i < n, the horizontal line y = 2i and
      then the vertical line x = 2i, each spanning 0 .. 2(n - 1). */
  lemma AppStraightAt(n: nat, i: nat)
    requires i < n
    ensures var p := AppPattern(AppStraightLines, n);
      && |p| == 2 * n
      && p[2 * i] == Segment(Point(0.0, 2.0 * i as real), Point(2.0 * (n as real - 1.0), 2.0 * i as real))
      && p[2 * i + 1] == Segment(Point(2.0 * i as real, 0.0), Point(2.0 * i as real, 2.0 * (n as real - 1.0)))
  {
    var step := StripFn(Straight(n, AppSpacing));
    StripFnPairs(Straight(n, AppSpacing));
    StripAt(step, 0, n, i, 0);
    StripAt(step, 0, n, i, 1);
  }

  /** Mixed draws one motif on every dot, n^2 in all. */
  lemma AppMixedCount(n: nat)
    ensures |AppPattern(AppMixed, n)| == n * n
  {
    CellFnUniform(AppChecker);
    GridLength(CellFn(AppChecker), 1, n, n);
  }

  /** The shown dots are one per lattice point (2i, 2j), n^2 of them; hidden, none. They
      are drawn after the pattern (GenerateAppKolam), so they sit on top of it. */
  lemma AppDotsMembers(n: nat, m: Motif)
    ensures |AppDots(n, true)| == n * n
    ensures m in AppDots(n, true) <==> exists i: nat, j: nat :: i < n && j < n && m == Dot(AppPoint(i, j))
    ensures AppDots(n, false) == []
  {
    var cell := CellFn(GridDot(AppSpacing));
    CellFnUniform(GridDot(AppSpacing));
    GridLength(cell, 1, n, n);
    if m in AppDots(n, true) {
      var i, j := GridWitness(cell, n, n, m);
      assert m == Dot(AppPoint(i, j));
    }
    if exists i: nat, j: nat :: i < n && j < n && m == Dot(AppPoint(i, j)) {
      var i: nat, j: nat :| i < n && j < n && m == Dot(AppPoint(i, j));
      assert m in cell(i, j);
      GridHas(cell, n, n, i, j, m);
    }
  }
}
