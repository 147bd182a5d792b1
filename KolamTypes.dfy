/** The "Kolam Generator (Types)" tab of final.py and final2.py, the basic generator of
    final3.py and final4.py, and the Diamond with Arcs generator of final3.py and
    final4.py. Every generator draws on a unit lattice of n x n dots: dot (i, j) sits at
    (i, j). What it draws is the dot layer (when "Show Dots" is ticked) followed by the
    pattern of the chosen kolam type. */
module KolamTypes {
  import opened Geometry
  import opened GridLayouts

  datatype KolamType = StraightLines | ConnectedDiamonds | DiamondWithArcs | LoopsArcs | Mixed

  /** The generators fix spacing = 1, and final.py, final2.py and final3.py fix the border
      arc radius r = 0.5 and offset = 0.01. */
  const Unit: real := 1.0
  const DefaultRadius: real := 0.5
  const DefaultOffset: real := 0.01

  /** The show-dots double loop. */
  function DotLayer(n: nat, show: bool): seq<Motif> {
    if show then Grid(CellFn(GridDot(Unit)), n, n) else []
  }

  /** The diamond of every cell of four neighbouring dots. */
  function DiamondField(n: nat): seq<Motif> {
    Grid(CellFn(CellDiamond(Unit)), Cells(n), Cells(n))
  }

  /** The top/bottom loop and then the left/right loop over range(1, n - 1). */
  function BorderArcs(n: nat, r: real, offset: real): seq<Motif> {
    Strip(StripFn(ArcsTopBottom(n, Unit, r, offset)), 1, 1 + Slots(n))
      + Strip(StripFn(ArcsLeftRight(n, Unit, r, offset)), 1, 1 + Slots(n))
  }

  /** The border arcs of the Mixed type, turned the other way and not shifted by r. */
  function MixedArcs(n: nat, r: real, offset: real): seq<Motif> {
    Strip(StripFn(MixedArcsTopBottom(n, Unit, r, offset)), 1, 1 + Slots(n))
      + Strip(StripFn(MixedArcsLeftRight(n, Unit, r, offset)), 1, 1 + Slots(n))
  }

  function DiamondArcsPattern(n: nat, r: real, offset: real): seq<Motif> {
    DiamondField(n) + BorderArcs(n, r, offset)
  }

  function CheckerField(n: nat): seq<Motif> {
    Grid(CellFn(Checker(Unit)), Cells(n), Cells(n))
  }

  /** What one kolam type of final.py / final2.py draws after the dots. */
  function Pattern(kind: KolamType, n: nat): seq<Motif> {
    match kind
    case StraightLines => Strip(StripFn(Straight(n, Unit)), 0, n)
    case ConnectedDiamonds => DiamondField(n)
    case DiamondWithArcs => DiamondArcsPattern(n, DefaultRadius, DefaultOffset)
    case LoopsArcs => Grid(CellFn(DotLoop(Unit)), n, n)
    case Mixed => CheckerField(n) + MixedArcs(n, DefaultRadius, DefaultOffset)
  }

  /** What the basic generator of final3.py / final4.py draws after the dots: it offers no
      Diamond with Arcs (an unmatched type draws nothing) and its Mixed has no arcs. */
  function BasicPattern(kind: KolamType, n: nat): seq<Motif> {
    match kind
    case DiamondWithArcs => []
    case Mixed => CheckerField(n)
    case _ => Pattern(kind, n)
  }

  // ---------------------------------------------------------------------------------
  // The generators

  method DrawPattern(kind: KolamType, n: nat) returns (ms: seq<Motif>)
    ensures ms == Pattern(kind, n)
  {
    match kind
    case StraightLines =>
      ms := EmitStrip(Straight(n, Unit), 0, n);
    case ConnectedDiamonds =>
      ms := EmitGrid(CellDiamond(Unit), Cells(n), Cells(n));
    case DiamondWithArcs =>
      ms := DrawDiamondArcs(n, DefaultRadius, DefaultOffset);
    case LoopsArcs =>
      ms := EmitGrid(DotLoop(Unit), n, n);
    case Mixed =>
      ms := EmitGrid(Checker(Unit), Cells(n), Cells(n));
      var topBottom := EmitStrip(MixedArcsTopBottom(n, Unit, DefaultRadius, DefaultOffset), 1, 1 + Slots(n));
      var leftRight := EmitStrip(MixedArcsLeftRight(n, Unit, DefaultRadius, DefaultOffset), 1, 1 + Slots(n));
      ms := ms + (topBottom + leftRight);
  }

  method DrawDiamondArcs(n: nat, r: real, offset: real) returns (ms: seq<Motif>)
    ensures ms == DiamondArcsPattern(n, r, offset)
  {
    ms := EmitGrid(CellDiamond(Unit), Cells(n), Cells(n));
    var topBottom := EmitStrip(ArcsTopBottom(n, Unit, r, offset), 1, 1 + Slots(n));
    var leftRight := EmitStrip(ArcsLeftRight(n, Unit, r, offset), 1, 1 + Slots(n));
    ms := ms + (topBottom + leftRight);
  }

  method DrawDots(n: nat, show: bool) returns (ms: seq<Motif>)
    ensures ms == DotLayer(n, show)
  {
    ms := [];
    if show {
      ms := EmitGrid(GridDot(Unit), n, n);
    }
  }

  /** generate_kolam of final.py and final2.py. */
  method GenerateKolam(kind: KolamType, n: nat, showDots: bool) returns (ms: seq<Motif>)
    ensures ms == DotLayer(n, showDots) + Pattern(kind, n)
  {
    var dots := DrawDots(n, showDots);
    var pattern := DrawPattern(kind, n);
    ms := dots + pattern;
  }

  /** generate_basic_kolam of final3.py and generate_kolam_basic of final4.py. */
  method GenerateBasicKolam(kind: KolamType, n: nat, showDots: bool) returns (ms: seq<Motif>)
    ensures ms == DotLayer(n, showDots) + BasicPattern(kind, n)
  {
    var dots := DrawDots(n, showDots);
    var pattern: seq<Motif>;
    match kind {
      case DiamondWithArcs =>
        pattern := [];
      case Mixed =>
        pattern := EmitGrid(Checker(Unit), Cells(n), Cells(n));
      case _ =>
        pattern := DrawPattern(kind, n);
    }
    ms := dots + pattern;
  }

  /** generate_kolam_diamond_arcs of final3.py (r = 0.5, offset = 0.01) and
      generate_diamond_arcs of final4.py (r and offset chosen by the user). */
  method GenerateDiamondArcs(n: nat, r: real, offset: real, showDots: bool) returns (ms: seq<Motif>)
    ensures ms == DotLayer(n, showDots) + DiamondArcsPattern(n, r, offset)
  {
    var dots := DrawDots(n, showDots);
    var pattern := DrawDiamondArcs(n, r, offset);
    ms := dots + pattern;
  }

  // ---------------------------------------------------------------------------------
  // What the patterns are

  /** The dot layer holds one dot on every lattice point of the n x n grid, and no other
      motif. */
  lemma DotLayerMembers(n: nat, m: Motif)
    ensures |DotLayer(n, true)| == n * n
    ensures m in DotLayer(n, true)
      <==> exists i: nat, j: nat :: i < n && j < n && m == Dot(DotAt(i, j))
    ensures DotLayer(n, false) == []
  {
    var cell := CellFn(GridDot(Unit));
    CellFnUniform(GridDot(Unit));
    GridLength(cell, 1, n, n);
    if m in DotLayer(n, true) {
      var i, j := GridWitness(cell, n, n, m);
      assert m == Dot(DotAt(i, j));
    }
    if exists i: nat, j: nat :: i < n && j < n && m == Dot(DotAt(i, j)) {
      var i: nat, j: nat :| i < n && j < n && m == Dot(DotAt(i, j));
      assert m in cell(i, j);
      GridHas(cell, n, n, i, j, m);
    }
  }

  /** Straight Lines draws 2n segments: for every i < n, the horizontal line y = i across
      the grid and then the vertical line x = i, each from one border to the other. */
  lemma StraightLinesAt(n: nat, i: nat)
    requires i < n
    ensures var p := Pattern(StraightLines, n);
      |p| == 2 * n
      && p[2 * i] == Segment(Point(0.0, i as real), Point(n as real - 1.0, i as real))
      && p[2 * i + 1] == Segment(Point(i as real, 0.0), Point(i as real, n as real - 1.0))
  {
    var step := StripFn(Straight(n, Unit));
    StripFnPairs(Straight(n, Unit));
    StripAt(step, 0, n, i, 0);
    StripAt(step, 0, n, i, 1);
  }

  /** Connected Diamonds draws (n - 1)^2 diamonds of size 1, exactly one centred in every
      cell of four neighbouring dots. */
  lemma ConnectedDiamondsMembers(n: nat, m: Motif)
    ensures |Pattern(ConnectedDiamonds, n)| == Cells(n) * Cells(n)
    ensures m in Pattern(ConnectedDiamonds, n)
      <==> exists i: nat, j: nat :: i < Cells(n) && j < Cells(n) && m == Diamond(CellCentre(Unit, i, j), Unit)
  {
    var cell := CellFn(CellDiamond(Unit));
    CellFnUniform(CellDiamond(Unit));
    GridLength(cell, 1, Cells(n), Cells(n));
    if m in Pattern(ConnectedDiamonds, n) {
      var i, j := GridWitness(cell, Cells(n), Cells(n), m);
      assert m == Diamond(CellCentre(Unit, i, j), Unit);
    }
    if exists i: nat, j: nat :: i < Cells(n) && j < Cells(n) && m == Diamond(CellCentre(Unit, i, j), Unit) {
      var i: nat, j: nat :| i < Cells(n) && j < Cells(n) && m == Diamond(CellCentre(Unit, i, j), Unit);
      assert m in cell(i, j);
      GridHas(cell, Cells(n), Cells(n), i, j, m);
    }
  }

  /** The diamond of a cell is inscribed in it: its four vertices are the midpoints of the
      cell's sides, so the diamonds of horizontally or vertically neighbouring cells meet at
      the midpoint of the side they share. */
  lemma DiamondsInscribed(s: real, i: nat, j: nat)
    ensures var o := DiamondOutline(CellCentre(s, i, j), s);
      && o[0] == Point((i as real + 0.5) * s, (j as real + 1.0) * s)
      && o[1] == Point((i as real + 1.0) * s, (j as real + 0.5) * s)
      && o[2] == Point((i as real + 0.5) * s, j as real * s)
      && o[3] == Point(i as real * s, (j as real + 0.5) * s)
    ensures DiamondOutline(CellCentre(s, i, j), s)[1] == DiamondOutline(CellCentre(s, i + 1, j), s)[3]
    ensures DiamondOutline(CellCentre(s, i, j), s)[0] == DiamondOutline(CellCentre(s, i, j + 1), s)[2]
  {
  }

  /** Loops/Arcs draws n^2 loops, one centred on every dot. */
  lemma LoopsMembers(n: nat, m: Motif)
    ensures |Pattern(LoopsArcs, n)| == n * n
    ensures m in Pattern(LoopsArcs, n)
      <==> exists i: nat, j: nat :: i < n && j < n && m == Loop(DotAt(i, j), Unit / 2.2)
  {
    var cell := CellFn(DotLoop(Unit));
    CellFnUniform(DotLoop(Unit));
    GridLength(cell, 1, n, n);
    if m in Pattern(LoopsArcs, n) {
      var i, j := GridWitness(cell, n, n, m);
      assert m == Loop(DotAt(i, j), Unit / 2.2);
    }
    if exists i: nat, j: nat :: i < n && j < n && m == Loop(DotAt(i, j), Unit / 2.2) {
      var i: nat, j: nat :| i < n && j < n && m == Loop(DotAt(i, j), Unit / 2.2);
      assert m in cell(i, j);
      GridHas(cell, n, n, i, j, m);
    }
  }

  /** Two different loops of Loops/Arcs never touch: their centres are at least one
      spacing apart along some axis, more than the two radii of spacing / 2.2 together. */
  lemma LoopsApart(n: nat, a: Motif, b: Motif)
    requires a in Pattern(LoopsArcs, n) && b in Pattern(LoopsArcs, n) && a != b
    ensures a.Loop? && b.Loop?
    ensures Abs(a.center.x - b.center.x) >= Unit || Abs(a.center.y - b.center.y) >= Unit
    ensures a.radius + b.radius < Unit
  {
    LoopsMembers(n, a);
    LoopsMembers(n, b);
    var i: nat, j: nat :| i < n && j < n && a == Loop(DotAt(i, j), Unit / 2.2);
    var i2: nat, j2: nat :| i2 < n && j2 < n && b == Loop(DotAt(i2, j2), Unit / 2.2);
    assert i != i2 || j != j2;
  }

  /** The Mixed field is a checkerboard: a cell holds a diamond exactly when i + j is even
      and a loop otherwise, both centred in the cell, so neighbouring cells alternate. */
  lemma CheckerCell(s: real, i: nat, j: nat)
    ensures var m := CellMotifs(Checker(s), i, j)[0];
      (m.Diamond? <==> (i + j) % 2 == 0) && (m.Loop? <==> (i + j) % 2 == 1)
      && m.center == CellCentre(s, i, j)
    ensures CellMotifs(Checker(s), i, j)[0].Diamond? <==> !CellMotifs(Checker(s), i + 1, j)[0].Diamond?
    ensures CellMotifs(Checker(s), i, j)[0].Diamond? <==> !CellMotifs(Checker(s), i, j + 1)[0].Diamond?
  {
  }

  /** The basic generator of final3.py / final4.py agrees with generate_kolam of final.py
      for Straight Lines, Connected Diamonds and Loops/Arcs; its Mixed is generate_kolam's
      without the 4(n - 2) border arcs; it draws nothing for Diamond with Arcs. */
  lemma BasicAgainstFull(kind: KolamType, n: nat)
    ensures kind in {StraightLines, ConnectedDiamonds, LoopsArcs} ==> BasicPattern(kind, n) == Pattern(kind, n)
    ensures kind == Mixed ==>
      BasicPattern(kind, n) <= Pattern(kind, n) && |Pattern(kind, n)| == |BasicPattern(kind, n)| + 4 * Slots(n)
    ensures kind == DiamondWithArcs ==> BasicPattern(kind, n) == []
  {
    if kind == Mixed {
      MixedArcsLength(n, DefaultRadius, DefaultOffset);
    }
  }

  // ---------------------------------------------------------------------------------
  // The border arcs

  lemma ArcFnPairs(n: nat, s: real, r: real, offset: real)
    ensures forall x: nat :: |StripFn(ArcsTopBottom(n, s, r, offset))(x)| == 2
    ensures forall x: nat :: |StripFn(ArcsLeftRight(n, s, r, offset))(x)| == 2
    ensures forall x: nat :: |StripFn(MixedArcsTopBottom(n, s, r, offset))(x)| == 2
    ensures forall x: nat :: |StripFn(MixedArcsLeftRight(n, s, r, offset))(x)| == 2
  {
    forall x: nat ensures |StripFn(ArcsTopBottom(n, s, r, offset))(x)| == 2 {
      var a := StripMotifs(ArcsTopBottom(n, s, r, offset), x);
    }
    forall x: nat ensures |StripFn(ArcsLeftRight(n, s, r, offset))(x)| == 2 {
      var a := StripMotifs(ArcsLeftRight(n, s, r, offset), x);
    }
    forall x: nat ensures |StripFn(MixedArcsTopBottom(n, s, r, offset))(x)| == 2 {
      var a := StripMotifs(MixedArcsTopBottom(n, s, r, offset), x);
    }
    forall x: nat ensures |StripFn(MixedArcsLeftRight(n, s, r, offset))(x)| == 2 {
      var a := StripMotifs(MixedArcsLeftRight(n, s, r, offset), x);
    }
  }

  lemma StripPairsLength(step: nat -> seq<Motif>, lo: nat, hi: nat)
    requires lo <= hi
    requires forall x: nat :: |step(x)| == 2
    ensures |Strip(step, lo, hi)| == 2 * (hi - lo)
  {
    if lo < hi {
      StripAt(step, lo, hi, lo, 0);
    }
  }

  lemma BorderArcsLength(n: nat, r: real, offset: real)
    ensures |BorderArcs(n, r, offset)| == 4 * Slots(n)
  {
    ArcFnPairs(n, Unit, r, offset);
    StripPairsLength(StripFn(ArcsTopBottom(n, Unit, r, offset)), 1, 1 + Slots(n));
    StripPairsLength(StripFn(ArcsLeftRight(n, Unit, r, offset)), 1, 1 + Slots(n));
  }

  lemma MixedArcsLength(n: nat, r: real, offset: real)
    ensures |MixedArcs(n, r, offset)| == 4 * Slots(n)
  {
    ArcFnPairs(n, Unit, r, offset);
    StripPairsLength(StripFn(MixedArcsTopBottom(n, Unit, r, offset)), 1, 1 + Slots(n));
    StripPairsLength(StripFn(MixedArcsLeftRight(n, Unit, r, offset)), 1, 1 + Slots(n));
  }

  /** The reference count of motifs each kolam type draws after the dots. */
  function ExpectedCount(kind: KolamType, n: nat): nat {
    match kind
    case StraightLines => 2 * n
    case ConnectedDiamonds => Cells(n) * Cells(n)
    case DiamondWithArcs => Cells(n) * Cells(n) + 4 * Slots(n)
    case LoopsArcs => n * n
    case Mixed => Cells(n) * Cells(n) + 4 * Slots(n)
  }

  lemma PatternCount(kind: KolamType, n: nat)
    ensures |Pattern(kind, n)| == ExpectedCount(kind, n)
  {
    match kind
    case StraightLines =>
      StripFnPairs(Straight(n, Unit));
      StripPairsLength(StripFn(Straight(n, Unit)), 0, n);
    case ConnectedDiamonds =>
      ConnectedDiamondsMembers(n, Dot(Point(0.0, 0.0)));
    case DiamondWithArcs =>
      ConnectedDiamondsMembers(n, Dot(Point(0.0, 0.0)));
      BorderArcsLength(n, DefaultRadius, DefaultOffset);
    case LoopsArcs =>
      LoopsMembers(n, Dot(Point(0.0, 0.0)));
    case Mixed =>
      CellFnUniform(Checker(Unit));
      GridLength(CellFn(Checker(Unit)), 1, Cells(n), Cells(n));
      MixedArcsLength(n, DefaultRadius, DefaultOffset);
  }

  /** Border arc i of the top side (and likewise of the others) is a half circle of radius
      r whose end points lie r either side of x = (i - 0.5) + r, offset above the top dot
      row; it sits centred over dot column i exactly when r = 0.5, half the spacing. */
  lemma TopArcShape(n: nat, r: real, offset: real, i: nat)
    ensures var a := StripMotifs(ArcsTopBottom(n, Unit, r, offset), i)[0];
      && a == Arc(Point((i as real - 0.5) + r, (n as real - 1.0) + offset), r, 0.0, 180.0)
      && (a.center.x == i as real <==> r == 0.5)
  {
  }

  /** Neighbouring top arcs form one chain when r = 0.5: where arc i starts (angle 0) arc
      i + 1 ends (angle 180), and the chain breaks for any other radius. The same holds on
      the other sides and for the Mixed arcs. */
  lemma TopArcsChain(n: nat, r: real, offset: real, i: nat)
    ensures var a, b := StripMotifs(ArcsTopBottom(n, Unit, r, offset), i)[0],
                        StripMotifs(ArcsTopBottom(n, Unit, r, offset), i + 1)[0];
      QuarterPoint(a.center, a.radius, 0) == QuarterPoint(b.center, b.radius, 2) <==> r == 0.5
  {
  }

  lemma MixedTopArcsChain(n: nat, r: real, offset: real, i: nat)
    ensures var a, b := StripMotifs(MixedArcsTopBottom(n, Unit, r, offset), i)[0],
                        StripMotifs(MixedArcsTopBottom(n, Unit, r, offset), i + 1)[0];
      QuarterPoint(a.center, a.radius, 0) == QuarterPoint(b.center, b.radius, 2) <==> r == 0.5
  {
  }

  /** With the fixed r = 0.5, top arc i spans exactly from the top vertex of the diamond in
      cell (i - 1, n - 2) to the top vertex of the diamond in cell (i, n - 2), lifted by the
      offset: the arcs close the diamond field along its border. */
  lemma TopArcMeetsDiamonds(n: nat, i: nat)
    requires 1 <= i && i + 1 < n
    ensures var a := StripMotifs(ArcsTopBottom(n, Unit, DefaultRadius, DefaultOffset), i)[0];
      var left, right := DiamondOutline(CellCentre(Unit, i - 1, n - 2), Unit)[0],
                         DiamondOutline(CellCentre(Unit, i, n - 2), Unit)[0];
      QuarterPoint(a.center, a.radius, 2) == Point(left.x, left.y + DefaultOffset)
      && QuarterPoint(a.center, a.radius, 0) == Point(right.x, right.y + DefaultOffset)
  {
  }
}
