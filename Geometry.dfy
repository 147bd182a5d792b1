/** Shared geometry of the kolam drawings: points of the design plane, integer lattice
    sites scaled by a dot spacing, and the symbolic motifs a drawing routine emits
    (one Motif per drawn stroke, curve, outline or scatter point). */
module Geometry {

  /** A point of the design plane. */
  datatype Point = Point(x: real, y: real)

  /** An integer lattice site; it is drawn at (col * spacing, row * spacing). */
  datatype Site = Site(col: int, row: int)

  /** A drawable primitive. Curves are kept symbolic: a centre, a radius and, for an arc,
      its angle range in degrees. */
  datatype Motif =
    | Segment(a: Point, b: Point)
      /** the closed outline with vertices N, E, S, W at distance size/2 from the centre */
    | Diamond(center: Point, size: real)
      /** kolam_app.py's diamond: vertices at distance radius, at 45 + 90k degrees */
    | TiltedDiamond(center: Point, radius: real)
    | Arc(center: Point, radius: real, startDeg: real, endDeg: real)
    | Loop(center: Point, radius: real)
    | Dot(at: Point)

  function Abs(v: real): (r: real)
    ensures r >= 0.0 && (r == v || r == -v)
  {
    if v < 0.0 then -v else v
  }

  /** A lattice coordinate scaled by the dot spacing. */
  function Scale(v: int, spacing: real): real {
    v as real * spacing
  }

  function Place(s: Site, spacing: real): Point {
    Point(Scale(s.col, spacing), Scale(s.row, spacing))
  }

  /** Dot (i, j) of a unit lattice. */
  function DotAt(i: int, j: int): Point {
    Point(i as real, j as real)
  }

  /** The points of a sequence of sites, in order. */
  function Positions(ss: seq<Site>, spacing: real): seq<Point>
  {
    seq(|ss|, k requires 0 <= k < |ss| => Place(ss[k], spacing))
  }

  /** One Dot motif per point, in order: a scatter plot of the points. */
  function Scatter(dots: seq<Point>): seq<Motif>
  {
    seq(|dots|, k requires 0 <= k < |dots| => Dot(dots[k]))
  }

  /** A scatter plot shows exactly the given points. */
  lemma ScatterMembers(dots: seq<Point>, m: Motif)
    ensures m in Scatter(dots) <==> exists k :: 0 <= k < |dots| && m == Dot(dots[k])
  {
    if m in Scatter(dots) {
      var k :| 0 <= k < |Scatter(dots)| && Scatter(dots)[k] == m;
      assert m == Dot(dots[k]);
    }
    if exists k :: 0 <= k < |dots| && m == Dot(dots[k]) {
      var k :| 0 <= k < |dots| && m == Dot(dots[k]);
      assert Scatter(dots)[k] == m;
    }
  }

  /** No point occurs twice. */
  predicate Distinct(ps: seq<Point>) {
    forall a, b :: 0 <= a < |ps| && 0 <= b < |ps| && a != b ==> ps[a] != ps[b]
  }

  /** No site occurs twice. */
  predicate DistinctSites(ss: seq<Site>) {
    forall a, b :: 0 <= a < b < |ss| ==> ss[a] != ss[b]
  }

  /** Distinct sites are drawn at distinct points when the spacing is positive. */
  lemma PlacedDistinct(ss: seq<Site>, spacing: real)
    requires spacing > 0.0 && DistinctSites(ss)
    ensures Distinct(Positions(ss, spacing))
  {
    var ps := Positions(ss, spacing);
    forall a, b | 0 <= a < |ps| && 0 <= b < |ps| && a != b ensures ps[a] != ps[b] {
      ScaleInjective(ss[a].col, ss[b].col, spacing);
      ScaleInjective(ss[a].row, ss[b].row, spacing);
      if a < b {
        assert ss[a] != ss[b];
      } else {
        assert ss[b] != ss[a];
      }
    }
  }

  lemma ScatterAppend(a: seq<Point>, b: seq<Point>)
    ensures Scatter(a + b) == Scatter(a) + Scatter(b)
  {
    assert |Scatter(a + b)| == |Scatter(a) + Scatter(b)|;
    forall k | 0 <= k < |a + b| ensures Scatter(a + b)[k] == (Scatter(a) + Scatter(b))[k] {
      if k < |a| {
        assert (a + b)[k] == a[k];
      } else {
        assert (a + b)[k] == b[k - |a|];
      }
    }
  }

  lemma PositionsAppend(a: seq<Site>, b: seq<Site>, spacing: real)
    ensures Positions(a + b, spacing) == Positions(a, spacing) + Positions(b, spacing)
  {
    var l, r := Positions(a + b, spacing), Positions(a, spacing) + Positions(b, spacing);
    assert |l| == |r|;
    forall k | 0 <= k < |l| ensures l[k] == r[k] {
      if k < |a| {
        assert (a + b)[k] == a[k];
      } else {
        assert (a + b)[k] == b[k - |a|];
      }
    }
  }

  /** Scaling by a positive spacing keeps distinct lattice coordinates distinct. */
  lemma ScaleInjective(u: int, v: int, spacing: real)
    requires spacing > 0.0
    ensures Scale(u, spacing) == Scale(v, spacing) <==> u == v
    ensures Scale(u, spacing) < Scale(v, spacing) <==> u < v
  {
    if u < v {
      assert (v as real - u as real) * spacing > 0.0;
    } else if v < u {
      assert (u as real - v as real) * spacing > 0.0;
    }
  }

  /** The point list draw_diamond (and its copies) plots for a diamond of size s at c. */
  function DiamondOutline(c: Point, s: real): seq<Point> {
    [Point(c.x, c.y + s / 2.0), Point(c.x + s / 2.0, c.y), Point(c.x, c.y - s / 2.0),
     Point(c.x - s / 2.0, c.y), Point(c.x, c.y + s / 2.0)]
  }

  /** The outline is a closed 5-point polygon: vertex k < 4 lies at taxicab distance s/2
      from the centre, and the edge from vertex k to vertex k + 1 steps s/2 along each
      axis. */
  lemma OutlineIsClosedDiamond(c: Point, s: real, k: nat)
    requires s >= 0.0 && k < 4
    ensures var o := DiamondOutline(c, s);
      && |o| == 5 && o[0] == o[4]
      && Abs(o[k].x - c.x) + Abs(o[k].y - c.y) == s / 2.0
      && Abs(o[k + 1].x - o[k].x) == s / 2.0 && Abs(o[k + 1].y - o[k].y) == s / 2.0
  {
  }

  /** The four diagonal points at distance d in each axis, in the order unsimilar_dot.py
      lists them. */
  function Diagonals(p: Point, d: real): seq<Point> {
    [Point(p.x + d, p.y + d), Point(p.x - d, p.y + d), Point(p.x + d, p.y - d), Point(p.x - d, p.y - d)]
  }

  /** The four diagonal points of a positive distance are pairwise distinct. */
  lemma DiagonalsDistinct(p: Point, d: real, t: nat, u: nat)
    requires d > 0.0 && t < 4 && u < 4 && t != u
    ensures Diagonals(p, d)[t] != Diagonals(p, d)[u]
  {
  }

  /** unsimilar_dot.py's draw_diamond: four spokes from the centre towards the diagonal
      neighbours, each reaching half way. */
  function DiamondSpokes(c: Point, s: real): seq<Motif>
  {
    var d := Diagonals(c, s / 2.0);
    [Segment(c, d[0]), Segment(c, d[1]), Segment(c, d[2]), Segment(c, d[3])]
  }

  /** Spokes of diagonally adjacent centres meet: the spoke of c towards its neighbour ends
      where the neighbour's spoke back towards c ends. */
  lemma SpokesMeet(c: Point, s: real, k: nat)
    requires k < 4
    ensures var q := Diagonals(c, s)[k];
      DiamondSpokes(c, s)[k].b == DiamondSpokes(q, s)[3 - k].b
  {
  }

  /** cos and sin of 90k degrees, exactly. */
  function Cos90(k: int): real {
    var q := k % 4;
    if q == 0 then 1.0 else if q == 2 then -1.0 else 0.0
  }

  function Sin90(k: int): real {
    var q := k % 4;
    if q == 1 then 1.0 else if q == 3 then -1.0 else 0.0
  }

  /** The point at angle 90k degrees on the circle of radius r about c: where an arc of
      draw_arc whose start or end angle is 90k begins or ends. */
  function QuarterPoint(c: Point, r: real, k: int): Point {
    Point(c.x + r * Cos90(k), c.y + r * Sin90(k))
  }

  /** Quarter points repeat every full turn, opposite quarter points are symmetric about
      the centre, and each lies at taxicab (and so Euclidean) distance r from it. */
  lemma QuarterPointGeometry(c: Point, r: real, k: int)
    requires r >= 0.0
    ensures QuarterPoint(c, r, k + 4) == QuarterPoint(c, r, k)
    ensures var p, q := QuarterPoint(c, r, k), QuarterPoint(c, r, k + 2);
      p.x + q.x == 2.0 * c.x && p.y + q.y == 2.0 * c.y
    ensures var p := QuarterPoint(c, r, k);
      Abs(p.x - c.x) + Abs(p.y - c.y) == r
  {
    assert (k + 4) % 4 == k % 4;
    assert (k + 2) % 4 == (k % 4 + 2) % 4;
  }
}
