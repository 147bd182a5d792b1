/** unsimilar_dot.py's generate_pattern: a lattice of n + 1 rows whose counts grow by two
    through the middle row and then shrink, every row centred on x = n - 1; a dot gets a
    four-spoke diamond when all four diagonal neighbours are dots, and a dot is joined to
    each diagonal neighbour when both have at least three diagonal neighbours. */
module UnsimilarLattice {
  import opened Geometry
  import opened GridLayouts

  /** generate_pattern fixes the spacing at 1. */
  const Spacing: real := 1.0

  // ---------------------------------------------------------------------------------
  // The dot layout

  /** Dots in row i: 1 + 2i while i <= rows / 2 (written 2i <= rows, without the
      division), 1 + 2(rows - i - 1) after. */
  function URowCount(rows: nat, i: nat): nat
    requires i < rows
  {
    if 2 * i <= rows then 1 + 2 * i else 1 + 2 * (rows - i - 1)
  }

  /** The first column of a row of count dots: (2n - 1 - count) / 2. */
  function UOffset(n: nat, count: nat): int {
    (2 * n - 1 - count) / 2
  }

  /** Row i of count dots; dot j sits at column j + offset. */
  function URowSites(n: nat, i: nat, count: nat): seq<Site> {
    seq(count, j requires 0 <= j < count => Site(j + UOffset(n, count), -(i as int)))
  }

  function USitesUpTo(n: nat, top: nat): seq<Site>
    requires top <= n + 1
  {
    if top == 0 then [] else USitesUpTo(n, top - 1) + URowSites(n, top - 1, URowCount(n + 1, top - 1))
  }

  /** The sites of generate_pattern(n), in emission order. */
  function USites(n: nat): seq<Site> {
    USitesUpTo(n, n + 1)
  }

  /** Every row count is odd, so the offset (2n - 1 - count) / 2 is a whole number: the
      float division of the source is exact. */
  lemma OffsetExact(n: nat, rows: nat, i: nat)
    requires rows == n + 1 && i < rows
    ensures URowCount(rows, i) % 2 == 1
    ensures (2 * n - 1 - URowCount(rows, i)) as real / 2.0 == UOffset(n, URowCount(rows, i)) as real
  {
    var c := URowCount(rows, i);
    var d := 2 * n - 1 - c;
    assert d == 2 * UOffset(n, c);
  }

  /** Every row is centred on column n - 1: dots j and count - 1 - j sit symmetrically
      about it. */
  lemma URowCentred(n: nat, i: nat, j: nat)
    requires i < n + 1 && j < URowCount(n + 1, i)
    ensures var c := URowCount(n + 1, i);
      URowSites(n, i, c)[j].col + URowSites(n, i, c)[c - 1 - j].col == 2 * (n - 1)
      && URowSites(n, i, c)[j].row == -(i as int)
  {
    var c := URowCount(n + 1, i);
    OffsetExact(n, n + 1, i);
    assert 2 * UOffset(n, c) == 2 * n - 1 - c;
  }

  /** The middle row, row (n + 1) / 2, is the widest; it has 1 + 2((n + 1) / 2) dots,
      which is n + 1 for even n and n + 2 for odd n. */
  lemma UWidest(n: nat, i: nat)
    requires i < n + 1
    ensures URowCount(n + 1, i) <= URowCount(n + 1, (n + 1) / 2)
    ensures URowCount(n + 1, (n + 1) / 2) == if n % 2 == 0 then n + 1 else n + 2
  {
  }

  /** Row i has as many dots as row n - i, its mirror image from the other end. */
  predicate Mirrored(n: nat, i: nat)
    requires i < n + 1
  {
    URowCount(n + 1, i) == URowCount(n + 1, n - i)
  }

  /** The profile reads the same from both ends exactly when n is even. */
  lemma UProfilePalindrome(n: nat)
    ensures (forall i :: 0 <= i < n + 1 ==> Mirrored(n, i)) <==> n % 2 == 0
  {
    if n % 2 == 1 {
      var h := (n + 1) / 2;
      assert !Mirrored(n, h);
    }
  }

  lemma UProfileExamples()
    ensures seq(6, i requires 0 <= i < 6 => URowCount(6, i)) == [1, 3, 5, 7, 3, 1]
    ensures seq(5, i requires 0 <= i < 5 => URowCount(5, i)) == [1, 3, 5, 3, 1]
  {
  }

  // ---------------------------------------------------------------------------------
  // Neighbour counts

  /** How many of the candidates are dots: sum(1 for nb in cands if nb in dots). */
  function CountPresent(cands: seq<Point>, dots: seq<Point>): (c: nat)
    ensures c <= |cands|
    ensures c == |cands| <==> forall t :: 0 <= t < |cands| ==> cands[t] in dots
  {
    if cands == [] then 0
    else CountPresent(cands[..|cands| - 1], dots) + (if cands[|cands| - 1] in dots then 1 else 0)
  }

  /** The number of diagonal neighbours of p that are dots. */
  function Neighbours(dots: seq<Point>, p: Point, s: real): nat {
    CountPresent(Diagonals(p, s), dots)
  }

  /** A dot has all four diagonal neighbours exactly when its count is 4. */
  lemma FullNeighbourhood(dots: seq<Point>, p: Point, s: real)
    ensures Neighbours(dots, p, s) <= 4
    ensures Neighbours(dots, p, s) == 4
      <==> (Point(p.x + s, p.y + s) in dots && Point(p.x - s, p.y + s) in dots
            && Point(p.x + s, p.y - s) in dots && Point(p.x - s, p.y - s) in dots)
  {
    var d := Diagonals(p, s);
    assert d[0] == Point(p.x + s, p.y + s) && d[1] == Point(p.x - s, p.y + s);
    assert d[2] == Point(p.x + s, p.y - s) && d[3] == Point(p.x - s, p.y - s);
  }

  /** Being a diagonal neighbour is symmetric: neighbour t of p has p as its neighbour
      3 - t. */
  lemma DiagonalsSymmetric(p: Point, s: real, t: nat)
    requires t < 4
    ensures Diagonals(Diagonals(p, s)[t], s)[3 - t] == p
  {
  }

  // ---------------------------------------------------------------------------------
  // The loops of generate_pattern

  /** Iteration k of the diamond loop: the four spokes at dot k when it has four diagonal
      neighbours. */
  function SpokeStep(dots: seq<Point>, s: real): (nat, nat) -> seq<Motif> {
    (row: nat, k: nat) =>
      if k < |dots| && Neighbours(dots, dots[k], s) == 4 then DiamondSpokes(dots[k], s) else []
  }

  /** The test of the connection loop for dot p and its neighbour q. */
  predicate Joined(dots: seq<Point>, s: real, p: Point, q: Point) {
    p in dots && q in dots && Neighbours(dots, p, s) >= 3 && Neighbours(dots, q, s) >= 3
  }

  /** Iteration (k, t) of the connection loops: the segment from dot k to its neighbour t
      when the two are joined. */
  function JoinStep(dots: seq<Point>, s: real): (nat, nat) -> seq<Motif> {
    (k: nat, t: nat) =>
      if JoinedAt(dots, s, k, t) then [Segment(dots[k], Diagonals(dots[k], s)[t])] else []
  }

  /** Dot k and its neighbour t are joined. */
  predicate JoinedAt(dots: seq<Point>, s: real, k: nat, t: nat) {
    k < |dots| && t < 4 && Joined(dots, s, dots[k], Diagonals(dots[k], s)[t])
  }

  function SpokeDiamonds(dots: seq<Point>, s: real): seq<Motif> {
    GridRow(SpokeStep(dots, s), 0, |dots|)
  }

  function Joins(dots: seq<Point>, s: real): seq<Motif> {
    Grid(JoinStep(dots, s), |dots|, 4)
  }

  /** generate_pattern(n): the dots (each plotted as it is made), then the diamonds,
      then the connections. */
  method GeneratePattern(n: nat) returns (dots: seq<Point>, ms: seq<Motif>)
    ensures dots == Positions(USites(n), Spacing)
    ensures ms == Scatter(dots) + SpokeDiamonds(dots, Spacing) + Joins(dots, Spacing)
  {
    dots, ms := LayDots(n);
    var diamonds := DrawSpokeDiamonds(dots, Spacing);
    var joins := DrawJoins(dots, Spacing);
    ms := ms + diamonds + joins;
  }

  /** The first loop of generate_pattern: the rows of dots, each dot plotted as it is
      appended. */
  method LayDots(n: nat) returns (dots: seq<Point>, ms: seq<Motif>)
    ensures dots == Positions(USites(n), Spacing)
    ensures ms == Scatter(dots)
  {
    var rows := n + 1;
    dots, ms := [], [];
    var half := rows / 2;
    for i := 0 to rows
      invariant dots == Positions(USitesUpTo(n, i), Spacing)
      invariant ms == Scatter(dots)
    {
      var count: nat;
      if i <= half {
        count := 1 + 2 * i;
      } else {
        count := 1 + 2 * (rows - i - 1);
      }
      assert count == URowCount(rows, i);
      OffsetExact(n, rows, i);
      var offset := (2 * n - 1 - count) as real / 2.0;
      var row, plotted := URowDots(n, i, count, offset);
      UNextRow(n, i, dots, row);
      dots, ms := dots + row, ms + plotted;
    }
  }

  lemma UNextRow(n: nat, i: nat, dots: seq<Point>, row: seq<Point>)
    requires i < n + 1
    requires dots == Positions(USitesUpTo(n, i), Spacing)
    requires row == Positions(URowSites(n, i, URowCount(n + 1, i)), Spacing)
    ensures dots + row == Positions(USitesUpTo(n, i + 1), Spacing)
    ensures Scatter(dots + row) == Scatter(dots) + Scatter(row)
  {
    PositionsAppend(USitesUpTo(n, i), URowSites(n, i, URowCount(n + 1, i)), Spacing);
    ScatterAppend(dots, row);
  }

  /** The inner loop of the dot layout: x = (j + offset) * spacing, y = -i * spacing. */
  method URowDots(n: nat, i: nat, count: nat, offset: real) returns (row: seq<Point>, plotted: seq<Motif>)
    requires offset == UOffset(n, count) as real
    ensures row == Positions(URowSites(n, i, count), Spacing)
    ensures plotted == Scatter(row)
  {
    var spacing := Spacing;
    row, plotted := [], [];
    for j := 0 to count
      invariant row == Positions(URowSites(n, i, count)[..j], spacing)
      invariant plotted == Scatter(row)
    {
      var p := Point((j as real + offset) * spacing, -(i as real) * spacing);
      assert p == Place(URowSites(n, i, count)[j], spacing);
      assert URowSites(n, i, count)[..j + 1] == URowSites(n, i, count)[..j] + [URowSites(n, i, count)[j]];
      PositionsAppend(URowSites(n, i, count)[..j], [URowSites(n, i, count)[j]], spacing);
      ScatterAppend(row, [p]);
      row, plotted := row + [p], plotted + [Dot(p)];
    }
    assert URowSites(n, i, count)[..count] == URowSites(n, i, count);
  }

  /** "for x, y in dots: ... if neighbor_count == 4: draw_diamond(ax, x, y, spacing)". */
  method DrawSpokeDiamonds(dots: seq<Point>, s: real) returns (ms: seq<Motif>)
    ensures ms == SpokeDiamonds(dots, s)
  {
    ms := [];
    for k := 0 to |dots|
      invariant ms == GridRow(SpokeStep(dots, s), 0, k)
    {
      var p := dots[k];
      var neighbourCount := CountPresent(Diagonals(p, s), dots);
      if neighbourCount == 4 {
        ms := ms + DiamondSpokes(p, s);
      } else {
        assert SpokeStep(dots, s)(0, k) == [];
        assert ms + [] == ms;
      }
    }
  }

  /** "for x, y in dots: for nx, ny in neighbors: ... if nb1 >= 3 and nb2 >= 3: plot". */
  method DrawJoins(dots: seq<Point>, s: real) returns (ms: seq<Motif>)
    ensures ms == Joins(dots, s)
  {
    ms := [];
    for k := 0 to |dots|
      invariant ms == Grid(JoinStep(dots, s), k, 4)
    {
      var row := JoinRow(dots, s, k);
      ms := ms + row;
    }
  }

  method JoinRow(dots: seq<Point>, s: real, k: nat) returns (ms: seq<Motif>)
    requires k < |dots|
    ensures ms == GridRow(JoinStep(dots, s), k, 4)
  {
    var p := dots[k];
    var neighbours := Diagonals(p, s);
    ms := [];
    for t := 0 to 4
      invariant ms == GridRow(JoinStep(dots, s), k, t)
    {
      var q := neighbours[t];
      if p in dots && q in dots {
        var nb1 := CountPresent(Diagonals(p, s), dots);
        var nb2 := CountPresent(Diagonals(q, s), dots);
        if nb1 >= 3 && nb2 >= 3 {
          assert Joined(dots, s, p, q);
          ms := ms + [Segment(p, q)];
        } else {
          assert !Joined(dots, s, p, q);
          assert ms + [] == ms;
        }
      } else {
        assert !Joined(dots, s, p, q);
        assert ms + [] == ms;
      }
    }
  }

  // ---------------------------------------------------------------------------------
  // What the loops draw

  /** The four spokes are drawn at a dot exactly when its four diagonal neighbours are
      dots. */
  lemma SpokeDiamondsMembers(dots: seq<Point>, s: real, m: Motif)
    ensures m in SpokeDiamonds(dots, s)
      <==> exists k :: 0 <= k < |dots| && Neighbours(dots, dots[k], s) == 4 && m in DiamondSpokes(dots[k], s)
  {
    var cell := SpokeStep(dots, s);
    if m in GridRow(cell, 0, |dots|) {
      var k := GridRowWitness(cell, 0, |dots|, m);
      assert Neighbours(dots, dots[k], s) == 4 && m in DiamondSpokes(dots[k], s);
    }
    if exists k :: 0 <= k < |dots| && Neighbours(dots, dots[k], s) == 4 && m in DiamondSpokes(dots[k], s) {
      var k :| 0 <= k < |dots| && Neighbours(dots, dots[k], s) == 4 && m in DiamondSpokes(dots[k], s);
      assert m in cell(0, k);
      GridRowHas(cell, 0, |dots|, k, m);
    }
  }

  /** A segment runs from a dot to one of its diagonal neighbours exactly when the two
      are joined. */
  lemma JoinsMembers(dots: seq<Point>, s: real, m: Motif)
    ensures m in Joins(dots, s)
      <==> exists k: nat, t: nat :: JoinedAt(dots, s, k, t) && m == Segment(dots[k], Diagonals(dots[k], s)[t])
  {
    var cell := JoinStep(dots, s);
    if m in Grid(cell, |dots|, 4) {
      var k, t := GridWitness(cell, |dots|, 4, m);
      assert JoinedAt(dots, s, k, t) && m == Segment(dots[k], Diagonals(dots[k], s)[t]);
    }
    if exists k: nat, t: nat :: JoinedAt(dots, s, k, t) && m == Segment(dots[k], Diagonals(dots[k], s)[t]) {
      var k: nat, t: nat :| JoinedAt(dots, s, k, t) && m == Segment(dots[k], Diagonals(dots[k], s)[t]);
      assert m in cell(k, t);
      GridHas(cell, |dots|, 4, k, t, m);
    }
  }

  /** Every joined pair is drawn from both ends: whenever the segment p-q is drawn, so
      is q-p. */
  lemma JoinsBothWays(dots: seq<Point>, s: real, p: Point, q: Point)
    requires Segment(p, q) in Joins(dots, s)
    ensures Segment(q, p) in Joins(dots, s)
  {
    JoinsMembers(dots, s, Segment(p, q));
    var k: nat, t: nat :| JoinedAt(dots, s, k, t) && Segment(p, q) == Segment(dots[k], Diagonals(dots[k], s)[t]);
    var k2: nat :| k2 < |dots| && dots[k2] == q;
    DiagonalsSymmetric(p, s, t);
    assert Diagonals(dots[k2], s)[3 - t] == p;
    assert JoinedAt(dots, s, k2, 3 - t);
    JoinsMembers(dots, s, Segment(q, p));
  }

  /** Only iteration (p, u) can draw the segment from dot p to its neighbour u. */
  lemma JoinDrawnAt(dots: seq<Point>, s: real, p: nat, u: nat, k: nat, t: nat)
    requires s > 0.0 && Distinct(dots) && p < |dots| && u < 4
    ensures Segment(dots[p], Diagonals(dots[p], s)[u]) in JoinStep(dots, s)(k, t)
      ==> k == p && t == u && JoinedAt(dots, s, p, u)
  {
    if JoinedAt(dots, s, k, t) {
      assert JoinStep(dots, s)(k, t) == [Segment(dots[k], Diagonals(dots[k], s)[t])];
      assert dots[k] == dots[p] ==> k == p;
      if k == p && t != u {
        DiagonalsDistinct(dots[p], s, t, u);
      }
    }
  }

  /** With no dot repeated, the segment from dot k to a joined neighbour is drawn once. */
  lemma JoinOnce(dots: seq<Point>, s: real, k: nat, t: nat)
    requires s > 0.0 && Distinct(dots) && JoinedAt(dots, s, k, t)
    ensures multiset(Joins(dots, s))[Segment(dots[k], Diagonals(dots[k], s)[t])] == 1
  {
    var cell, m := JoinStep(dots, s), Segment(dots[k], Diagonals(dots[k], s)[t]);
    assert cell(k, t) == [m];
    forall i: nat, u: nat | i < |dots| && u < 4 && (i != k || u != t) ensures m !in cell(i, u) {
      JoinDrawnAt(dots, s, k, t, i, u);
    }
    GridOnce(cell, |dots|, 4, k, t, m);
  }

  /** Each joined pair of distinct dots is drawn exactly twice, once from each end: the
      two segments differ in direction and each occurs once. */
  lemma JoinsTwice(dots: seq<Point>, s: real, k: nat, t: nat)
    requires s > 0.0 && Distinct(dots) && JoinedAt(dots, s, k, t)
    ensures var p, q := dots[k], Diagonals(dots[k], s)[t];
      && Segment(p, q) != Segment(q, p)
      && multiset(Joins(dots, s))[Segment(p, q)] == 1
      && multiset(Joins(dots, s))[Segment(q, p)] == 1
  {
    var p, q := dots[k], Diagonals(dots[k], s)[t];
    JoinOnce(dots, s, k, t);
    var k2: nat :| k2 < |dots| && dots[k2] == q;
    DiagonalsSymmetric(p, s, t);
    assert Diagonals(dots[k2], s)[3 - t] == p;
    assert JoinedAt(dots, s, k2, 3 - t);
    JoinOnce(dots, s, k2, 3 - t);
  }

  /** The rows laid out so far lie strictly above row -top and repeat no site. */
  lemma {:induction false} USitesDistinct(n: nat, top: nat)
    requires top <= n + 1
    ensures forall k :: 0 <= k < |USitesUpTo(n, top)| ==> -(top as int) < USitesUpTo(n, top)[k].row <= 0
    ensures DistinctSites(USitesUpTo(n, top))
    decreases top
  {
    if top > 0 {
      USitesDistinct(n, top - 1);
      var prev, row := USitesUpTo(n, top - 1), URowSites(n, top - 1, URowCount(n + 1, top - 1));
      var all := USitesUpTo(n, top);
      assert all == prev + row;
      forall a, b | 0 <= a < b < |all| ensures all[a] != all[b] {
        if b < |prev| {
          assert all[a] == prev[a] && all[b] == prev[b];
        } else if a >= |prev| {
          assert all[a] == row[a - |prev|] && all[b] == row[b - |prev|];
        } else {
          assert all[a] == prev[a] && all[b] == row[b - |prev|];
        }
      }
      forall k | 0 <= k < |all| ensures -(top as int) < all[k].row <= 0 {
        if k < |prev| {
          assert all[k] == prev[k];
        } else {
          assert all[k] == row[k - |prev|];
        }
      }
    }
  }

  /** On the layout of generate_pattern(n) every joined pair is drawn exactly twice, once
      from each end. */
  lemma LatticeJoinsTwice(n: nat, k: nat, t: nat)
    requires JoinedAt(Positions(USites(n), Spacing), Spacing, k, t)
    ensures var dots := Positions(USites(n), Spacing);
      var p, q := dots[k], Diagonals(dots[k], Spacing)[t];
      && multiset(Joins(dots, Spacing))[Segment(p, q)] == 1
      && multiset(Joins(dots, Spacing))[Segment(q, p)] == 1
  {
    USitesDistinct(n, n + 1);
    PlacedDistinct(USites(n), Spacing);
    JoinsTwice(Positions(USites(n), Spacing), Spacing, k, t);
  }
}
