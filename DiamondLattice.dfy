/** The "Unsymmetrical Dots" generator shared by final.py, final2.py, final3.py and
    final4.py: generate_dot_positions lays out rows of 1, 3, 5, ... dots that grow and
    shrink again, every row centred on x = 0; find_border_indices marks the first and last
    dot of every row; generate_kolam2 draws a diamond on every dot that is not a border
    dot and a segment between every pair of diagonal neighbours. Dot positions are lattice
    sites scaled by the spacing: dot j of row i (of count dots) is site (j - (count - 1) / 2, -i). */
module DiamondLattice {
  import opened Geometry
  import opened GridLayouts

  // ---------------------------------------------------------------------------------
  // The dot layout

  /** The number of dots in row i of a layout with the given number of rows: 1 + 2i in
      the first rows / 2 rows (the test 2i + 1 < rows is i < rows / 2 without the
      division), then 1 + 2(rows - i - 1). */
  function RowCount(rows: nat, i: nat): nat
    requires i < rows
  {
    if 2 * i + 1 < rows then 1 + 2 * i else 1 + 2 * (rows - i - 1)
  }

  /** Row i of count dots, centred on column 0 (count is odd). */
  function RowSites(i: nat, count: nat): seq<Site> {
    seq(count, j requires 0 <= j < count => Site(j - (count - 1) / 2, -(i as int)))
  }

  /** Rows 0, ..., top - 1, one after another. */
  function SitesUpTo(rows: nat, top: nat): seq<Site>
    requires top <= rows
  {
    if top == 0 then [] else SitesUpTo(rows, top - 1) + RowSites(top - 1, RowCount(rows, top - 1))
  }

  /** The sites of generate_dot_positions(maxDots, spacing), in emission order. */
  function LatticeSites(maxDots: nat): seq<Site> {
    SitesUpTo(maxDots + 1, maxDots + 1)
  }

  /** The index of the first dot of row i. */
  function RowStart(rows: nat, i: nat): nat
    requires i <= rows
  {
    if i == 0 then 0 else RowStart(rows, i - 1) + RowCount(rows, i - 1)
  }

  lemma {:induction false} SitesLength(rows: nat, i: nat)
    requires i <= rows
    ensures |SitesUpTo(rows, i)| == RowStart(rows, i)
    decreases i
  {
    if i > 0 {
      SitesLength(rows, i - 1);
    }
  }

  lemma HalfExact(count: nat)
    requires count % 2 == 1
    ensures (count - 1) as real / 2.0 == ((count - 1) / 2) as real
  {
    var h := (count - 1) / 2;
    assert count - 1 == 2 * h;
  }

  /** generate_dot_positions: rows = maxDots + 1, and the dots are the lattice sites
      row by row, scaled by spacing. */
  method GenerateDotPositions(maxDots: nat, spacing: real) returns (dots: seq<Point>, rows: nat)
    ensures rows == maxDots + 1
    ensures dots == Positions(LatticeSites(maxDots), spacing)
  {
    rows := maxDots + 1;
    dots := [];
    var half := rows / 2;
    for i := 0 to rows
      invariant dots == Positions(SitesUpTo(rows, i), spacing)
    {
      var count: nat;
      if i < half {
        count := 1 + 2 * i;
      } else {
        count := 1 + 2 * (rows - i - 1);
      }
      assert count == RowCount(rows, i) && count % 2 == 1;
      var offset := -((count - 1) as real) / 2.0 * spacing;
      var row := RowDots(i, count, offset, spacing);
      NextRow(rows, i, spacing);
      dots := dots + row;
    }
  }

  lemma NextRow(rows: nat, i: nat, spacing: real)
    requires i < rows
    ensures Positions(SitesUpTo(rows, i + 1), spacing)
      == Positions(SitesUpTo(rows, i), spacing) + Positions(RowSites(i, RowCount(rows, i)), spacing)
  {
    PositionsAppend(SitesUpTo(rows, i), RowSites(i, RowCount(rows, i)), spacing);
  }

  /** The inner loop of generate_dot_positions: dot j of row i sits at
      (offset + j * spacing, -i * spacing). */
  method RowDots(i: nat, count: nat, offset: real, spacing: real) returns (row: seq<Point>)
    requires count % 2 == 1
    requires offset == -((count - 1) as real) / 2.0 * spacing
    ensures row == Positions(RowSites(i, count), spacing)
  {
    HalfExact(count);
    row := [];
    for j := 0 to count
      invariant row == Positions(RowSites(i, count)[..j], spacing)
    {
      var p := Point(offset + j as real * spacing, -(i as real) * spacing);
      assert p == Place(RowSites(i, count)[j], spacing);
      assert RowSites(i, count)[..j + 1] == RowSites(i, count)[..j] + [RowSites(i, count)[j]];
      PositionsAppend(RowSites(i, count)[..j], [RowSites(i, count)[j]], spacing);
      row := row + [p];
    }
    assert RowSites(i, count)[..count] == RowSites(i, count);
  }

  /** The row profile reads the same from both ends, and grows by two up to the middle. */
  lemma ProfilePalindrome(rows: nat, i: nat)
    requires i < rows
    ensures RowCount(rows, i) == RowCount(rows, rows - 1 - i)
    ensures RowCount(rows, i) % 2 == 1
    ensures i + 1 < rows / 2 ==> RowCount(rows, i + 1) == RowCount(rows, i) + 2
  {
  }

  /** The widest row holds maxDots dots when maxDots is odd and maxDots + 1 when it is
      even: the slider's "max dots in middle rows" is not clamped. */
  lemma WidestRow(maxDots: nat, i: nat)
    requires i < maxDots + 1
    ensures RowCount(maxDots + 1, i) <= WidestCount(maxDots)
    ensures RowCount(maxDots + 1, (maxDots + 1) / 2) == WidestCount(maxDots)
  {
  }

  function WidestCount(maxDots: nat): nat {
    if maxDots % 2 == 1 then maxDots else maxDots + 1
  }

  lemma ProfileExamples()
    ensures seq(6, i requires 0 <= i < 6 => RowCount(6, i)) == [1, 3, 5, 5, 3, 1]
    ensures seq(5, i requires 0 <= i < 5 => RowCount(5, i)) == [1, 3, 5, 3, 1]
  {
  }

  /** Every row is centred on x = 0: dots j and count - 1 - j sit at opposite columns. */
  lemma RowCentred(i: nat, count: nat, j: nat)
    requires count % 2 == 1 && j < count
    ensures RowSites(i, count)[j].col == -RowSites(i, count)[count - 1 - j].col
    ensures RowSites(i, count)[j].row == -(i as int)
  {
  }

  /** Site k of the layout belongs to row i at position j: the witness of where a dot
      index lives. */
  lemma {:induction false} SiteRow(rows: nat, top: nat, k: nat) returns (i: nat, j: nat)
    requires top <= rows && k < |SitesUpTo(rows, top)|
    ensures i < top && j < RowCount(rows, i) && k == RowStart(rows, i) + j
    ensures SitesUpTo(rows, top)[k] == Site(j - (RowCount(rows, i) - 1) / 2, -(i as int))
    decreases top
  {
    var prev := SitesUpTo(rows, top - 1);
    if k < |prev| {
      i, j := SiteRow(rows, top - 1, k);
    } else {
      SitesLength(rows, top - 1);
      i, j := top - 1, k - |prev|;
    }
  }

  /** The rows laid out so far are a prefix of the whole layout. */
  lemma {:induction false} SitesPrefix(rows: nat, a: nat, b: nat)
    requires a <= b <= rows
    ensures SitesUpTo(rows, a) <= SitesUpTo(rows, b)
    decreases b
  {
    if a < b {
      SitesPrefix(rows, a, b - 1);
    }
  }

  /** Row i occupies indices RowStart(i) .. RowStart(i) + count - 1, in order. */
  lemma SiteAt(rows: nat, top: nat, i: nat, j: nat)
    requires i < top <= rows && j < RowCount(rows, i)
    ensures RowStart(rows, i) + j < |SitesUpTo(rows, top)|
    ensures SitesUpTo(rows, top)[RowStart(rows, i) + j] == Site(j - (RowCount(rows, i) - 1) / 2, -(i as int))
    ensures RowStart(rows, i + 1) == RowStart(rows, i) + RowCount(rows, i)
  {
    SitesPrefix(rows, i + 1, top);
    SitesLength(rows, i);
    assert SitesUpTo(rows, i + 1) == SitesUpTo(rows, i) + RowSites(i, RowCount(rows, i));
  }
  // ---------------------------------------------------------------------------------
  // find_border_indices

  /** No earlier dot lies on the same row (has the same y). */
  ghost predicate IsRowFirst(dots: seq<Point>, k: nat)
    requires k < |dots|
  {
    forall k' :: 0 <= k' < k ==> dots[k'].y != dots[k].y
  }

  /** No later dot lies on the same row. */
  ghost predicate IsRowLast(dots: seq<Point>, k: nat)
    requires k < |dots|
  {
    forall k' :: k < k' < |dots| ==> dots[k'].y != dots[k].y
  }

  /** The border dots: the first or the last of their row. */
  ghost predicate IsBorder(dots: seq<Point>, k: nat)
    requires k < |dots|
  {
    IsRowFirst(dots, k) || IsRowLast(dots, k)
  }

  /** The list row_dict.setdefault(y, []) holds after the first n dots: the indices with
      that y, in order. */
  function Bucket(dots: seq<Point>, n: nat, y: real): seq<nat>
    requires n <= |dots|
  {
    if n == 0 then [] else Bucket(dots, n - 1, y) + (if dots[n - 1].y == y then [n - 1] else [])
  }

  lemma {:induction false} BucketMembers(dots: seq<Point>, n: nat, y: real, k: nat)
    requires n <= |dots|
    ensures k in Bucket(dots, n, y) <==> k < n && dots[k].y == y
    decreases n
  {
    if n > 0 {
      BucketMembers(dots, n - 1, y, k);
    }
  }

  /** The head of a bucket is the first index with that y. */
  lemma {:induction false} BucketHead(dots: seq<Point>, n: nat, y: real)
    requires n <= |dots| && |Bucket(dots, n, y)| > 0
    ensures var h := Bucket(dots, n, y)[0];
      h < n && dots[h].y == y && forall k :: 0 <= k < h ==> dots[k].y != y
    decreases n
  {
    var prev := Bucket(dots, n - 1, y);
    if |prev| > 0 {
      BucketHead(dots, n - 1, y);
    } else {
      forall k | 0 <= k < n - 1 ensures dots[k].y != y {
        BucketMembers(dots, n - 1, y, k);
      }
    }
  }

  /** The last element of a bucket is the last index with that y. */
  lemma {:induction false} BucketLast(dots: seq<Point>, n: nat, y: real)
    requires n <= |dots| && |Bucket(dots, n, y)| > 0
    ensures var b := Bucket(dots, n, y);
      b[|b| - 1] < n && dots[b[|b| - 1]].y == y && forall k :: b[|b| - 1] < k < n ==> dots[k].y != y
    decreases n
  {
    if dots[n - 1].y != y {
      BucketLast(dots, n - 1, y);
    }
  }

  /** The border indices of the rows listed in keys. */
  function EndsOf(dots: seq<Point>, keys: seq<real>): set<nat>
    requires forall t :: 0 <= t < |keys| ==> |Bucket(dots, |dots|, keys[t])| > 0
  {
    if keys == [] then {}
    else
      var b := Bucket(dots, |dots|, keys[|keys| - 1]);
      EndsOf(dots, keys[..|keys| - 1]) + {b[0], b[|b| - 1]}
  }

  /** find_border_indices: group the dot indices by y, then add the first and the last
      index of every group (a one-dot group adds its only index). The rows argument of
      final.py's version is never used and is not modelled. */
  method FindBorderIndices(dots: seq<Point>) returns (borders: set<nat>)
    ensures forall k: nat :: k in borders <==> k < |dots| && IsBorder(dots, k)
  {
    var rowDict, keys := GroupByRow(dots);
    borders := {};
    for t := 0 to |keys|
      invariant borders == EndsOf(dots, keys[..t])
    {
      var row := rowDict[keys[t]];
      if |row| > 1 {
        borders := borders + {row[0]} + {row[|row| - 1]};
      } else {
        borders := borders + {row[0]};
      }
      assert keys[..t + 1][..t] == keys[..t];
    }
    assert keys[..|keys|] == keys;
    forall k: nat ensures k in borders <==> k < |dots| && IsBorder(dots, k) {
      EndsOfMembers(dots, keys, k);
    }
  }

  /** The dictionary after the first n iterations of the grouping loop. */
  function BucketMap(dots: seq<Point>, n: nat): map<real, seq<nat>>
    requires n <= |dots|
  {
    if n == 0 then map[]
    else
      var m, y := BucketMap(dots, n - 1), dots[n - 1].y;
      m[y := if y in m then m[y] + [n - 1] else [n - 1]]
  }

  /** Its keys in insertion order. */
  function KeyOrder(dots: seq<Point>, n: nat): seq<real>
    requires n <= |dots|
  {
    if n == 0 then []
    else if dots[n - 1].y in BucketMap(dots, n - 1) then KeyOrder(dots, n - 1)
    else KeyOrder(dots, n - 1) + [dots[n - 1].y]
  }

  /** The dictionary holds, for every y met so far, its nonempty bucket. */
  lemma {:induction false} BucketMapSpec(dots: seq<Point>, n: nat, y: real)
    requires n <= |dots|
    ensures y in BucketMap(dots, n) <==> |Bucket(dots, n, y)| > 0
    ensures y in BucketMap(dots, n) ==> BucketMap(dots, n)[y] == Bucket(dots, n, y)
    decreases n
  {
    if n > 0 {
      BucketMapSpec(dots, n - 1, y);
      var m, b := BucketMap(dots, n - 1), Bucket(dots, n - 1, y);
      if dots[n - 1].y == y {
        assert Bucket(dots, n, y) == b + [n - 1];
        assert BucketMap(dots, n)[y] == if y in m then m[y] + [n - 1] else [n - 1];
      } else {
        assert Bucket(dots, n, y) == b;
        assert (y in BucketMap(dots, n) <==> y in m);
      }
    }
  }

  /** The key list names exactly the dictionary's keys. */
  lemma {:induction false} KeyOrderSpec(dots: seq<Point>, n: nat, y: real)
    requires n <= |dots|
    ensures y in BucketMap(dots, n) <==> y in KeyOrder(dots, n)
    decreases n
  {
    if n > 0 {
      KeyOrderSpec(dots, n - 1, y);
      var m, z := BucketMap(dots, n - 1), dots[n - 1].y;
      assert BucketMap(dots, n) == m[z := if z in m then m[z] + [n - 1] else [n - 1]];
      assert y in BucketMap(dots, n) <==> y == z || y in m;
      if z in m {
        assert KeyOrder(dots, n) == KeyOrder(dots, n - 1);
      } else {
        assert KeyOrder(dots, n) == KeyOrder(dots, n - 1) + [z];
      }
    }
  }

  /** The first loop of find_border_indices, "row_dict.setdefault(y, []).append(idx)":
      every row's y maps to the indices on that row, in order; keys lists the rows in
      insertion order. */
  method GroupByRow(dots: seq<Point>) returns (rowDict: map<real, seq<nat>>, keys: seq<real>)
    ensures forall t :: 0 <= t < |keys| ==> keys[t] in rowDict
    ensures forall y :: y in rowDict ==> rowDict[y] == Bucket(dots, |dots|, y) && |rowDict[y]| > 0
    ensures forall k :: 0 <= k < |dots| ==> dots[k].y in keys
  {
    rowDict := map[];
    keys := [];
    for idx := 0 to |dots|
      invariant rowDict == BucketMap(dots, idx) && keys == KeyOrder(dots, idx)
    {
      var y := dots[idx].y;
      if y in rowDict {
        rowDict := rowDict[y := rowDict[y] + [idx]];
      } else {
        rowDict := rowDict[y := [idx]];
        keys := keys + [y];
      }
    }
    forall t | 0 <= t < |keys| ensures keys[t] in rowDict {
      KeyOrderSpec(dots, |dots|, keys[t]);
    }
    forall y | y in rowDict ensures rowDict[y] == Bucket(dots, |dots|, y) && |rowDict[y]| > 0 {
      BucketMapSpec(dots, |dots|, y);
    }
    forall k | 0 <= k < |dots| ensures dots[k].y in keys {
      BucketMapSpec(dots, |dots|, dots[k].y);
      KeyOrderSpec(dots, |dots|, dots[k].y);
      BucketMembers(dots, |dots|, dots[k].y, k);
    }
  }

  /** An index is among the ends of the listed rows exactly when it is a border dot of one
      of them. */
  lemma {:induction false} EndsOfMembers(dots: seq<Point>, keys: seq<real>, k: nat)
    requires forall t :: 0 <= t < |keys| ==> |Bucket(dots, |dots|, keys[t])| > 0
    ensures k in EndsOf(dots, keys) <==> k < |dots| && dots[k].y in keys && IsBorder(dots, k)
    decreases |keys|
  {
    if keys != [] {
      var init, y := keys[..|keys| - 1], keys[|keys| - 1];
      EndsOfMembers(dots, init, k);
      assert keys == init + [y];
      var b := Bucket(dots, |dots|, y);
      BucketHead(dots, |dots|, y);
      BucketLast(dots, |dots|, y);
      if k < |dots| && dots[k].y == y {
        BucketMembers(dots, |dots|, y, k);
        BucketSorted(dots, |dots|, y);
        var p :| 0 <= p < |b| && b[p] == k;
        assert b[0] <= k <= b[|b| - 1];
      }
      if k in {b[0], b[|b| - 1]} {
        assert dots[k].y == y;
      }
    }
  }

  lemma {:induction false} BucketSorted(dots: seq<Point>, n: nat, y: real)
    requires n <= |dots|
    ensures forall p, q :: 0 <= p < q < |Bucket(dots, n, y)| ==> Bucket(dots, n, y)[p] < Bucket(dots, n, y)[q] < n
    decreases n
  {
    if n > 0 {
      BucketSorted(dots, n - 1, y);
      var prev, b := Bucket(dots, n - 1, y), Bucket(dots, n, y);
      forall p | 0 <= p < |prev| ensures prev[p] < n - 1 {
        assert prev[p] in prev;
        BucketMembers(dots, n - 1, y, prev[p]);
      }
      assert b == prev + (if dots[n - 1].y == y then [n - 1] else []);
      forall p, q | 0 <= p < q < |b| ensures b[p] < b[q] < n {
        assert b[p] == prev[p] && prev[p] < n - 1;
        if q < |prev| {
          assert b[q] == prev[q] && prev[q] < n - 1;
          assert prev[p] < prev[q];
        } else {
          assert b[q] == n - 1;
        }
      }
    }
  }

  // ---------------------------------------------------------------------------------
  // The borders of the layout

  /** The dots of generate_dot_positions(maxDots, spacing). */
  function LatticeDots(maxDots: nat, spacing: real): seq<Point> {
    Positions(LatticeSites(maxDots), spacing)
  }

  /** Dot indices follow the rows: an index comes before another exactly when its row
      does, or the rows agree and its place in the row does. */
  lemma IndexOrder(rows: nat, i: nat, j: nat, i2: nat, j2: nat)
    requires i < rows && i2 < rows && j < RowCount(rows, i) && j2 < RowCount(rows, i2)
    ensures RowStart(rows, i) + j < RowStart(rows, i2) + j2 <==> i < i2 || (i == i2 && j < j2)
  {
    if i < i2 {
      RowStartStep(rows, i);
      RowStartLe(rows, i + 1, i2);
    } else if i2 < i {
      RowStartStep(rows, i2);
      RowStartLe(rows, i2 + 1, i);
    }
  }

  /** Row i is followed directly by row i + 1. */
  lemma RowStartStep(rows: nat, i: nat)
    requires i < rows
    ensures RowStart(rows, i + 1) == RowStart(rows, i) + RowCount(rows, i)
  {
  }

  lemma {:induction false} RowStartLe(rows: nat, a: nat, b: nat)
    requires a <= b <= rows
    ensures RowStart(rows, a) <= RowStart(rows, b)
    decreases b
  {
    if a < b {
      RowStartLe(rows, a, b - 1);
      RowStartStep(rows, b - 1);
    }
  }

  /** Where dot k of the layout sits: row i, place j, at height -i * spacing. */
  lemma DotOf(maxDots: nat, spacing: real, k: nat) returns (i: nat, j: nat)
    requires k < |LatticeDots(maxDots, spacing)|
    ensures i < maxDots + 1 && j < RowCount(maxDots + 1, i) && k == RowStart(maxDots + 1, i) + j
    ensures LatticeDots(maxDots, spacing)[k].y == Scale(-(i as int), spacing)
  {
    i, j := SiteRow(maxDots + 1, maxDots + 1, k);
  }

  /** Dot (i, j): it exists, and it sits at height -i * spacing. */
  lemma DotAtRow(maxDots: nat, spacing: real, i: nat, j: nat)
    requires i < maxDots + 1 && j < RowCount(maxDots + 1, i)
    ensures RowStart(maxDots + 1, i) + j < |LatticeDots(maxDots, spacing)|
    ensures LatticeDots(maxDots, spacing)[RowStart(maxDots + 1, i) + j].y == Scale(-(i as int), spacing)
  {
    var k := RowStart(maxDots + 1, i) + j;
    SiteAt(maxDots + 1, maxDots + 1, i, j);
    assert k < |LatticeSites(maxDots)|;
    assert LatticeSites(maxDots)[k].row == -(i as int);
    PlacedRow(LatticeSites(maxDots), spacing, k, -(i as int));
  }

  /** The height of a placed site. */
  lemma PlacedRow(ss: seq<Site>, spacing: real, k: nat, row: int)
    requires k < |ss| && ss[k].row == row
    ensures Positions(ss, spacing)[k].y == Scale(row, spacing)
  {
  }

  /** With a positive spacing, a dot of the layout is the first of its row (by y) exactly
      when it is the first dot of its row of the layout. */
  lemma LatticeRowFirst(maxDots: nat, spacing: real, i: nat, j: nat)
    requires spacing > 0.0 && i < maxDots + 1 && j < RowCount(maxDots + 1, i)
    ensures RowStart(maxDots + 1, i) + j < |LatticeDots(maxDots, spacing)|
    ensures IsRowFirst(LatticeDots(maxDots, spacing), RowStart(maxDots + 1, i) + j) <==> j == 0
  {
    var rows, dots, k := maxDots + 1, LatticeDots(maxDots, spacing), RowStart(maxDots + 1, i) + j;
    DotAtRow(maxDots, spacing, i, j);
    if j == 0 {
      forall k2 | 0 <= k2 < k ensures dots[k2].y != dots[k].y {
        var i2, j2 := DotOf(maxDots, spacing, k2);
        IndexOrder(rows, i2, j2, i, j);
        ScaleInjective(-(i2 as int), -(i as int), spacing);
      }
    } else {
      DotAtRow(maxDots, spacing, i, j - 1);
      assert dots[k - 1].y == dots[k].y;
    }
  }

  /** Likewise for the last dot of a row. */
  lemma LatticeRowLast(maxDots: nat, spacing: real, i: nat, j: nat)
    requires spacing > 0.0 && i < maxDots + 1 && j < RowCount(maxDots + 1, i)
    ensures RowStart(maxDots + 1, i) + j < |LatticeDots(maxDots, spacing)|
    ensures IsRowLast(LatticeDots(maxDots, spacing), RowStart(maxDots + 1, i) + j)
      <==> j == RowCount(maxDots + 1, i) - 1
  {
    var rows, dots, k := maxDots + 1, LatticeDots(maxDots, spacing), RowStart(maxDots + 1, i) + j;
    DotAtRow(maxDots, spacing, i, j);
    if j == RowCount(rows, i) - 1 {
      forall k2 | k < k2 < |dots| ensures dots[k2].y != dots[k].y {
        var i2, j2 := DotOf(maxDots, spacing, k2);
        IndexOrder(rows, i, j, i2, j2);
        ScaleInjective(-(i2 as int), -(i as int), spacing);
      }
    } else {
      DotAtRow(maxDots, spacing, i, j + 1);
      assert dots[k + 1].y == dots[k].y;
    }
  }

  /** The first and the last dot of every row of the layout, rows 0 .. top - 1. */
  function RowEnds(rows: nat, top: nat): set<nat>
    requires top <= rows
  {
    if top == 0 then {}
    else
      var s := RowStart(rows, top - 1);
      RowEnds(rows, top - 1) + {s, s + RowCount(rows, top - 1) - 1}
  }

  /** find_border_indices on the layout finds exactly the first and the last dot of every
      row. */
  lemma LatticeBorders(maxDots: nat, spacing: real, k: nat)
    requires spacing > 0.0
    ensures k < |LatticeDots(maxDots, spacing)| && IsBorder(LatticeDots(maxDots, spacing), k)
      <==> k in RowEnds(maxDots + 1, maxDots + 1)
  {
    var rows := maxDots + 1;
    if k < |LatticeDots(maxDots, spacing)| {
      var i, j := DotOf(maxDots, spacing, k);
      LatticeRowFirst(maxDots, spacing, i, j);
      LatticeRowLast(maxDots, spacing, i, j);
      RowEndsMembers(rows, rows, k, i, j);
    }
    if k in RowEnds(rows, rows) {
      var i, j := RowEndsWitness(rows, rows, k);
      DotAtRow(maxDots, spacing, i, j);
    }
  }

  /** Index k = (i, j) is a row end of rows 0 .. top - 1 exactly when i < top and j is an
      end of row i. */
  lemma {:induction false} RowEndsMembers(rows: nat, top: nat, k: nat, i: nat, j: nat)
    requires top <= rows && i < rows && j < RowCount(rows, i) && k == RowStart(rows, i) + j
    ensures k in RowEnds(rows, top) <==> i < top && (j == 0 || j == RowCount(rows, i) - 1)
    decreases top
  {
    if top > 0 {
      RowEndsMembers(rows, top - 1, k, i, j);
      var t := top - 1;
      IndexOrder(rows, i, j, t, 0);
      IndexOrder(rows, t, RowCount(rows, t) - 1, i, j);
      IndexOrder(rows, i, j, t, RowCount(rows, t) - 1);
      IndexOrder(rows, t, 0, i, j);
    }
  }

  /** Every row end is the end of some row. */
  lemma {:induction false} RowEndsWitness(rows: nat, top: nat, k: nat) returns (i: nat, j: nat)
    requires top <= rows && k in RowEnds(rows, top)
    ensures i < top && j < RowCount(rows, i) && k == RowStart(rows, i) + j
    decreases top
  {
    var s := RowStart(rows, top - 1);
    if k in RowEnds(rows, top - 1) {
      i, j := RowEndsWitness(rows, top - 1, k);
    } else if k == s {
      i, j := top - 1, 0;
    } else {
      i, j := top - 1, RowCount(rows, top - 1) - 1;
    }
  }

  /** The first and the last row hold a single dot, every other row at least three. */
  lemma EndRowsSingle(rows: nat, i: nat)
    requires i < rows
    ensures RowCount(rows, i) == 1 <==> i == 0 || i == rows - 1
    ensures RowCount(rows, i) != 1 ==> RowCount(rows, i) >= 3
  {
  }

  /** Row ends of rows 0 .. top - 1 all come before row top. */
  lemma {:induction false} RowEndsBelow(rows: nat, top: nat)
    requires top <= rows
    ensures forall k :: k in RowEnds(rows, top) ==> k < RowStart(rows, top)
    decreases top
  {
    if top > 0 {
      RowEndsBelow(rows, top - 1);
      RowStartStep(rows, top - 1);
      RowStartLe(rows, top - 1, top);
    }
  }

  /** So a layout of rows >= 2 rows has 2 * rows - 2 border dots. */
  lemma {:induction false} RowEndsCount(rows: nat, top: nat)
    requires top <= rows
    ensures |RowEnds(rows, top)| == if top == 0 then 0 else if top == rows && rows >= 2 then 2 * top - 2 else 2 * top - 1
    decreases top
  {
    if top > 0 {
      var t := top - 1;
      RowEndsCount(rows, t);
      RowEndsBelow(rows, t);
      EndRowsSingle(rows, t);
      var prev, s, c := RowEnds(rows, t), RowStart(rows, t), RowCount(rows, t);
      assert RowEnds(rows, top) == prev + {s, s + c - 1};
      AddTwo(prev, s, s + c - 1);
      assert c == 1 <==> t == 0 || t == rows - 1;
    }
  }

  lemma AddTwo(prev: set<nat>, s: nat, e: nat)
    requires s !in prev && e !in prev
    ensures |prev + {s, e}| == |prev| + if s == e then 1 else 2
  {
    if s == e {
      assert prev + {s, e} == prev + {s};
    } else {
      assert prev + {s, e} == prev + {s} + {e};
    }
  }

  /** The number of border dots generate_kolam2 leaves without a diamond: 2 * maxDots, or
      the single dot when maxDots is 0. */
  lemma BorderCount(maxDots: nat, spacing: real)
    requires spacing > 0.0
    ensures var b := set k | 0 <= k < |LatticeDots(maxDots, spacing)| && IsBorder(LatticeDots(maxDots, spacing), k);
      |b| == if maxDots == 0 then 1 else 2 * maxDots
  {
    var dots, rows := LatticeDots(maxDots, spacing), maxDots + 1;
    var b := set k | 0 <= k < |dots| && IsBorder(dots, k);
    forall k ensures k in b <==> k in RowEnds(rows, rows) {
      LatticeBorders(maxDots, spacing, k);
    }
    assert b == RowEnds(rows, rows);
    RowEndsCount(rows, rows);
  }

  // ---------------------------------------------------------------------------------
  // generate_kolam2

  /** Iteration idx of the diamond loop: a diamond of size spacing unless idx is a
      border index. */
  function DiamondStep(dots: seq<Point>, borders: set<nat>, spacing: real): (nat, nat) -> seq<Motif> {
    (row: nat, idx: nat) => if idx < |dots| && idx !in borders then [Diamond(dots[idx], spacing)] else []
  }

  /** Iteration (idx1, idx2) of the connection loops: a segment when idx1 < idx2 and the
      two dots are one spacing apart along both axes. */
  function LinkStep(dots: seq<Point>, spacing: real): (nat, nat) -> seq<Motif> {
    (a: nat, b: nat) => if Linked(dots, spacing, a, b) then [Segment(dots[a], dots[b])] else []
  }

  /** The test of the connection loops. */
  predicate Linked(dots: seq<Point>, spacing: real, a: nat, b: nat) {
    a < b < |dots| && Abs(dots[a].x - dots[b].x) == spacing && Abs(dots[a].y - dots[b].y) == spacing
  }

  function Diamonds(dots: seq<Point>, borders: set<nat>, spacing: real): seq<Motif> {
    GridRow(DiamondStep(dots, borders, spacing), 0, |dots|)
  }

  function Links(dots: seq<Point>, spacing: real): seq<Motif> {
    Grid(LinkStep(dots, spacing), |dots|, |dots|)
  }

  /** "for idx, (x, y) in enumerate(dot_positions): if idx not in borders: draw_diamond2". */
  method DrawDiamonds(dots: seq<Point>, borders: set<nat>, spacing: real) returns (ms: seq<Motif>)
    ensures ms == Diamonds(dots, borders, spacing)
  {
    ms := [];
    for idx := 0 to |dots|
      invariant ms == GridRow(DiamondStep(dots, borders, spacing), 0, idx)
    {
      if idx !in borders {
        ms := ms + [Diamond(dots[idx], spacing)];
      } else {
        assert DiamondStep(dots, borders, spacing)(0, idx) == [];
        assert ms + [] == ms;
      }
    }
  }

  /** The double loop over (idx1, idx2) that joins diagonal neighbours. */
  method DrawLinks(dots: seq<Point>, spacing: real) returns (ms: seq<Motif>)
    ensures ms == Links(dots, spacing)
  {
    ms := [];
    for a := 0 to |dots|
      invariant ms == Grid(LinkStep(dots, spacing), a, |dots|)
    {
      var row := LinkRow(dots, spacing, a);
      ms := ms + row;
    }
  }

  method LinkRow(dots: seq<Point>, spacing: real, a: nat) returns (ms: seq<Motif>)
    requires a < |dots|
    ensures ms == GridRow(LinkStep(dots, spacing), a, |dots|)
  {
    ms := [];
    for b := 0 to |dots|
      invariant ms == GridRow(LinkStep(dots, spacing), a, b)
    {
      var p, q := dots[a], dots[b];
      if a < b && Abs(p.x - q.x) == spacing && Abs(p.y - q.y) == spacing {
        assert Linked(dots, spacing, a, b);
        ms := ms + [Segment(p, q)];
      } else {
        assert !Linked(dots, spacing, a, b);
        assert LinkStep(dots, spacing)(a, b) == [];
        assert ms + [] == ms;
      }
    }
  }

  /** generate_kolam2: lay out the dots, find the borders, then draw the scatter (when
      shown), the diamonds and the connecting segments, in that order. */
  method GenerateKolam2(maxDots: nat, spacing: real, showDots: bool) returns (ms: seq<Motif>)
    ensures var dots := LatticeDots(maxDots, spacing);
      ms == (if showDots then Scatter(dots) else [])
        + Diamonds(dots, BorderSet(dots), spacing) + Links(dots, spacing)
  {
    var dots, rows := GenerateDotPositions(maxDots, spacing);
    var borders := FindBorderIndices(dots);
    assert borders == BorderSet(dots);
    ms := [];
    if showDots {
      ms := seq(|dots|, k requires 0 <= k < |dots| => Dot(dots[k]));
    }
    var diamonds := DrawDiamonds(dots, borders, spacing);
    var links := DrawLinks(dots, spacing);
    ms := ms + diamonds + links;
  }

  /** The indices find_border_indices returns. */
  ghost function BorderSet(dots: seq<Point>): set<nat> {
    set k: nat | k < |dots| && IsBorder(dots, k)
  }

  /** A diamond is drawn on a dot exactly when the dot is not a border dot. */
  lemma DiamondsMembers(dots: seq<Point>, borders: set<nat>, spacing: real, m: Motif)
    ensures |Diamonds(dots, borders, spacing)| <= |dots|
    ensures m in Diamonds(dots, borders, spacing)
      <==> exists k :: 0 <= k < |dots| && k !in borders && m == Diamond(dots[k], spacing)
  {
    var cell := DiamondStep(dots, borders, spacing);
    DiamondsLength(cell, dots, borders, spacing, |dots|);
    if m in GridRow(cell, 0, |dots|) {
      var k := GridRowWitness(cell, 0, |dots|, m);
      assert m == Diamond(dots[k], spacing);
    }
    if exists k :: 0 <= k < |dots| && k !in borders && m == Diamond(dots[k], spacing) {
      var k :| 0 <= k < |dots| && k !in borders && m == Diamond(dots[k], spacing);
      assert m in cell(0, k);
      GridRowHas(cell, 0, |dots|, k, m);
    }
  }

  /** With no dot repeated, the diamond of dot k is drawn exactly once when k is not a
      border index and not at all when it is. */
  lemma DiamondsOnce(dots: seq<Point>, borders: set<nat>, spacing: real, k: nat)
    requires Distinct(dots) && k < |dots|
    ensures multiset(Diamonds(dots, borders, spacing))[Diamond(dots[k], spacing)]
      == if k in borders then 0 else 1
  {
    var cell, m := DiamondStep(dots, borders, spacing), Diamond(dots[k], spacing);
    forall j: nat | j < |dots| && j != k ensures m !in cell(0, j) {
      assert dots[j] != dots[k];
    }
    if k in borders {
      GridRowNone(cell, 0, |dots|, m);
    } else {
      assert cell(0, k) == [m];
      GridRowOnce(cell, 0, |dots|, k, m);
    }
  }

  /** On the layout, the dot in row i at place j carries exactly one diamond when
      0 < j < count - 1, and none otherwise. */
  lemma LatticeDiamondsOnce(maxDots: nat, spacing: real, i: nat, j: nat)
    requires spacing > 0.0 && i < maxDots + 1 && j < RowCount(maxDots + 1, i)
    ensures var dots, k := LatticeDots(maxDots, spacing), RowStart(maxDots + 1, i) + j;
      k < |dots|
      && multiset(Diamonds(dots, BorderSet(dots), spacing))[Diamond(dots[k], spacing)]
         == if 0 < j < RowCount(maxDots + 1, i) - 1 then 1 else 0
  {
    var dots, k := LatticeDots(maxDots, spacing), RowStart(maxDots + 1, i) + j;
    LatticeRowFirst(maxDots, spacing, i, j);
    LatticeRowLast(maxDots, spacing, i, j);
    assert k in BorderSet(dots) <==> IsBorder(dots, k);
    LatticeSitesDistinct(maxDots);
    PlacedDistinct(LatticeSites(maxDots), spacing);
    DiamondsOnce(dots, BorderSet(dots), spacing, k);
  }

  lemma {:induction false} DiamondsLength(cell: (nat, nat) -> seq<Motif>, dots: seq<Point>, borders: set<nat>, spacing: real, n: nat)
    requires cell == DiamondStep(dots, borders, spacing) && n <= |dots|
    ensures |GridRow(cell, 0, n)| <= n
    decreases n
  {
    if n > 0 {
      DiamondsLength(cell, dots, borders, spacing, n - 1);
    }
  }

  /** A segment joins two dots exactly when the first comes earlier and they are one
      spacing apart along both axes: every such pair is joined, by one segment drawn from
      the earlier dot. */
  lemma LinksMembers(dots: seq<Point>, spacing: real, m: Motif)
    ensures m in Links(dots, spacing)
      <==> exists a: nat, b: nat :: Linked(dots, spacing, a, b) && m == Segment(dots[a], dots[b])
  {
    var cell := LinkStep(dots, spacing);
    if m in Grid(cell, |dots|, |dots|) {
      var a, b := GridWitness(cell, |dots|, |dots|, m);
      assert Linked(dots, spacing, a, b) && m == Segment(dots[a], dots[b]);
    }
    if exists a: nat, b: nat :: Linked(dots, spacing, a, b) && m == Segment(dots[a], dots[b]) {
      var a: nat, b: nat :| Linked(dots, spacing, a, b) && m == Segment(dots[a], dots[b]);
      assert m in cell(a, b);
      GridHas(cell, |dots|, |dots|, a, b, m);
    }
  }

  /** With no dot repeated, each linked pair is drawn exactly once, from the earlier dot,
      and never a second time from the later one. */
  lemma LinksOnce(dots: seq<Point>, spacing: real, a: nat, b: nat)
    requires Distinct(dots) && Linked(dots, spacing, a, b)
    ensures multiset(Links(dots, spacing))[Segment(dots[a], dots[b])] == 1
    ensures multiset(Links(dots, spacing))[Segment(dots[b], dots[a])] == 0
  {
    var cell, n := LinkStep(dots, spacing), |dots|;
    var m, back := Segment(dots[a], dots[b]), Segment(dots[b], dots[a]);
    assert cell(a, b) == [m];
    forall i: nat, j: nat | i < n && j < n && (i != a || j != b) ensures m !in cell(i, j) {
      LinkDrawnAt(dots, spacing, a, b, i, j);
    }
    GridOnce(cell, n, n, a, b, m);
    forall i: nat, j: nat | i < n && j < n ensures back !in cell(i, j) {
      LinkDrawnAt(dots, spacing, b, a, i, j);
    }
    GridNone(cell, n, n, back);
  }

  /** Only iteration (p, q) can draw the segment from dot p to dot q. */
  lemma LinkDrawnAt(dots: seq<Point>, spacing: real, p: nat, q: nat, i: nat, j: nat)
    requires Distinct(dots) && p < |dots| && q < |dots|
    ensures Segment(dots[p], dots[q]) in LinkStep(dots, spacing)(i, j)
      ==> i == p && j == q && Linked(dots, spacing, p, q)
  {
    if Linked(dots, spacing, i, j) {
      assert LinkStep(dots, spacing)(i, j) == [Segment(dots[i], dots[j])];
      assert dots[i] == dots[p] ==> i == p;
      assert dots[j] == dots[q] ==> j == q;
    }
  }

  /** The layout repeats no site. */
  lemma LatticeSitesDistinct(maxDots: nat)
    ensures DistinctSites(LatticeSites(maxDots))
  {
    var rows, ss := maxDots + 1, LatticeSites(maxDots);
    forall a, b | 0 <= a < b < |ss| ensures ss[a] != ss[b] {
      var i, j := SiteRow(rows, rows, a);
      var i2, j2 := SiteRow(rows, rows, b);
      if i == i2 {
        assert j != j2;
      }
    }
  }

  /** On the layout of generate_dot_positions every diagonal neighbour pair is connected
      by exactly one segment. */
  lemma LatticeLinksOnce(maxDots: nat, spacing: real, a: nat, b: nat)
    requires spacing > 0.0 && Linked(LatticeDots(maxDots, spacing), spacing, a, b)
    ensures var dots := LatticeDots(maxDots, spacing);
      && multiset(Links(dots, spacing))[Segment(dots[a], dots[b])] == 1
      && multiset(Links(dots, spacing))[Segment(dots[b], dots[a])] == 0
  {
    LatticeSitesDistinct(maxDots);
    PlacedDistinct(LatticeSites(maxDots), spacing);
    LinksOnce(LatticeDots(maxDots, spacing), spacing, a, b);
  }

  /** On the layout the test is lattice adjacency: two placed sites are one spacing apart
      along both axes exactly when their columns and their rows differ by one. */
  lemma DiagonalNeighbours(p: Site, q: Site, spacing: real)
    requires spacing > 0.0
    ensures Abs(Place(p, spacing).x - Place(q, spacing).x) == spacing
         && Abs(Place(p, spacing).y - Place(q, spacing).y) == spacing
      <==> (p.col - q.col == 1 || q.col - p.col == 1) && (p.row - q.row == 1 || q.row - p.row == 1)
  {
    UnitGap(p.col, q.col, spacing);
    UnitGap(p.row, q.row, spacing);
  }

  lemma UnitGap(u: int, v: int, spacing: real)
    requires spacing > 0.0
    ensures Abs(Scale(u, spacing) - Scale(v, spacing)) == spacing <==> (u - v == 1 || v - u == 1)
  {
    var d := Scale(u, spacing) - Scale(v, spacing);
    assert d == (u - v) as real * spacing;
    if u - v >= 0 {
      ScaleInjective(u - v, 1, spacing);
    } else {
      ScaleInjective(v - u, 1, spacing);
      assert -d == (v - u) as real * spacing;
    }
  }

  /** The layout's diamonds sit exactly on the dots strictly inside their row. */
  lemma LatticeDiamonds(maxDots: nat, spacing: real, i: nat, j: nat)
    requires spacing > 0.0 && i < maxDots + 1 && j < RowCount(maxDots + 1, i)
    ensures var dots, k := LatticeDots(maxDots, spacing), RowStart(maxDots + 1, i) + j;
      k < |dots|
      && (Diamond(dots[k], spacing) in DiamondStep(dots, BorderSet(dots), spacing)(0, k)
          <==> 0 < j < RowCount(maxDots + 1, i) - 1)
  {
    var dots, k := LatticeDots(maxDots, spacing), RowStart(maxDots + 1, i) + j;
    LatticeRowFirst(maxDots, spacing, i, j);
    LatticeRowLast(maxDots, spacing, i, j);
    assert k in BorderSet(dots) <==> IsBorder(dots, k);
  }
}
