/** The image measures of the analyzers: the left-right symmetry score of a grey-level (or
    edge) matrix and the edge density of an edge map. The grey matrix, the edge map and
    the contour count come from OpenCV and are inputs here. A matrix is a sequence of
    equally long rows of pixel values. */
module Analyzer {

  type Matrix = seq<seq<int>>

  /** h rows of w pixels each. */
  ghost predicate Rect(g: Matrix, w: nat) {
    forall r :: 0 <= r < |g| ==> |g[r]| == w
  }

  /** cv2.threshold(v, 128, 255, THRESH_BINARY): 255 above 128, 0 otherwise. */
  function Binary(v: int): int {
    if v > 128 then 255 else 0
  }

  /** Two pixels agree: as they are, or, after thresholding, when binarize holds. */
  predicate Same(a: int, b: int, binarize: bool) {
    if binarize then Binary(a) == Binary(b) else a == b
  }

  // ---------------------------------------------------------------------------------
  // The array pipeline of analyze_kolam

  function Reverse(s: seq<int>): seq<int>
  {
    seq(|s|, k requires 0 <= k < |s| => s[|s| - 1 - k])
  }

  /** Flipping twice restores a row, and a flip only reorders its pixels. */
  lemma {:induction false} ReverseInvolution(s: seq<int>)
    ensures Reverse(Reverse(s)) == s
    ensures multiset(Reverse(s)) == multiset(s)
    decreases |s|
  {
    if |s| > 0 {
      ReverseInvolution(s[1..]);
      assert Reverse(s) == Reverse(s[1..]) + [s[0]];
      assert s == [s[0]] + s[1..];
    }
  }

  /** m[:, :width]: the left part gray[:, :mid], and the truncation of both parts to their
      common width. */
  function Columns(m: Matrix, width: nat): Matrix
    requires forall r :: 0 <= r < |m| ==> width <= |m[r]|
  {
    seq(|m|, r requires 0 <= r < |m| => m[r][..width])
  }

  /** cv2.flip(gray[:, mid:], 1): the right part, each row reversed. */
  function FlippedRight(g: Matrix, mid: nat): Matrix
    requires forall r :: 0 <= r < |g| ==> mid <= |g[r]|
  {
    seq(|g|, r requires 0 <= r < |g| => Reverse(g[r][mid..]))
  }

  /** np.sum(a == b) over one row, first n columns. */
  function RowAgree(a: seq<int>, b: seq<int>, n: nat, binarize: bool): nat
    requires n <= |a| && n <= |b|
  {
    if n == 0 then 0 else RowAgree(a, b, n - 1, binarize) + (if Same(a[n - 1], b[n - 1], binarize) then 1 else 0)
  }

  /** np.sum(a == b) over the first n rows of two matrices of width width. */
  function Agree(a: Matrix, b: Matrix, n: nat, width: nat, binarize: bool): nat
    requires n <= |a| && n <= |b|
    requires forall r :: 0 <= r < n ==> width <= |a[r]| && width <= |b[r]|
  {
    if n == 0 then 0 else Agree(a, b, n - 1, width, binarize) + RowAgree(a[n - 1], b[n - 1], width, binarize)
  }

  /** final.py / final2.py / final3.py (binarize false) and final4.py (binarize true):
      split at mid = w // 2, flip the right part, cut both to the narrower width, and
      divide the number of agreeing pixels by the size of the left part. */
  function PipelineScore(g: Matrix, w: nat, binarize: bool): real
    requires Rect(g, w) && |g| >= 1 && w >= 2
  {
    var mid := w / 2;
    var left, right := Columns(g, mid), FlippedRight(g, mid);
    var minw := if mid <= w - mid then mid else w - mid;
    var l, rt := Columns(left, minw), Columns(right, minw);
    Agree(l, rt, |g|, minw, binarize) as real / (|g| * minw) as real
  }

  /** Imagerecogniser_principles.py: edges[:, :w//2] against np.fliplr(edges[:, w//2:]),
      without a cut; the two halves have the same shape only for an even width. */
  function RecogniserScore(edges: Matrix, w: nat): real
    requires Rect(edges, w) && |edges| >= 1 && w >= 2 && w % 2 == 0
  {
    var left, right := Columns(edges, w / 2), FlippedRight(edges, w / 2);
    Agree(left, right, |edges|, w / 2, false) as real / (|edges| * (w / 2)) as real
  }

  /** final2.py's guarded score: when the grey conversion raises, the except branch sets
      the score to 0.0; otherwise it is the share of mirrored pixel pairs. */
  function GuardedScore(gray: Option<Matrix>, w: nat): (s: real)
    requires gray.Some? ==> Rect(gray.value, w) && |gray.value| >= 1 && w >= 2
    ensures gray.None? ==> s == 0.0
    ensures gray.Some? ==> s == MirrorScore(gray.value, w, false)
    ensures 0.0 <= s <= 1.0
  {
    match gray
    case None => 0.0
    case Some(g) =>
      ScoreBounds(g, w, false);
      PipelineIsMirror(g, w, false);
      PipelineScore(g, w, false)
  }

  datatype Option<T> = None | Some(value: T)

  // ---------------------------------------------------------------------------------
  // The score as a count of mirrored pixel pairs

  /** Columns c < n of a row that agree with their mirror column w - 1 - c. */
  function MirrorRow(row: seq<int>, w: nat, n: nat, binarize: bool): nat
    requires |row| == w && 2 * n <= w
  {
    if n == 0 then 0 else MirrorRow(row, w, n - 1, binarize) + (if Same(row[n - 1], row[w - n], binarize) then 1 else 0)
  }

  /** #{(r, c) : r < n, c < w // 2, gray[r][c] agrees with gray[r][w - 1 - c]}. */
  function MirrorPairs(g: Matrix, w: nat, n: nat, binarize: bool): nat
    requires Rect(g, w) && n <= |g|
  {
    if n == 0 then 0 else MirrorPairs(g, w, n - 1, binarize) + MirrorRow(g[n - 1], w, w / 2, binarize)
  }

  /** The score the analyzers mean: the share of mirrored pixel pairs that agree. */
  function MirrorScore(g: Matrix, w: nat, binarize: bool): real
    requires Rect(g, w) && |g| >= 1 && w >= 2
  {
    MirrorPairs(g, w, |g|, binarize) as real / (|g| * (w / 2)) as real
  }

  /** Every pixel pair agrees with its mirror image. */
  ghost predicate MirrorSymmetric(g: Matrix, w: nat, binarize: bool)
    requires Rect(g, w)
  {
    forall r, c :: 0 <= r < |g| && 0 <= c < w / 2 ==> Same(g[r][c], g[r][w - 1 - c], binarize)
  }

  /** No pixel pair agrees with its mirror image. */
  ghost predicate MirrorOpposed(g: Matrix, w: nat, binarize: bool)
    requires Rect(g, w)
  {
    forall r, c :: 0 <= r < |g| && 0 <= c < w / 2 ==> !Same(g[r][c], g[r][w - 1 - c], binarize)
  }

  /** One row of the pipeline counts exactly the mirrored pairs of that row. */
  lemma {:induction false} RowAgreeIsMirror(row: seq<int>, w: nat, mid: nat, n: nat, binarize: bool)
    requires |row| == w && mid == w / 2 && n <= mid
    ensures RowAgree(row[..mid], Reverse(row[mid..])[..mid], n, binarize) == MirrorRow(row, w, n, binarize)
    decreases n
  {
    if n > 0 {
      RowAgreeIsMirror(row, w, mid, n - 1, binarize);
      var right := Reverse(row[mid..]);
      assert right[n - 1] == row[mid..][|row[mid..]| - 1 - (n - 1)] == row[w - n];
    }
  }

  lemma {:induction false} AgreeIsMirror(g: Matrix, w: nat, n: nat, binarize: bool)
    requires Rect(g, w) && w >= 2 && n <= |g|
    ensures var mid := w / 2;
      Agree(Columns(Columns(g, mid), mid), Columns(FlippedRight(g, mid), mid), n, mid, binarize)
        == MirrorPairs(g, w, n, binarize)
    decreases n
  {
    if n > 0 {
      var mid := w / 2;
      AgreeIsMirror(g, w, n - 1, binarize);
      var row := g[n - 1];
      assert Columns(Columns(g, mid), mid)[n - 1] == row[..mid][..mid];
      assert row[..mid][..mid] == row[..mid];
      assert Columns(FlippedRight(g, mid), mid)[n - 1] == Reverse(row[mid..])[..mid];
      RowAgreeIsMirror(row, w, mid, mid, binarize);
    }
  }

  /** The numpy pipeline computes the mirrored-pair share: the left part is never the
      wider one, so the cut keeps w // 2 columns and the middle column of an odd-width
      image is left out of the comparison. */
  lemma PipelineIsMirror(g: Matrix, w: nat, binarize: bool)
    requires Rect(g, w) && |g| >= 1 && w >= 2
    ensures PipelineScore(g, w, binarize) == MirrorScore(g, w, binarize)
  {
    AgreeIsMirror(g, w, |g|, binarize);
  }

  /** The edge-map score of Imagerecogniser_principles.py is the same share. */
  lemma RecogniserIsMirror(edges: Matrix, w: nat)
    requires Rect(edges, w) && |edges| >= 1 && w >= 2 && w % 2 == 0
    ensures RecogniserScore(edges, w) == MirrorScore(edges, w, false)
  {
    var mid := w / 2;
    AgreeIsMirror(edges, w, |edges|, false);
    var left, right := Columns(edges, mid), FlippedRight(edges, mid);
    forall r | 0 <= r < |edges| ensures Columns(left, mid)[r] == left[r] && Columns(right, mid)[r] == right[r] {
      assert left[r][..mid] == left[r];
      assert right[r][..mid] == right[r];
    }
    assert Columns(left, mid) == left;
    assert Columns(right, mid) == right;
  }

  // ---------------------------------------------------------------------------------
  // Bounds

  lemma {:induction false} MirrorRowBound(row: seq<int>, w: nat, n: nat, binarize: bool)
    requires |row| == w && 2 * n <= w
    ensures MirrorRow(row, w, n, binarize) <= n
    ensures MirrorRow(row, w, n, binarize) == n <==> forall c :: 0 <= c < n ==> Same(row[c], row[w - 1 - c], binarize)
    ensures MirrorRow(row, w, n, binarize) == 0 <==> forall c :: 0 <= c < n ==> !Same(row[c], row[w - 1 - c], binarize)
    decreases n
  {
    if n > 0 {
      MirrorRowBound(row, w, n - 1, binarize);
    }
  }

  lemma {:induction false} MirrorPairsBound(g: Matrix, w: nat, n: nat, binarize: bool)
    requires Rect(g, w) && n <= |g|
    ensures MirrorPairs(g, w, n, binarize) <= n * (w / 2)
    ensures MirrorPairs(g, w, n, binarize) == n * (w / 2)
      <==> forall r, c :: 0 <= r < n && 0 <= c < w / 2 ==> Same(g[r][c], g[r][w - 1 - c], binarize)
    decreases n
  {
    if n > 0 {
      MirrorPairsBound(g, w, n - 1, binarize);
      MirrorRowBound(g[n - 1], w, w / 2, binarize);
      MulStep(n, w / 2);
    }
  }

  lemma {:induction false} MirrorPairsNone(g: Matrix, w: nat, n: nat, binarize: bool)
    requires Rect(g, w) && n <= |g|
    ensures MirrorPairs(g, w, n, binarize) == 0
      <==> forall r, c :: 0 <= r < n && 0 <= c < w / 2 ==> !Same(g[r][c], g[r][w - 1 - c], binarize)
    decreases n
  {
    if n > 0 {
      MirrorPairsNone(g, w, n - 1, binarize);
      MirrorRowBound(g[n - 1], w, w / 2, binarize);
    }
  }

  lemma MulStep(n: nat, k: nat)
    requires n > 0
    ensures n * k == (n - 1) * k + k
  {
  }

  /** Dividing by a positive total keeps the order of two counts. */
  lemma DivMonotone(a: real, b: real, t: real)
    requires 0.0 <= a <= b && t > 0.0
    ensures a / t <= b / t
  {
    var qa, qb := a / t, b / t;
    assert qa * t == a && qb * t == b;
    assert (qb - qa) * t == b - a;
  }

  /** A ratio of a count to a positive total it cannot exceed. */
  lemma Ratio(m: nat, n: nat)
    requires 0 < n && m <= n
    ensures 0.0 <= m as real / n as real <= 1.0
    ensures m as real / n as real == 1.0 <==> m == n
    ensures m as real / n as real == 0.0 <==> m == 0
  {
    var q := m as real / n as real;
    assert q * n as real == m as real;
  }

  /** The score lies in [0, 1]; it is 1 exactly for a mirror-symmetric matrix and 0
      exactly when no pixel agrees with its mirror image. */
  lemma ScoreBounds(g: Matrix, w: nat, binarize: bool)
    requires Rect(g, w) && |g| >= 1 && w >= 2
    ensures 0.0 <= PipelineScore(g, w, binarize) <= 1.0
    ensures PipelineScore(g, w, binarize) == 1.0 <==> MirrorSymmetric(g, w, binarize)
    ensures PipelineScore(g, w, binarize) == 0.0 <==> MirrorOpposed(g, w, binarize)
  {
    PipelineIsMirror(g, w, binarize);
    MirrorPairsBound(g, w, |g|, binarize);
    MirrorPairsNone(g, w, |g|, binarize);
    Ratio(MirrorPairs(g, w, |g|, binarize), |g| * (w / 2));
  }

  /** Thresholding first can only raise the score: equal pixels stay equal. */
  lemma {:induction false} BinarizeRaises(g: Matrix, w: nat, n: nat)
    requires Rect(g, w) && n <= |g|
    ensures MirrorPairs(g, w, n, false) <= MirrorPairs(g, w, n, true)
    decreases n
  {
    if n > 0 {
      BinarizeRaises(g, w, n - 1);
      BinarizeRaisesRow(g[n - 1], w, w / 2);
    }
  }

  lemma {:induction false} BinarizeRaisesRow(row: seq<int>, w: nat, n: nat)
    requires |row| == w && 2 * n <= w
    ensures MirrorRow(row, w, n, false) <= MirrorRow(row, w, n, true)
    decreases n
  {
    if n > 0 {
      BinarizeRaisesRow(row, w, n - 1);
    }
  }

  lemma BinarizedScoreAtLeast(g: Matrix, w: nat)
    requires Rect(g, w) && |g| >= 1 && w >= 2
    ensures PipelineScore(g, w, false) <= PipelineScore(g, w, true)
  {
    PipelineIsMirror(g, w, false);
    PipelineIsMirror(g, w, true);
    BinarizeRaises(g, w, |g|);
    DivMonotone(MirrorPairs(g, w, |g|, false) as real, MirrorPairs(g, w, |g|, true) as real, (|g| * (w / 2)) as real);
  }

  // ---------------------------------------------------------------------------------
  // Edge density

  function RowNonZero(row: seq<int>, n: nat): nat
    requires n <= |row|
  {
    if n == 0 then 0 else RowNonZero(row, n - 1) + (if row[n - 1] > 0 then 1 else 0)
  }

  /** np.sum(edges > 0) over the first n rows. */
  function NonZero(e: Matrix, w: nat, n: nat): nat
    requires Rect(e, w) && n <= |e|
  {
    if n == 0 then 0 else NonZero(e, w, n - 1) + RowNonZero(e[n - 1], w)
  }

  /** line_density = np.sum(edges > 0) / edges.size. */
  function Density(e: Matrix, w: nat): real
    requires Rect(e, w) && |e| >= 1 && w >= 1
  {
    NonZero(e, w, |e|) as real / (|e| * w) as real
  }

  lemma {:induction false} RowNonZeroBound(row: seq<int>, n: nat)
    requires n <= |row|
    ensures RowNonZero(row, n) <= n
    ensures RowNonZero(row, n) == n <==> forall c :: 0 <= c < n ==> row[c] > 0
    ensures RowNonZero(row, n) == 0 <==> forall c :: 0 <= c < n ==> row[c] <= 0
    decreases n
  {
    if n > 0 {
      RowNonZeroBound(row, n - 1);
    }
  }

  lemma {:induction false} NonZeroBound(e: Matrix, w: nat, n: nat)
    requires Rect(e, w) && n <= |e|
    ensures NonZero(e, w, n) <= n * w
    ensures NonZero(e, w, n) == n * w <==> forall r, c :: 0 <= r < n && 0 <= c < w ==> e[r][c] > 0
    ensures NonZero(e, w, n) == 0 <==> forall r, c :: 0 <= r < n && 0 <= c < w ==> e[r][c] <= 0
    decreases n
  {
    if n > 0 {
      NonZeroBound(e, w, n - 1);
      RowNonZeroBound(e[n - 1], w);
      MulStep(n, w);
    }
  }

  /** The density lies in [0, 1]; it is 1 exactly when every pixel is an edge pixel and 0
      exactly when none is. */
  lemma DensityBounds(e: Matrix, w: nat)
    requires Rect(e, w) && |e| >= 1 && w >= 1
    ensures 0.0 <= Density(e, w) <= 1.0
    ensures Density(e, w) == 1.0 <==> forall r, c :: 0 <= r < |e| && 0 <= c < w ==> e[r][c] > 0
    ensures Density(e, w) == 0.0 <==> forall r, c :: 0 <= r < |e| && 0 <= c < w ==> e[r][c] <= 0
  {
    NonZeroBound(e, w, |e|);
    Ratio(NonZero(e, w, |e|), |e| * w);
  }
}
