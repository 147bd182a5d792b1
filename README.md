# Kolam generators and analyzers in Dafny

This project models the drawing and analysis core of a Streamlit kolam application. A
kolam is a pattern of lines, diamonds, loops and arcs drawn around a lattice of dots. The
application has several generations of one app: `final.py`, `final2.py`, `final3.py`,
`final4.py`, the stand-alone `kolam_app.py` and `unsimilar_dot.py`, and the principle
analyzer `Imagerecogniser_principles.py`. The model covers three parts:

- **Generators.** Each generator becomes a method that returns the *display list*: the
  sequence of motifs (`Segment`, `Diamond`, `TiltedDiamond`, `Arc`, `Loop`, `Dot`) that
  matplotlib would be asked to draw, in drawing order. The loops of the source stay loops,
  and each method is proved equal to a specification function. Lemmas about those
  functions state what the drawings are:
  - how many motifs there are;
  - exactly which motifs appear, as an iff;
  - where the arcs meet;
  - which dots count as borders.
- **Image measures.** The left/right symmetry score and the edge density on integer pixel
  matrices. The numpy pipeline (slice, flip, truncate, compare) is proved equal to a
  closed "mirrored pair" formula. That formula is then bounded and characterised.
- **Design principles.** The threshold rules that turn the three measures into
  paragraphs, and the `"\n\n".join` that builds the downloadable report.

Modules:

| file | module | models |
|---|---|---|
| `Geometry.dfy` | `Geometry` | points, lattice sites, motifs, the diamond outline and spokes, quarter points of arcs |
| `GridLayouts.dfy` | `GridLayouts` | the double loop `for i: for j: cell(i, j)` and the single loop `for i: step(i)` as spec functions `Grid`/`Strip`, with the loop methods and membership/length lemmas; the per-cell drawing rules of every fixed-grid kolam type |
| `KolamTypes.dfy` | `KolamTypes` | `generate_kolam` of final.py/final2.py, the basic generator of final3.py/final4.py, and the Diamond with Arcs generators of final3.py/final4.py |
| `KolamApp.dfy` | `KolamApp` | the Generate handler of kolam_app.py |
| `DiamondLattice.dfy` | `DiamondLattice` | `generate_dot_positions`, `find_border_indices` and `generate_kolam2` (the "Unsymmetrical Dots" tab; the same code in all four `final*.py`) |
| `UnsimilarLattice.dfy` | `UnsimilarLattice` | `generate_pattern` of unsimilar_dot.py |
| `Analyzer.dfy` | `Analyzer` | `analyze_kolam`'s symmetry score and line density in every analyzer, and final2.py's exception fallback |
| `Principles.dfy` | `Principles` | `generate_principles` of every analyzer and the report join |

Conventions:

- **Coordinates.** Lattice coordinates are integers (`Site`). A dot's position is the site
  scaled by the spacing (`Geometry.Scale`), in exact real arithmetic.
- **Pixel values.** Pixels are unbounded integers; 8-bit images only ever hold 0..255.

## Model

| member | source | states |
|---|---|---|
| `Geometry.ScatterMembers` | final.py:149-151 | a motif is in the scatter plot iff it is the dot of one of the points |
| `Geometry.ScatterAppend` | final.py:149-151 | scattering a concatenation is the concatenation of the scatters |
| `Geometry.PositionsAppend` | final.py:115-122 | placing rows one after another gives the concatenation of their points |
| `Geometry.ScaleInjective` | final.py:157 | with a positive spacing, scaled coordinates are equal iff the lattice coordinates are, and ordered the same way |
| `Geometry.PlacedDistinct` | final.py:120-122 | with a positive spacing, sites that are pairwise different are placed at pairwise different points |
| `Geometry.OutlineIsClosedDiamond` | final.py:30-33 | the diamond outline is a closed 5-point polygon with its vertices at taxicab distance s/2 from the centre, one on each axis |
| `Geometry.SpokesMeet` | unsimilar_dot.py:15-20 | the spoke of a centre towards a diagonal neighbour at distance s ends where the neighbour's spoke back ends |
| `Geometry.DiagonalsDistinct` | unsimilar_dot.py:49-54 | the four diagonal points at a positive distance are pairwise different |
| `Geometry.QuarterPointGeometry` | final.py:35-37 | the quarter points of an arc (0, 90, 180, 270 degrees) repeat every full turn; opposite ones are symmetric about the centre; each lies at distance r along one axis |
| `GridLayouts.CellMotifs` | final.py:63-92 | every cell of a fixed-grid kolam type draws a fixed number of motifs (5 for kolam_app.py's diamond with arcs, else 1) |
| `GridLayouts.StripMotifs` | final.py:43-46 | every iteration of a line or border-arc loop draws exactly two strokes |
| `GridLayouts.EmitGrid` | final.py:63-65 | the nested `for i in range(rows): for j in range(cols)` loop emits exactly `Grid` |
| `GridLayouts.EmitRow` | final.py:64-65 | the inner loop emits exactly one grid row |
| `GridLayouts.EmitStrip` | final.py:43-46 | `for i in range(lo, hi)` emits exactly `Strip` |
| `GridLayouts.GridOnce` | final.py:63-65 | a motif drawn once by one iteration of a double loop and by no other occurs exactly once in what the loop draws |
| `GridLayouts.GridLength` | final.py:63-65 | a grid of uniform k-motif cells has rows * cols * k motifs |
| `GridLayouts.GridMembers` | final.py:63-65 | a motif is in the grid iff some cell (i, j) with i < rows and j < cols draws it |
| `GridLayouts.StripAt` | final.py:43-46 | iteration i of a two-stroke loop puts its strokes at indices 2(i - lo) and 2(i - lo) + 1 |
| `GridLayouts.StripMembers` | final.py:70-75 | a motif is in the strip iff some iteration lo <= i < hi draws it |
| `KolamTypes.DrawDots` | final.py:55-58 | the show-dots loop draws the dot layer when shown and nothing otherwise |
| `KolamTypes.DrawPattern` | final.py:60-92 | the kolam-type dispatch draws each type's pattern |
| `KolamTypes.DrawDiamondArcs` | final3.py:309-324 | the diamond field followed by the top/bottom and then the left/right border arcs |
| `KolamTypes.GenerateKolam` | final.py:48-94 | the drawing is the dot layer followed by the chosen type's pattern; the same code is final2.py:212-258 |
| `KolamTypes.GenerateBasicKolam` | final3.py:161-189 | the basic generator (also final4.py:177-205): the dots, then the pattern in which Diamond with Arcs draws nothing and Mixed has no arcs |
| `KolamTypes.GenerateDiamondArcs` | final3.py:294-324 | the dots, then the diamonds of every cell and 4(n - 2) border arcs with the given radius and offset (also final4.py:280-307) |
| `KolamTypes.DotLayerMembers` | final.py:55-58 | the dot layer has n^2 dots, a motif is in it iff it is the dot of some (i, j) with i, j < n, and it is empty when hidden |
| `KolamTypes.StraightLinesAt` | final.py:43-46 | Straight Lines draws 2n segments; segment 2i is the horizontal line y = i across the grid and 2i + 1 the vertical line x = i |
| `KolamTypes.ConnectedDiamondsMembers` | final.py:62-65 | Connected Diamonds draws (n - 1)^2 diamonds; a motif is drawn iff it is the size-1 diamond centred in some cell |
| `KolamTypes.DiamondsInscribed` | final.py:63-65 | a cell's diamond has its vertices at the midpoints of the cell's sides, so diamonds of neighbouring cells meet |
| `KolamTypes.LoopsMembers` | final.py:76-79 | Loops/Arcs draws n^2 loops; a motif is drawn iff it is the radius-1/2.2 loop on some dot |
| `KolamTypes.LoopsApart` | final.py:76-79 | any two different motifs of Loops/Arcs are loops whose centres are at least one spacing apart on some axis, more than their two radii together |
| `KolamTypes.CheckerCell` | final.py:80-86 | Mixed draws a diamond iff i + j is even and a loop iff it is odd, centred in the cell; horizontal and vertical neighbours alternate |
| `KolamTypes.BasicAgainstFull` | final3.py:171-187 | the basic generator agrees with generate_kolam on three types; its Mixed is a prefix shorter by 4(n - 2) arcs; it draws nothing for Diamond with Arcs |
| `KolamTypes.BorderArcsLength` | final.py:70-75 | the Diamond with Arcs border has 4 * (n - 2) arcs (none for n < 2) |
| `KolamTypes.MixedArcsLength` | final.py:87-92 | the Mixed border has 4 * (n - 2) arcs |
| `KolamTypes.PatternCount` | final.py:60-92 | each type draws its reference number of motifs: 2n, (n-1)^2, (n-1)^2 + 4(n-2), n^2, (n-1)^2 + 4(n-2) |
| `KolamTypes.TopArcShape` | final.py:70-71 | top border arc i is the upper half circle at ((i - 0.5) + r, n - 1 + offset); it is centred over dot column i iff r = 0.5 |
| `KolamTypes.TopArcsChain` | final.py:70-72 | neighbouring top arcs join end to start iff r = 0.5 |
| `KolamTypes.MixedTopArcsChain` | final.py:87-89 | the same for the Mixed border arcs |
| `KolamTypes.TopArcMeetsDiamonds` | final.py:63-71 | with r = 0.5 a top arc spans from the top vertex of one border diamond to the next, lifted by the offset |
| `KolamApp.GenerateAppKolam` | kolam_app.py:80-95 | the drawing is the chosen type's pattern on the spacing-2 lattice, followed by the dots when shown |
| `KolamApp.AppDiamondsMembers` | kolam_app.py:22-33 | n^2 * (5 or 1) motifs; a tilted diamond is drawn iff it is the radius-1 diamond on some dot |
| `KolamApp.AppArcsCloseLoop` | kolam_app.py:27-33 | the four radius-1.4 arcs have the stated angle ranges and each ends where the next begins |
| `KolamApp.AppArcsThroughDot` | kolam_app.py:28-33 | every arc's circle passes through the dot it surrounds |
| `KolamApp.AppLoopsMembers` | kolam_app.py:35-39 | Loops Only draws n^2 circles; a motif is drawn iff it is the radius-0.8 circle on some dot |
| `KolamApp.AppMixedCell` | kolam_app.py:46-53 | Mixed puts a diamond on a dot iff i + j is even and a circle iff odd; neighbours alternate |
| `KolamApp.AppMixedCount` | kolam_app.py:46-53 | Mixed draws n^2 motifs, one on every dot |
| `KolamApp.AppStraightAt` | kolam_app.py:41-44 | Straight Lines draws 2n segments; segment 2i is the horizontal line y = 2i and 2i + 1 the vertical line x = 2i, both spanning 0 .. 2(n - 1) |
| `KolamApp.AppDotsMembers` | kolam_app.py:91-95 | the shown dots are n^2, a motif is among them iff it is the dot at (2i, 2j) for some i, j < n, and none are drawn when hidden |
| `DiamondLattice.GenerateDotPositions` | final.py:111-123 | rows = maxDots + 1 and the dots are the lattice sites row by row, scaled by the spacing |
| `DiamondLattice.RowDots` | final.py:120-122 | the inner loop places dot j of the row at column j - (count - 1)/2 and row -i |
| `DiamondLattice.HalfExact` | final.py:120 | for an odd count the real offset (count - 1)/2 is the integer one |
| `DiamondLattice.ProfilePalindrome` | final.py:114-119 | row counts read the same from both ends, are odd, and grow by 2 up to the middle |
| `DiamondLattice.WidestRow` | final.py:112-119 | no row is wider than the middle one; it holds maxDots dots for odd maxDots and maxDots + 1 for even |
| `DiamondLattice.ProfileExamples` | final.py:114-119 | maxDots = 5 gives rows 1,3,5,5,3,1 and maxDots = 4 gives 1,3,5,3,1 |
| `DiamondLattice.RowCentred` | final.py:120-122 | dots j and count-1-j of a row sit at opposite columns, so every row is centred on x = 0 |
| `DiamondLattice.SiteRow` | final.py:115-122 | every dot index k belongs to a row i at place j with k = RowStart(i) + j |
| `DiamondLattice.SiteAt` | final.py:115-122 | dot (i, j) sits at index RowStart(i) + j, and row i + 1 starts right after row i |
| `DiamondLattice.SitesPrefix` | final.py:115-122 | the rows laid out so far are a prefix of the final layout |
| `DiamondLattice.IndexOrder` | final.py:115-122 | dot indices are ordered lexicographically by (row, place) |
| `DiamondLattice.FindBorderIndices` | final.py:130-141 | k is returned iff it is a dot index that is the first or the last of its y-group |
| `DiamondLattice.GroupByRow` | final.py:133-134 | the grouping loop yields, for every y met, the ascending list of indices with that y, and lists every y |
| `DiamondLattice.BucketMapSpec` | final.py:134 | after n dots the dictionary has key y iff some earlier dot has that y, and the value is that bucket |
| `DiamondLattice.KeyOrderSpec` | final.py:134-135 | the insertion-order key list names exactly the dictionary's keys |
| `DiamondLattice.BucketMembers` | final.py:133-134 | k is in the bucket of y iff k < n and dot k has height y |
| `DiamondLattice.BucketSorted` | final.py:133-134 | every bucket is strictly increasing and below n |
| `DiamondLattice.BucketHead` | final.py:137 | row[0] is the first index with that y |
| `DiamondLattice.BucketLast` | final.py:138 | row[-1] is the last index with that y |
| `DiamondLattice.EndsOfMembers` | final.py:135-140 | the ends collected over the listed rows are exactly their border dots |
| `DiamondLattice.DotOf` | final.py:122 | dot k of the layout is in row i at height -i * spacing |
| `DiamondLattice.DotAtRow` | final.py:122 | dot (i, j) exists and lies at height -i * spacing |
| `DiamondLattice.LatticeRowFirst` | final.py:137 | with a positive spacing, a layout dot is first of its height iff it is the first of its row |
| `DiamondLattice.LatticeRowLast` | final.py:138 | likewise for the last dot of a row |
| `DiamondLattice.LatticeBorders` | final.py:130-141 | on the layout, the border dots are exactly the first and last dot of every row |
| `DiamondLattice.RowEndsMembers` | final.py:135-140 | index (i, j) is a row end iff j is 0 or count - 1 |
| `DiamondLattice.EndRowsSingle` | final.py:116-119 | a row holds one dot iff it is the first or the last row; all others hold at least three |
| `DiamondLattice.RowEndsCount` | final.py:135-140 | rows 0..top-1 contribute 2·top - 1 ends, or 2·rows - 2 for the whole layout of at least two rows |
| `DiamondLattice.BorderCount` | final.py:130-141 | the layout has 2·maxDots border dots (one when maxDots = 0) |
| `DiamondLattice.DrawDiamonds` | final.py:152-154 | the diamond loop emits exactly the diamond spec |
| `DiamondLattice.DrawLinks` | final.py:155-158 | the connection double loop emits exactly the link spec |
| `DiamondLattice.LinkRow` | final.py:156-158 | the inner connection loop emits one row of the link spec |
| `DiamondLattice.GenerateKolam2` | final.py:143-160 | the drawing is the scatter (when shown), then a diamond per non-border dot, then the links |
| `DiamondLattice.DiamondsMembers` | final.py:152-154 | no more diamonds than dots; a diamond of size spacing is drawn at a dot iff its index is not a border, and nothing else is drawn |
| `DiamondLattice.DiamondsOnce` | final.py:152-154 | with no dot repeated, the diamond of dot k occurs exactly once when k is not a border index and not at all when it is |
| `DiamondLattice.LinksMembers` | final.py:155-158 | a motif is drawn iff it is the segment from dot a to dot b with a < b, one spacing apart in both x and y |
| `DiamondLattice.LinksOnce` | final.py:155-158 | with no dot repeated, each linked pair is drawn exactly once from the earlier dot and never from the later one |
| `DiamondLattice.LatticeSitesDistinct` | final.py:115-122 | the layout repeats no site |
| `DiamondLattice.LatticeLinksOnce` | final.py:143-158 | on the layout every diagonal neighbour pair is connected by exactly one segment, from the earlier dot |
| `DiamondLattice.DiagonalNeighbours` | final.py:157 | for placed sites, the link test holds iff columns and rows both differ by exactly one |
| `DiamondLattice.LatticeDiamonds` | final.py:152-154 | on the layout a diamond is drawn at dot (i, j) iff 0 < j < count - 1 |
| `DiamondLattice.LatticeDiamondsOnce` | final.py:143-154 | on the layout, dot (i, j) carries exactly one diamond when 0 < j < count - 1 and none otherwise |
| `UnsimilarLattice.GeneratePattern` | unsimilar_dot.py:23-82 | the dots are the lattice sites at spacing 1; the drawing is the dots, then the spoke diamonds, then the joins |
| `UnsimilarLattice.LayDots` | unsimilar_dot.py:31-44 | the dot loop lays out all sites and plots each dot as it is made |
| `UnsimilarLattice.UNextRow` | unsimilar_dot.py:33-43 | appending row i extends the layout by that row, and its plot by the row's dots |
| `UnsimilarLattice.URowDots` | unsimilar_dot.py:39-44 | dot j of row i sits at column j + offset and height -i |
| `UnsimilarLattice.OffsetExact` | unsimilar_dot.py:39 | every row count is odd, so the real offset (2n - 1 - count)/2 is an integer |
| `UnsimilarLattice.URowCentred` | unsimilar_dot.py:39-42 | dots j and count-1-j of a row sum to column 2(n - 1), so every row is centred on x = n - 1 |
| `UnsimilarLattice.UWidest` | unsimilar_dot.py:32-38 | the row at (n + 1)/2 is widest, holding n + 1 dots for even n and n + 2 for odd n |
| `UnsimilarLattice.UProfilePalindrome` | unsimilar_dot.py:32-38 | the row profile reads the same from both ends iff n is even |
| `UnsimilarLattice.UProfileExamples` | unsimilar_dot.py:32-38 | n = 5 gives rows 1,3,5,7,3,1 and n = 4 gives 1,3,5,3,1 |
| `UnsimilarLattice.CountPresent` | unsimilar_dot.py:55 | the count is at most the number of candidates, equal iff every candidate is a dot |
| `UnsimilarLattice.FullNeighbourhood` | unsimilar_dot.py:49-56 | the neighbour count is at most 4, equal iff all four diagonal points are dots |
| `UnsimilarLattice.DiagonalsSymmetric` | unsimilar_dot.py:49-54 | neighbour t of p has p as its neighbour 3 - t |
| `UnsimilarLattice.DrawSpokeDiamonds` | unsimilar_dot.py:47-57 | the diamond loop emits exactly the spoke spec |
| `UnsimilarLattice.DrawJoins` | unsimilar_dot.py:60-79 | the connection loops emit exactly the join spec |
| `UnsimilarLattice.JoinRow` | unsimilar_dot.py:67-79 | the inner neighbour loop emits one row of the join spec |
| `UnsimilarLattice.SpokeDiamondsMembers` | unsimilar_dot.py:47-57 | a spoke is drawn iff it belongs to a dot with all four diagonal neighbours |
| `UnsimilarLattice.JoinsMembers` | unsimilar_dot.py:60-79 | a segment is drawn iff it joins a dot to a diagonal neighbour with both having at least 3 neighbours |
| `UnsimilarLattice.JoinsBothWays` | unsimilar_dot.py:60-79 | every join is drawn in both directions |
| `UnsimilarLattice.JoinOnce` | unsimilar_dot.py:60-79 | with no dot repeated, the segment from a dot to a joined neighbour occurs exactly once |
| `UnsimilarLattice.JoinsTwice` | unsimilar_dot.py:60-79 | a joined pair is drawn exactly twice: once from each end, as two different segments |
| `UnsimilarLattice.USitesDistinct` | unsimilar_dot.py:31-44 | the rows laid out so far lie strictly above the next row and repeat no site |
| `UnsimilarLattice.LatticeJoinsTwice` | unsimilar_dot.py:23-79 | on the layout of generate_pattern(n) every joined pair is drawn exactly twice, once from each end |
| `Analyzer.ReverseInvolution` | final.py:175 | flipping a row twice restores it, and a flip keeps the multiset of pixels |
| `Analyzer.AgreeIsMirror` | final.py:176-179 | the elementwise comparison of the truncated halves counts exactly the agreeing mirrored pixel pairs |
| `Analyzer.PipelineIsMirror` | final.py:172-179 | the numpy symmetry score equals the share of pixel pairs (c, w - 1 - c), c < w/2, that agree; also final3.py:336-350 and, binarized, final4.py:332-340 |
| `Analyzer.RecogniserIsMirror` | Imagerecogniser_principles.py:17-20 | the edge-map score with `np.fliplr` is the same share, for an even width |
| `Analyzer.MirrorPairsBound` | final.py:179 | the agreeing pairs are at most h * (w/2), equal iff every pair agrees |
| `Analyzer.ScoreBounds` | final.py:179 | the symmetry score lies in [0, 1]; it is 1 iff the image is mirror-symmetric and 0 iff no pair agrees |
| `Analyzer.GuardedScore` | final2.py:343-354 | when the grey conversion fails the score is 0.0; otherwise it is the share of agreeing mirrored pixel pairs; in every case it lies in [0, 1] |
| `Analyzer.BinarizeRaises` | final4.py:338-339 | thresholding at 128 never loses an agreeing pair |
| `Analyzer.BinarizedScoreAtLeast` | final4.py:338-340 | final4.py's thresholded score is at least the raw score of the other analyzers |
| `Analyzer.NonZeroBound` | final.py:181 | the number of edge pixels is at most h * w, equal iff all pixels are edges, 0 iff none |
| `Analyzer.DensityBounds` | final.py:181 | the line density lies in [0, 1], is 1 iff every pixel is an edge pixel and 0 iff none is |
| `Principles.GradeMonotone` | final4.py:349-354 | a larger score never falls in a lower tier; Top iff v > top, Middle iff middle < v <= top, Bottom iff v <= middle |
| `Principles.GradeCountMonotone` | final.py:196-201 | the same for the contour count |
| `Principles.TwoTiers` | Imagerecogniser_principles.py:51-60 | a rule with a single threshold has no middle tier |
| `Principles.StrictThresholds` | final.py:188-201 | a value exactly at a threshold falls below it (0.8, 0.85, 0.6, 20, 10, 50) |
| `Principles.ClassicPrinciples` | final.py:186-203 | the paragraphs satisfy `ClassicParagraphs`: 5 of them; "high bilateral symmetry" iff symmetry > 0.8, else asymmetry; dense iff density > 0.15, else light; highly complex iff > 20, moderate iff 10 < c <= 20, simple iff c <= 10; the last two fixed; the same in final2.py:362-378 and final3.py:352-369 |
| `Principles.GradedPrinciples` | final4.py:347-365 | the paragraphs satisfy `GradedParagraphs`: 4 of them; high iff symmetry > 0.85, moderate iff 0.6 < s <= 0.85, low iff s <= 0.6; dense iff > 0.12, else light; complex iff > 30, moderate iff 12 < c <= 30, simple iff c <= 12; the last fixed |
| `Principles.RecogniserPrinciples` | Imagerecogniser_principles.py:48-94 | 5 numbered principles with titles "High Symmetry" iff > 0.85, "Dense Linework" iff > 0.08, "Complex Motifs" iff > 50, then the two fixed ones |
| `Principles.JoinLength` | final.py:204 | the joined text is as long as the paragraphs plus one separator between each two |
| `Principles.JoinPiece` | final.py:204 | paragraph i occupies its own slice of the joined text, at its offset |
| `Principles.JoinSeparator` | final.py:204 | the separator sits between paragraph i and paragraph i + 1 |
| `Principles.JoinLayout` | final.py:204 | the three facts together: these determine the joined text |
| `Principles.JoinText` | final.py:204 | joining paragraph by paragraph yields `sep.join(ps)` |
| `Principles.ClassicReport` | final2.py:362-389 | the report is five paragraphs joined by blank lines, each paragraph as `ClassicParagraphs` classifies the three measures |
| `Principles.GradedReport` | final4.py:347-366 | the report is four paragraphs joined by blank lines, each paragraph as `GradedParagraphs` classifies the three measures |

## Left out

- The Streamlit user interface is not modelled: pages, sliders, colour pickers, buttons, the
  logo, styling, the gallery and the download button's byte encoding. Slider values
  become parameters.
- frontpage.py is not part of this model. It is a landing page with no drawing or
  analysis logic.
- Rendering is not modelled. matplotlib figures, colours, line widths, marker sizes and
  `st.pyplot` are out, and motifs are kept symbolic. An arc is its centre, radius and
  angle range, not the 100 sampled points `np.linspace` produces. Exact statements about
  arcs use the quarter points, where cos and sin are exact.
- The angle-sampled outline of kolam_app.py's `draw_diamond` is not computed. It is the
  symbolic `TiltedDiamond(center, radius)` with vertices at 45 + 90k degrees, because its
  coordinates are irrational.
- OpenCV and image I/O are foreign calls and are left out: `cv2.cvtColor`, `cv2.Canny`,
  `cv2.findContours`, `cv2.resize` and image decoding.
  - The grey image and the edge map are inputs (integer matrices).
  - The contour count is an input to the principle rules.
  - final4.py's resize of images under 64 pixels is assumed done before the score.
- Analyzer.PipelineScore: needs at least one row and two columns.
  - For w < 2 numpy divides 0 by 0 and yields NaN; floating-point NaN is not modelled.
  - final2.py's `except` branch is modelled as `GuardedScore` with `None` for a failed
    conversion.
- Analyzer.GuardedScore: the 0.0 of a failed conversion never reaches a report. When
  `cv2.cvtColor` raises at final2.py:344, `gray` stays unbound and `cv2.Canny(gray, ...)`
  at final2.py:356 raises `NameError`, so the page fails. That failure is not modelled.
- Analyzer.RecogniserScore: requires an even width. For odd widths the two halves of
  Imagerecogniser_principles.py have different shapes, and numpy's comparison of them is
  not modelled.
- Floating point is not modelled. Scores are exact reals.
  - The exact comparison of final.py and final2.py, final3.py's `np.isclose` and final4.py's
    `round(..., 5)` in the connection test are all modelled as exact equality of the
    scaled lattice coordinates.
  - The differences these make for spacings that are not exactly representable are not
    captured.
- UnsimilarLattice.GeneratePattern: the spacing is fixed at 1.0, as in the source. The
  membership test `nb in dots` is exact equality of real points.
- Principles.RecogniserPrinciples: returns each principle's number and bold title. The
  rest of each sentence, including the score printed with `:.2f`, is not modelled.
- The rows argument of final.py/final2.py/final3.py's `find_border_indices` is unused and
  not modelled.
- final.py's separate `draw_arc`/`draw_loop` defaults (r = 0.6, r = 0.5) are not used by
  any generator call and are not modelled.
