/** The principle reports: each analyzer maps the symmetry score, the line density and
    the contour count to a fixed list of findings under strict thresholds, and the text
    report is the findings joined by blank lines. */
module Principles {

  /** Where a value falls under two strict thresholds top >= middle. A finding with only
      two tiers uses middle == top, so its middle band is empty. */
  datatype Tier = Top | Middle | Bottom

  function Grade(v: real, top: real, middle: real): Tier {
    if v > top then Top else if v > middle then Middle else Bottom
  }

  function GradeCount(v: int, top: int, middle: int): Tier {
    if v > top then Top else if v > middle then Middle else Bottom
  }

  /** The thresholds of one analyzer. */
  datatype Policy = Policy(symTop: real, symMiddle: real, dense: real, cxTop: int, cxMiddle: int)

  /** final.py, final2.py and final3.py: symmetry > 0.8, density > 0.15, contours > 20
      or > 10. */
  const Classic := Policy(0.8, 0.8, 0.15, 20, 10)
  /** final4.py: symmetry > 0.85 or > 0.6, density > 0.12, contours > 30 or > 12. */
  const Graded := Policy(0.85, 0.6, 0.12, 30, 12)
  /** Imagerecogniser_principles.py: symmetry > 0.85, density > 0.08, contours > 50. */
  const Recogniser := Policy(0.85, 0.85, 0.08, 50, 50)

  /** The tiers never overlap and grow with the value: a larger value never lands in a
      lower tier. */
  lemma GradeMonotone(v: real, u: real, top: real, middle: real)
    requires middle <= top && v <= u
    ensures Grade(v, top, middle) == Top ==> Grade(u, top, middle) == Top
    ensures Grade(u, top, middle) == Bottom ==> Grade(v, top, middle) == Bottom
    ensures Grade(v, top, middle) == Top <==> v > top
    ensures Grade(v, top, middle) == Middle <==> middle < v <= top
    ensures Grade(v, top, middle) == Bottom <==> v <= middle
  {
  }

  lemma GradeCountMonotone(v: int, u: int, top: int, middle: int)
    requires middle <= top && v <= u
    ensures GradeCount(v, top, middle) == Top ==> GradeCount(u, top, middle) == Top
    ensures GradeCount(u, top, middle) == Bottom ==> GradeCount(v, top, middle) == Bottom
    ensures GradeCount(v, top, middle) == Top <==> v > top
    ensures GradeCount(v, top, middle) == Middle <==> middle < v <= top
    ensures GradeCount(v, top, middle) == Bottom <==> v <= middle
  {
  }

  /** With a single threshold there is no middle tier. */
  lemma TwoTiers(v: real, top: real, c: int, cTop: int)
    ensures Grade(v, top, top) != Middle && GradeCount(c, cTop, cTop) != Middle
  {
  }

  /** The thresholds are strict: a score exactly at a threshold falls below it. */
  lemma StrictThresholds()
    ensures Grade(0.8, Classic.symTop, Classic.symMiddle) == Bottom
    ensures Grade(0.85, Graded.symTop, Graded.symMiddle) == Middle
    ensures Grade(0.6, Graded.symTop, Graded.symMiddle) == Bottom
    ensures GradeCount(20, Classic.cxTop, Classic.cxMiddle) == Middle
    ensures GradeCount(10, Classic.cxTop, Classic.cxMiddle) == Bottom
    ensures GradeCount(50, Recogniser.cxTop, Recogniser.cxMiddle) == Bottom
  {
  }

  // ---------------------------------------------------------------------------------
  // The paragraphs

  const HighSymmetry := "The Kolam shows **high bilateral symmetry**, symbolizing balance and harmony."
  const Asymmetry := "The Kolam displays **asymmetry**, suggesting a creative interpretation."
  const DenseLines := "It features **dense linework**, indicating intricacy and abundance."
  const LightLines := "The design has **light linework**, reflecting minimalism and simplicity."
  const HighlyComplex := "The pattern is **highly complex**, with advanced structural planning."
  const ModeratelyComplex := "The Kolam shows **moderate complexity**, balancing detail with clarity."
  const SimpleElegant := "The Kolam is **simple and elegant**, focusing on fundamental forms."
  const Continuity := "The dots and connecting lines reflect **continuity and unity** in Kolam traditions."
  const Repetition := "The structure indicates **repetition and rhythm**, symbolizing infinite cycles in nature."

  /** The five paragraphs of generate_principles of final.py and final3.py, and of the
      inline list of final2.py, for the given measures: symmetry, linework and complexity as
      classified, then the two fixed ones. */
  predicate ClassicParagraphs(ps: seq<string>, symmetry: real, density: real, complexity: int) {
    && |ps| == 5
    && (ps[0] == HighSymmetry <==> symmetry > 0.8)
    && (ps[0] == Asymmetry <==> symmetry <= 0.8)
    && (ps[1] == DenseLines <==> density > 0.15)
    && (ps[1] == LightLines <==> density <= 0.15)
    && (ps[2] == HighlyComplex <==> complexity > 20)
    && (ps[2] == ModeratelyComplex <==> 10 < complexity <= 20)
    && (ps[2] == SimpleElegant <==> complexity <= 10)
    && ps[3..] == [Continuity, Repetition]
  }

  /** generate_principles of final.py and final3.py, and the inline list of final2.py. */
  method ClassicPrinciples(symmetry: real, density: real, complexity: int) returns (principles: seq<string>)
    ensures ClassicParagraphs(principles, symmetry, density, complexity)
  {
    principles := [];
    if Grade(symmetry, Classic.symTop, Classic.symMiddle) == Top {
      principles := principles + [HighSymmetry];
    } else {
      principles := principles + [Asymmetry];
    }
    if density > Classic.dense {
      principles := principles + [DenseLines];
    } else {
      principles := principles + [LightLines];
    }
    match GradeCount(complexity, Classic.cxTop, Classic.cxMiddle) {
      case Top => principles := principles + [HighlyComplex];
      case Middle => principles := principles + [ModeratelyComplex];
      case Bottom => principles := principles + [SimpleElegant];
    }
    principles := principles + [Continuity];
    principles := principles + [Repetition];
  }

  const GHigh := "High bilateral symmetry: strong left-right balance."
  const GModerate := "Moderate symmetry: elements of balance with stylization."
  const GLow := "Low symmetry / asymmetrical pattern."
  const GDense := "Dense linework indicating intricate patterning."
  const GLight := "Light linework indicating minimal or geometric style."
  const GComplex := "High structural complexity with many contours."
  const GModerateComplex := "Moderate complexity with clear motifs."
  const GSimple := "Simple and elegant design."
  const GContinuity := "Dots and continuous lines reflect continuity and rhythm."

  /** The four paragraphs of generate_principles of final4.py for the given measures:
      three symmetry tiers, linework, three complexity tiers, then the fixed one. */
  predicate GradedParagraphs(ps: seq<string>, symmetry: real, density: real, complexity: int) {
    && |ps| == 4
    && (ps[0] == GHigh <==> symmetry > 0.85)
    && (ps[0] == GModerate <==> 0.6 < symmetry <= 0.85)
    && (ps[0] == GLow <==> symmetry <= 0.6)
    && (ps[1] == GDense <==> density > 0.12)
    && (ps[1] == GLight <==> density <= 0.12)
    && (ps[2] == GComplex <==> complexity > 30)
    && (ps[2] == GModerateComplex <==> 12 < complexity <= 30)
    && (ps[2] == GSimple <==> complexity <= 12)
    && ps[3] == GContinuity
  }

  /** generate_principles of final4.py: three symmetry tiers and four paragraphs. */
  method GradedPrinciples(symmetry: real, density: real, complexity: int) returns (principles: seq<string>)
    ensures GradedParagraphs(principles, symmetry, density, complexity)
  {
    principles := [];
    match Grade(symmetry, Graded.symTop, Graded.symMiddle) {
      case Top => principles := principles + [GHigh];
      case Middle => principles := principles + [GModerate];
      case Bottom => principles := principles + [GLow];
    }
    if density > Graded.dense {
      principles := principles + [GDense];
    } else {
      principles := principles + [GLight];
    }
    match GradeCount(complexity, Graded.cxTop, Graded.cxMiddle) {
      case Top => principles := principles + [GComplex];
      case Middle => principles := principles + [GModerateComplex];
      case Bottom => principles := principles + [GSimple];
    }
    principles := principles + [GContinuity];
  }

  /** A numbered principle of Imagerecogniser_principles.py, by its bold title; the
      sentence around it, with the score printed to two decimals, is not modelled. */
  datatype Numbered = Numbered(number: nat, title: string)

  /** The top-level principle list of Imagerecogniser_principles.py. */
  method RecogniserPrinciples(symmetry: real, density: real, complexity: int) returns (principles: seq<Numbered>)
    ensures |principles| == 5
    ensures forall k :: 0 <= k < 5 ==> principles[k].number == k + 1
    ensures principles[0].title == "High Symmetry" <==> symmetry > 0.85
    ensures principles[0].title == "Moderate Symmetry" <==> symmetry <= 0.85
    ensures principles[1].title == "Dense Linework" <==> density > 0.08
    ensures principles[1].title == "Minimal Linework" <==> density <= 0.08
    ensures principles[2].title == "Complex Motifs" <==> complexity > 50
    ensures principles[2].title == "Moderate Complexity" <==> complexity <= 50
    ensures principles[3] == Numbered(4, "Continuity of Curves")
    ensures principles[4] == Numbered(5, "Cultural Symbolism")
  {
    principles := [];
    if symmetry > Recogniser.symTop {
      principles := principles + [Numbered(1, "High Symmetry")];
    } else {
      principles := principles + [Numbered(1, "Moderate Symmetry")];
    }
    if density > Recogniser.dense {
      principles := principles + [Numbered(2, "Dense Linework")];
    } else {
      principles := principles + [Numbered(2, "Minimal Linework")];
    }
    if complexity > Recogniser.cxTop {
      principles := principles + [Numbered(3, "Complex Motifs")];
    } else {
      principles := principles + [Numbered(3, "Moderate Complexity")];
    }
    principles := principles + [Numbered(4, "Continuity of Curves")];
    principles := principles + [Numbered(5, "Cultural Symbolism")];
  }

  // ---------------------------------------------------------------------------------
  // The text report

  const BlankLine := "\n\n"

  /** sep.join(ps). */
  function Join(ps: seq<string>, sep: string): string {
    if |ps| == 0 then ""
    else if |ps| == 1 then ps[0]
    else Join(ps[..|ps| - 1], sep) + sep + ps[|ps| - 1]
  }

  /** Where paragraph i starts in the joined text. */
  function Offset(ps: seq<string>, sep: string, i: nat): nat
    requires i <= |ps|
  {
    if i == 0 then 0 else Offset(ps, sep, i - 1) + |ps[i - 1]| + |sep|
  }

  /** Paragraph i of the joined text occupies its own slice, starting at its offset. */
  lemma {:induction false} JoinPiece(ps: seq<string>, sep: string, i: nat)
    requires i < |ps|
    ensures Offset(ps, sep, i) + |ps[i]| <= |Join(ps, sep)|
    ensures Join(ps, sep)[Offset(ps, sep, i)..Offset(ps, sep, i) + |ps[i]|] == ps[i]
    decreases |ps|
  {
    var n := |ps|;
    if n > 1 {
      var init := ps[..n - 1];
      var a := Join(init, sep);
      assert Join(ps, sep) == (a + sep) + ps[n - 1];
      if i < n - 1 {
        JoinPiece(init, sep, i);
        OffsetPrefix(ps, init, sep, i);
        assert init[i] == ps[i];
        SliceLeft(a, sep + ps[n - 1], Offset(ps, sep, i), Offset(ps, sep, i) + |ps[i]|);
        assert (a + sep) + ps[n - 1] == a + (sep + ps[n - 1]);
      } else {
        OffsetPrefix(ps, init, sep, n - 1);
        JoinLength(init, sep);
        SliceRight(a + sep, ps[n - 1]);
      }
    }
  }

  /** Between paragraph i and paragraph i + 1 the joined text holds exactly the
      separator. */
  lemma {:induction false} JoinSeparator(ps: seq<string>, sep: string, i: nat)
    requires i + 1 < |ps|
    ensures Offset(ps, sep, i) + |ps[i]| + |sep| == Offset(ps, sep, i + 1) <= |Join(ps, sep)|
    ensures Join(ps, sep)[Offset(ps, sep, i) + |ps[i]|..Offset(ps, sep, i + 1)] == sep
    decreases |ps|
  {
    var n := |ps|;
    var init := ps[..n - 1];
    var a := Join(init, sep);
    assert Join(ps, sep) == (a + sep) + ps[n - 1];
    OffsetPrefix(ps, init, sep, i);
    OffsetPrefix(ps, init, sep, i + 1);
    if i + 1 < n - 1 {
      JoinSeparator(init, sep, i);
      assert init[i] == ps[i];
      SliceLeft(a, sep + ps[n - 1], Offset(ps, sep, i) + |ps[i]|, Offset(ps, sep, i + 1));
      assert (a + sep) + ps[n - 1] == a + (sep + ps[n - 1]);
    } else {
      JoinLength(init, sep);
      SliceRight(a, sep);
      SliceLeft(a + sep, ps[n - 1], |a|, |a| + |sep|);
    }
  }

  lemma SliceLeft(a: string, b: string, lo: nat, hi: nat)
    requires lo <= hi <= |a|
    ensures (a + b)[lo..hi] == a[lo..hi]
  {
  }

  lemma SliceRight(a: string, b: string)
    ensures (a + b)[|a|..] == b
  {
  }

  lemma {:induction false} JoinLength(ps: seq<string>, sep: string)
    requires |ps| >= 1
    ensures |Join(ps, sep)| + |sep| == Offset(ps, sep, |ps|)
    decreases |ps|
  {
    if |ps| > 1 {
      JoinLength(ps[..|ps| - 1], sep);
      OffsetPrefix(ps, ps[..|ps| - 1], sep, |ps| - 1);
    }
  }

  /** Offsets depend only on the paragraphs before them. */
  lemma {:induction false} OffsetPrefix(ps: seq<string>, qs: seq<string>, sep: string, i: nat)
    requires i <= |qs| <= |ps| && qs == ps[..|qs|]
    ensures Offset(ps, sep, i) == Offset(qs, sep, i)
    decreases i
  {
    if i > 0 {
      OffsetPrefix(ps, qs, sep, i - 1);
    }
  }

  /** Joining is determined by these facts: the total length, each paragraph at its
      offset and the separator after every paragraph but the last. */
  lemma JoinLayout(ps: seq<string>, sep: string, i: nat)
    requires i < |ps|
    ensures |Join(ps, sep)| + |sep| == Offset(ps, sep, |ps|)
    ensures Offset(ps, sep, i) + |ps[i]| <= |Join(ps, sep)|
    ensures Join(ps, sep)[Offset(ps, sep, i)..Offset(ps, sep, i) + |ps[i]|] == ps[i]
    ensures i + 1 < |ps| ==> Offset(ps, sep, i) + |ps[i]| + |sep| == Offset(ps, sep, i + 1) <= |Join(ps, sep)|
    ensures i + 1 < |ps| ==> Join(ps, sep)[Offset(ps, sep, i) + |ps[i]|..Offset(ps, sep, i + 1)] == sep
  {
    JoinLength(ps, sep);
    JoinPiece(ps, sep, i);
    if i + 1 < |ps| {
      JoinSeparator(ps, sep, i);
    }
  }

  /** The report of final.py, final2.py and final3.py: five paragraphs, four blank-line
      separators, in order. */
  method ClassicReport(symmetry: real, density: real, complexity: int) returns (report: string)
    ensures exists ps :: ClassicParagraphs(ps, symmetry, density, complexity) && report == Join(ps, BlankLine)
  {
    var principles := ClassicPrinciples(symmetry, density, complexity);
    report := JoinText(principles, BlankLine);
  }

  /** The report of final4.py: four paragraphs, three blank-line separators, in order. */
  method GradedReport(symmetry: real, density: real, complexity: int) returns (report: string)
    ensures exists ps :: GradedParagraphs(ps, symmetry, density, complexity) && report == Join(ps, BlankLine)
  {
    var principles := GradedPrinciples(symmetry, density, complexity);
    report := JoinText(principles, BlankLine);
  }

  /** str.join, one paragraph at a time. */
  method JoinText(ps: seq<string>, sep: string) returns (text: string)
    ensures text == Join(ps, sep)
  {
    text := "";
    for i := 0 to |ps|
      invariant text == Join(ps[..i], sep)
    {
      if i == 0 {
        text := ps[0];
      } else {
        text := text + sep + ps[i];
      }
      assert ps[..i + 1][..i] == ps[..i];
    }
    assert ps[..|ps|] == ps;
  }
}
