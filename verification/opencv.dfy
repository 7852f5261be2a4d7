/**
 The pure parts of the image analysis: the display colour namer, the display
 shape and sharpness assessors, the max-normalisation of the colour metrics,
 the record the analysis returns, and its hard-coded fallback record.  The
 OpenCV.js calls that produce the raw numbers are not modelled: their results
 (channel sums, pixel count, contour count, Laplacian variance) are parameters.
 */
module OpenCv {
  import opened SoapAnalysis
  import Scoring

  // ---------------------------------------------------------------------------
  // Display colour name

  /** The six names the display colour namer can give. */
  datatype DisplayColor = BrightBlue | LightYellow | LightPink | MuddyDark | BrightWhite | GreyDull

  function DisplayColorName(c: DisplayColor): string {
    match c
    case BrightBlue => "Bright Blue"
    case LightYellow => "Light Yellow"
    case LightPink => "Light Pink"
    case MuddyDark => "Muddy/Dark"
    case BrightWhite => "Bright White"
    case GreyDull => "Grey/Dull"
  }

  predicate BlueRule(r: real, g: real, b: real) { b > 0.6 && r + g < 0.8 }
  predicate YellowRule(r: real, g: real, b: real) { r > 0.5 && g > 0.5 && b < 0.3 }
  predicate PinkRule(r: real, g: real, b: real) { r > 0.6 && g < 0.4 && b < 0.4 }
  predicate MuddyRule(r: real, g: real, b: real) { r < 0.3 && g < 0.3 && b < 0.3 }
  predicate WhiteRule(r: real, g: real, b: real) { r > 0.8 && g > 0.8 && b > 0.8 }

  /** No two of the five naming rules hold at once. */
  lemma NamingRulesDisjoint(r: real, g: real, b: real)
    ensures BlueRule(r, g, b) ==> !YellowRule(r, g, b) && !PinkRule(r, g, b)
                                  && !MuddyRule(r, g, b) && !WhiteRule(r, g, b)
    ensures YellowRule(r, g, b) ==> !PinkRule(r, g, b) && !MuddyRule(r, g, b) && !WhiteRule(r, g, b)
    ensures PinkRule(r, g, b) ==> !MuddyRule(r, g, b) && !WhiteRule(r, g, b)
    ensures MuddyRule(r, g, b) ==> !WhiteRule(r, g, b)
  {
  }

  /** The display colour of a histogram, tried rule by rule, first match wins.
      Because the rules are pairwise disjoint the order does not matter: each
      name is given exactly when its own rule holds.  With fewer than three
      entries every comparison is against `undefined`, hence false, and the
      result is "Grey/Dull". */
  function DominantColor(h: seq<real>): (c: DisplayColor)
    ensures |h| < 3 ==> c == GreyDull
    ensures |h| >= 3 ==> (c == BrightBlue <==> BlueRule(h[0], h[1], h[2]))
    ensures |h| >= 3 ==> (c == LightYellow <==> YellowRule(h[0], h[1], h[2]))
    ensures |h| >= 3 ==> (c == LightPink <==> PinkRule(h[0], h[1], h[2]))
    ensures |h| >= 3 ==> (c == MuddyDark <==> MuddyRule(h[0], h[1], h[2]))
    ensures |h| >= 3 ==> (c == BrightWhite <==> WhiteRule(h[0], h[1], h[2]))
  {
    if |h| < 3 then GreyDull
    else
      var r, g, b := h[0], h[1], h[2];
      NamingRulesDisjoint(r, g, b);
      if BlueRule(r, g, b) then BrightBlue
      else if YellowRule(r, g, b) then LightYellow
      else if PinkRule(r, g, b) then LightPink
      else if MuddyRule(r, g, b) then MuddyDark
      else if WhiteRule(r, g, b) then BrightWhite
      else GreyDull
  }

  function GetDominantColorName(h: seq<real>): (name: string)
    ensures name in ["Bright Blue", "Light Yellow", "Light Pink", "Muddy/Dark", "Bright White", "Grey/Dull"]
    ensures |h| >= 3 && BlueRule(h[0], h[1], h[2]) ==> name == "Bright Blue"
    ensures |h| >= 3 && WhiteRule(h[0], h[1], h[2]) ==> name == "Bright White"
  {
    DisplayColorName(DominantColor(h))
  }

  // ---------------------------------------------------------------------------
  // Display shape and sharpness

  /** The display shape word, by its own threshold chain; it names the same
      bucket the scorer picks, in different words. */
  function AssessShapeQuality(contourCount: nat, variance: real): (s: string)
    ensures s == "Smooth Outline" <==>
              Scoring.ClassifyShapeQuality(contourCount, variance) == Scoring.SmoothSolid
    ensures s == "Wobbly Edge" <==>
              Scoring.ClassifyShapeQuality(contourCount, variance) == Scoring.WobblyIrregular
    ensures s == "Fragmented Shape" <==>
              Scoring.ClassifyShapeQuality(contourCount, variance) == Scoring.Fragmented
  {
    if variance > 1000.0 && contourCount < 100 then "Smooth Outline"
    else if variance > 100.0 && contourCount < 500 then "Wobbly Edge"
    else "Fragmented Shape"
  }

  /** The display sharpness phrase, by its own threshold chain; it is the
      interpretation the sharpness table attaches to the scorer's bucket. */
  function AssessSharpness(variance: real): (s: string)
    ensures var level := Scoring.SharpnessLabel(Scoring.ClassifySharpness(variance));
            level in Scoring.SharpnessScoring && Scoring.SharpnessScoring[level].interpretation == s
  {
    if variance > 1000.0 then "Crystal Clear"
    else if variance > 100.0 then "Slightly Fogged"
    else "Fuzzy Suds"
  }

  // ---------------------------------------------------------------------------
  // Colour metrics and normalisation

  /** `Math.max(...values)` on a non-empty list. */
  function MaxOf(values: seq<real>): (m: real)
    requires |values| > 0
    ensures m in values
    ensures forall i :: 0 <= i < |values| ==> values[i] <= m
  {
    if |values| == 1 then values[0]
    else
      var rest := MaxOf(values[1..]);
      if values[0] >= rest then values[0] else rest
  }

  /** Divide every entry by the largest one; when that is not positive every
      entry becomes 0.  The empty list stays empty. */
  function Normalize(values: seq<real>): (out: seq<real>)
    ensures |out| == |values|
    ensures |values| > 0 && MaxOf(values) <= 0.0 ==> forall i :: 0 <= i < |out| ==> out[i] == 0.0
  {
    if |values| == 0 then []
    else
      var maxVal := MaxOf(values);
      seq(|values|, i requires 0 <= i < |values| => if maxVal > 0.0 then values[i] / maxVal else 0.0)
  }

  /** Entry `i` of the normalised list. */
  lemma NormalizeEntry(values: seq<real>, i: nat)
    requires i < |values|
    ensures MaxOf(values) > 0.0 ==> Normalize(values)[i] == values[i] / MaxOf(values)
    ensures MaxOf(values) <= 0.0 ==> Normalize(values)[i] == 0.0
  {
  }

  /** `x : y` equals `a : b`, cross-multiplied so that zeros are allowed. */
  predicate SameRatio(x: real, y: real, a: real, b: real) {
    x * b == y * a
  }

  lemma DivisionKeepsRatio(x: real, y: real, a: real, b: real, m: real)
    requires m > 0.0 && x == a / m && y == b / m
    ensures SameRatio(x, y, a, b)
  {
    assert x * b == (a * b) / m;
    assert y * a == (b * a) / m;
  }

  lemma ZeroesKeepRatio(x: real, y: real, a: real, b: real)
    requires x == 0.0 && y == 0.0
    ensures SameRatio(x, y, a, b)
  {
  }

  lemma DivisionBounds(v: real, m: real)
    requires 0.0 <= v <= m && m > 0.0
    ensures 0.0 <= v / m <= 1.0
    ensures v == m ==> v / m == 1.0
  {
    assert v / m * m == v;
  }

  /** Normalising keeps every ratio between entries. */
  lemma NormalizeKeepsRatios(values: seq<real>, i: nat, j: nat)
    requires i < |values| && j < |values|
    ensures SameRatio(Normalize(values)[i], Normalize(values)[j], values[i], values[j])
  {
    NormalizeEntry(values, i);
    NormalizeEntry(values, j);
    if MaxOf(values) > 0.0 {
      DivisionKeepsRatio(Normalize(values)[i], Normalize(values)[j], values[i], values[j], MaxOf(values));
    } else {
      ZeroesKeepRatio(Normalize(values)[i], Normalize(values)[j], values[i], values[j]);
    }
  }

  /** Non-negative entries with a positive maximum land in [0, 1], and the
      largest entry becomes exactly 1. */
  lemma NormalizeBounds(values: seq<real>)
    requires |values| > 0 && MaxOf(values) > 0.0
    requires forall i :: 0 <= i < |values| ==> values[i] >= 0.0
    ensures forall i :: 0 <= i < |values| ==> 0.0 <= Normalize(values)[i] <= 1.0
    ensures exists k :: 0 <= k < |values| && Normalize(values)[k] == 1.0
  {
    var m := MaxOf(values);
    forall i | 0 <= i < |values|
      ensures 0.0 <= Normalize(values)[i] <= 1.0
    {
      NormalizeEntry(values, i);
      DivisionBounds(values[i], m);
    }
    var k :| 0 <= k < |values| && values[k] == m;
    NormalizeEntry(values, k);
    DivisionBounds(values[k], m);
  }

  /** The six colour metrics before normalisation: one sum per colour channel
      (at most three), then brightness, saturation and contrast estimates that
      are fixed fractions of the pixel count. */
  function ColorMetrics(channelSums: seq<real>, totalPixels: real): (metrics: seq<real>)
    requires |channelSums| <= 3
    ensures |metrics| == |channelSums| + 3
    ensures metrics[..|channelSums|] == channelSums
    ensures metrics[|channelSums|..] == [totalPixels * 0.2, totalPixels * 0.3, totalPixels * 0.25]
  {
    channelSums + [totalPixels * 0.2, totalPixels * 0.3, totalPixels * 0.25]
  }

  /** If each channel histogram counts every pixel once, each channel sum is
      the pixel count, and the normalised histogram is then the same for every
      non-empty image.  Whether the OpenCV.js calls behave so is outside the
      model; when one of them throws, the histogram is `FallbackHistogram`
      instead (see `FallbackBuckets`). */
  lemma HistogramIsImageIndependent(totalPixels: real)
    requires totalPixels > 0.0
    ensures Normalize(ColorMetrics([totalPixels, totalPixels, totalPixels], totalPixels))
              == [1.0, 1.0, 1.0, 0.2, 0.3, 0.25]
  {
    var t := totalPixels;
    var shape := [1.0, 1.0, 1.0, 0.2, 0.3, 0.25];
    var metrics := ColorMetrics([t, t, t], t);
    assert metrics == [t, t, t, t * 0.2, t * 0.3, t * 0.25];
    forall i | 0 <= i < 6
      ensures Scaled(metrics[i], t, shape[i])
    {
    }
    NormalizeScaled(t, shape, metrics);
  }

  /** `v` is `c` times `t`. */
  predicate Scaled(v: real, t: real, c: real) {
    v == t * c
  }

  lemma ScaledFacts(v: real, t: real, c: real)
    requires t > 0.0 && Scaled(v, t, c)
    ensures v / t == c
    ensures c <= 1.0 ==> v <= t
    ensures c == 1.0 ==> v == t
  {
    if c <= 1.0 {
      assert t * c <= t * 1.0;
    }
  }

  /** Scaling a list whose first entry is 1 and whose entries lie in [0, 1]
      by a positive factor, then normalising, gives back the list. */
  lemma NormalizeScaled(t: real, shape: seq<real>, values: seq<real>)
    requires t > 0.0 && |shape| > 0 && shape[0] == 1.0
    requires forall i :: 0 <= i < |shape| ==> shape[i] <= 1.0
    requires |values| == |shape|
    requires forall i :: 0 <= i < |values| ==> Scaled(values[i], t, shape[i])
    ensures Normalize(values) == shape
  {
    var m := MaxOf(values);
    var k :| 0 <= k < |values| && values[k] == m;
    ScaledFacts(values[k], t, shape[k]);
    ScaledFacts(values[0], t, shape[0]);
    assert m == t;
    forall i | 0 <= i < |values|
      ensures Normalize(values)[i] == shape[i]
    {
      NormalizeEntry(values, i);
      ScaledFacts(values[i], t, shape[i]);
    }
  }

  /** The histogram of a full-range count is scored as grey/dull while its
      stored name says bright white. */
  lemma ImageIndependentHistogramColors()
    ensures Scoring.ClassifyDominantColor([1.0, 1.0, 1.0, 0.2, 0.3, 0.25]) == Scoring.GreyDull
    ensures GetDominantColorName([1.0, 1.0, 1.0, 0.2, 0.3, 0.25]) == "Bright White"
  {
  }

  // ---------------------------------------------------------------------------
  // The analysis record

  /** The record the analysis returns on success: it stores the measurements
      it is given, and the colour name and shape word it stores are the ones the
      namers compute from them. */
  function AnalysisRecord(colorHistogram: seq<real>, contourCount: nat, variance: real): (a: OpenCVAnalysis)
    ensures a.colorHistogram == colorHistogram
    ensures a.contourCount == contourCount
    ensures a.laplacianVariance == variance
    ensures SelfConsistent(a)
  {
    OpenCVAnalysis(colorHistogram, GetDominantColorName(colorHistogram),
                   AssessShapeQuality(contourCount, variance), contourCount, variance)
  }

  /** The stored names agree with what the namers say about the stored numbers. */
  predicate SelfConsistent(a: OpenCVAnalysis) {
    && a.dominantColor == GetDominantColorName(a.colorHistogram)
    && a.shapeQuality == AssessShapeQuality(a.contourCount, a.laplacianVariance)
  }

  /** The self-consistent records are exactly the ones the success path can
      return, and on them the stored shape word names the scorer's bucket. */
  lemma SelfConsistentIsAnalysisRecord(a: OpenCVAnalysis)
    ensures SelfConsistent(a) <==> a == AnalysisRecord(a.colorHistogram, a.contourCount, a.laplacianVariance)
    ensures SelfConsistent(a) ==>
              (a.shapeQuality == "Smooth Outline" <==>
                 Scoring.ClassifyShapeQuality(a.contourCount, a.laplacianVariance) == Scoring.SmoothSolid)
  {
  }

  const FallbackHistogram: seq<real> := [0.3, 0.2, 0.5, 0.4, 0.6, 0.8]

  /** The record returned when any OpenCV call throws. */
  const FallbackAnalysis: OpenCVAnalysis :=
    OpenCVAnalysis(FallbackHistogram, "Bright Blue", "Smooth Outline", 15804, 1250.5)

  /** The fallback record contradicts itself: its numbers make the namers say
      "Grey/Dull" and "Fragmented Shape" (15804 contours is far above 500),
      while it stores "Bright Blue" and "Smooth Outline". */
  lemma FallbackIsInconsistent()
    ensures GetDominantColorName(FallbackAnalysis.colorHistogram) == "Grey/Dull"
    ensures AssessShapeQuality(FallbackAnalysis.contourCount, FallbackAnalysis.laplacianVariance)
              == "Fragmented Shape"
    ensures !SelfConsistent(FallbackAnalysis)
  {
  }

  /** What the scorer makes of the fallback record. */
  lemma FallbackBuckets()
    ensures Scoring.ClassifyDominantColor(FallbackAnalysis.colorHistogram) == Scoring.BrightBlueWhite
    ensures Scoring.ClassifyShapeQuality(FallbackAnalysis.contourCount, FallbackAnalysis.laplacianVariance)
              == Scoring.Fragmented
    ensures Scoring.ClassifySharpness(FallbackAnalysis.laplacianVariance) == Scoring.High
  {
  }

  /** The demonstration path: when both the classifier and the image analysis
      fail, their fallback outputs (top label "Brick of Purity", confidence
      0.84, and the fallback record) score 30 + 20 + 0 + 10 = 60. */
  lemma FallbackScore(rnd: real)
    requires 0.0 <= rnd < 1.0
    ensures Scoring.CalculateSoaplinessScore(Prediction("Brick of Purity", 0.84), FallbackAnalysis, rnd).finalScore
              == 60
  {
    Scoring.ClassNameRoundTrip(Scoring.BrickOfPurity);
    FallbackBuckets();
  }
}
