/**
 The Soapliness score composer: it buckets the classifier's top label and the
 three image measurements, looks the buckets up in the static point tables,
 sums the points and attaches a nickname.

 Bucket labels are datatypes with total point functions; the string-keyed
 tables of the TypeScript code are kept as maps so that the claim "every label a
 bucketing function emits is a key of its table" can be stated and proved.
 */
module Scoring {
  import opened Text
  import opened SoapAnalysis

  // ---------------------------------------------------------------------------
  // Class table

  datatype SoapClass = BrickOfPurity | PotionOfCleanliness | SoapDoppelganger

  function ClassName(c: SoapClass): string {
    match c
    case BrickOfPurity => "Brick of Purity"
    case PotionOfCleanliness => "Potion of Cleanliness"
    case SoapDoppelganger => "Soap Doppelgänger"
  }

  function ClassPoints(c: SoapClass): nat {
    match c
    case BrickOfPurity => 30
    case PotionOfCleanliness => 25
    case SoapDoppelganger => 0
  }

  /** The class table in its search order; the third entry is the default. */
  const SoapClasses: seq<SoapClass> := [BrickOfPurity, PotionOfCleanliness, SoapDoppelganger]

  /** A table entry matches a label when, both lower-cased, either contains the other. */
  predicate NameMatches(c: SoapClass, className: string) {
    var name := Lower(ClassName(c));
    var l := Lower(className);
    Contains(name, l) || Contains(l, name)
  }

  /** `Array.prototype.find` with the matching rule above, as a position: the
      index of the first matching entry, or `|entries|` when none matches. */
  function FindMatch(entries: seq<SoapClass>, className: string): (k: nat)
    ensures k <= |entries|
    ensures k < |entries| ==> NameMatches(entries[k], className)
    ensures forall j :: 0 <= j < k ==> !NameMatches(entries[j], className)
  {
    if entries == [] then 0
    else if NameMatches(entries[0], className) then 0
    else 1 + FindMatch(entries[1..], className)
  }

  /** The class of the top prediction: the first entry that matches, else the
      Soap Doppelgänger.  First match wins, so Brick of Purity takes every
      label it matches, and Potion of Cleanliness only the rest. */
  function ClassifyClass(className: string): (c: SoapClass)
    ensures c == BrickOfPurity <==> NameMatches(BrickOfPurity, className)
    ensures c == PotionOfCleanliness <==>
              !NameMatches(BrickOfPurity, className) && NameMatches(PotionOfCleanliness, className)
    ensures c == SoapDoppelganger <==>
              !NameMatches(BrickOfPurity, className) && !NameMatches(PotionOfCleanliness, className)
  {
    var k := FindMatch(SoapClasses, className);
    assert SoapClasses[0] == BrickOfPurity && SoapClasses[1] == PotionOfCleanliness;
    if k < |SoapClasses| then SoapClasses[k] else SoapClasses[2]
  }

  /** The lower-cased table names. */
  lemma ClassNamesLowered()
    ensures Lower(ClassName(BrickOfPurity)) == "brick of purity"
    ensures Lower(ClassName(PotionOfCleanliness)) == "potion of cleanliness"
    ensures Lower(ClassName(SoapDoppelganger)) == "soap doppelgänger"
  {
  }

  /** Any label whose lower-case form is a substring of "brick of purity" (the
      empty label and the exact name among them) is a Brick of Purity. */
  lemma BrickTakesItsSubstrings(className: string)
    requires Contains("brick of purity", Lower(className))
    ensures ClassifyClass(className) == BrickOfPurity
    ensures ClassPoints(ClassifyClass(className)) == 30
  {
    ClassNamesLowered();
  }

  lemma EmptyLabelIsBrick()
    ensures ClassifyClass("") == BrickOfPurity
  {
    ContainsEmptyAndSelf("brick of purity");
    BrickTakesItsSubstrings("");
  }

  /** A needle with a character the haystack lacks is not contained in it. */
  lemma MissingCharacterRulesOut(hay: string, needle: string, k: nat)
    requires k < |needle| && needle[k] !in hay
    ensures !Contains(hay, needle)
  {
    if Contains(hay, needle) {
      ContainsNeedsCharacters(hay, needle);
    }
  }

  /** A needle longer than the haystack is not contained in it. */
  lemma LongerRulesOut(hay: string, needle: string)
    requires |needle| > |hay|
    ensures !Contains(hay, needle)
  {
    if Contains(hay, needle) {
      ContainsNeedsCharacters(hay, needle);
    }
  }

  lemma PotionNameMatchesOnlyPotion()
    ensures !NameMatches(BrickOfPurity, ClassName(PotionOfCleanliness))
    ensures NameMatches(PotionOfCleanliness, ClassName(PotionOfCleanliness))
  {
    ClassNamesLowered();
    LowerIdempotent(ClassName(PotionOfCleanliness));
    var brick, potion := Lower(ClassName(BrickOfPurity)), Lower(ClassName(PotionOfCleanliness));
    ContainsEmptyAndSelf(potion);
    // 'b' does not occur in the potion name, which is too long to fit in the brick name
    assert brick[0] == 'b' && 'b' !in potion;
    MissingCharacterRulesOut(potion, brick, 0);
    LongerRulesOut(brick, potion);
  }

  lemma DoppelgangerNameIsNotBrick()
    ensures !NameMatches(BrickOfPurity, ClassName(SoapDoppelganger))
  {
    ClassNamesLowered();
    LowerIdempotent(ClassName(SoapDoppelganger));
    var brick, dopp := Lower(ClassName(BrickOfPurity)), Lower(ClassName(SoapDoppelganger));
    // 'b' does not occur in the doppelganger name, which is too long to fit in the brick name
    assert brick[0] == 'b' && 'b' !in dopp;
    MissingCharacterRulesOut(dopp, brick, 0);
    LongerRulesOut(brick, dopp);
  }

  lemma DoppelgangerNameIsNotPotion()
    ensures !NameMatches(PotionOfCleanliness, ClassName(SoapDoppelganger))
  {
    ClassNamesLowered();
    LowerIdempotent(ClassName(SoapDoppelganger));
    var potion, dopp := Lower(ClassName(PotionOfCleanliness)), Lower(ClassName(SoapDoppelganger));
    // 'd' does not occur in the potion name, which is too long to fit in the doppelganger name
    assert dopp[5] == 'd' && 'd' !in potion;
    MissingCharacterRulesOut(potion, dopp, 5);
    LongerRulesOut(dopp, potion);
  }

  /** Each table name is classified as its own class. */
  lemma ClassNameRoundTrip(c: SoapClass)
    ensures ClassifyClass(ClassName(c)) == c
  {
    match c
    case BrickOfPurity =>
      ClassNamesLowered();
      BrickTakesItsSubstrings(ClassName(c));
    case PotionOfCleanliness =>
      PotionNameMatchesOnlyPotion();
    case SoapDoppelganger =>
      DoppelgangerNameIsNotBrick();
      DoppelgangerNameIsNotPotion();
  }

  // ---------------------------------------------------------------------------
  // Point tables

  /** One row of a scoring table. */
  datatype ScoreRule = ScoreRule(interpretation: string, score: int)

  datatype ColorCategory = BrightBlueWhite | LightPinkYellow | GreyDull | MuddyDark

  function ColorLabel(c: ColorCategory): string {
    match c
    case BrightBlueWhite => "Bright Blue/White"
    case LightPinkYellow => "Light Pink/Yellow"
    case GreyDull => "Grey/Dull"
    case MuddyDark => "Muddy/Dark"
  }

  function ColorPoints(c: ColorCategory): nat {
    match c
    case BrightBlueWhite => 20
    case LightPinkYellow => 15
    case GreyDull => 10
    case MuddyDark => 0
  }

  const ColorScoring: map<string, ScoreRule> := map[
    "Bright Blue/White" := ScoreRule("Cosmically Pure", 20),
    "Light Pink/Yellow" := ScoreRule("Spiritually Acceptable", 15),
    "Grey/Dull" := ScoreRule("Mundane & Earthly", 10),
    "Muddy/Dark" := ScoreRule("Soap of the Underworld", 0)]

  datatype ShapeQuality = SmoothSolid | WobblyIrregular | Fragmented

  function ShapeLabel(s: ShapeQuality): string {
    match s
    case SmoothSolid => "Smooth Solid Contours"
    case WobblyIrregular => "Wobbly/Irregular Edge"
    case Fragmented => "Fragmented/No Shape"
  }

  function ShapePoints(s: ShapeQuality): nat {
    match s
    case SmoothSolid => 20
    case WobblyIrregular => 10
    case Fragmented => 0
  }

  const ShapeScoring: map<string, ScoreRule> := map[
    "Smooth Solid Contours" := ScoreRule("Sacredly Formed", 20),
    "Wobbly/Irregular Edge" := ScoreRule("Spiritually Incomplete", 10),
    "Fragmented/No Shape" := ScoreRule("Chaotic Foam Entity", 0)]

  datatype Sharpness = High | Medium | Low

  function SharpnessLabel(s: Sharpness): string {
    match s
    case High => "High"
    case Medium => "Medium"
    case Low => "Low"
  }

  function SharpnessPoints(s: Sharpness): nat {
    match s
    case High => 10
    case Medium => 5
    case Low => 0
  }

  const SharpnessScoring: map<string, ScoreRule> := map[
    "High" := ScoreRule("Crystal Clear", 10),
    "Medium" := ScoreRule("Slightly Fogged", 5),
    "Low" := ScoreRule("Fuzzy Suds", 0)]

  /** The string-keyed tables are exactly the bucket enumerations: every label a
      bucketing function can emit is a key whose points are the bucket's points,
      and every key is some bucket's label, so no lookup is ever undefined. */
  lemma TablesCoverEveryLabel()
    ensures forall c: ColorCategory ::
              ColorLabel(c) in ColorScoring && ColorScoring[ColorLabel(c)].score == ColorPoints(c)
    ensures forall k :: k in ColorScoring ==> exists c: ColorCategory :: ColorLabel(c) == k
    ensures forall s: ShapeQuality ::
              ShapeLabel(s) in ShapeScoring && ShapeScoring[ShapeLabel(s)].score == ShapePoints(s)
    ensures forall k :: k in ShapeScoring ==> exists s: ShapeQuality :: ShapeLabel(s) == k
    ensures forall s: Sharpness ::
              SharpnessLabel(s) in SharpnessScoring
              && SharpnessScoring[SharpnessLabel(s)].score == SharpnessPoints(s)
    ensures forall k :: k in SharpnessScoring ==> exists s: Sharpness :: SharpnessLabel(s) == k
  {
    forall k | k in ColorScoring
      ensures exists c: ColorCategory :: ColorLabel(c) == k
    {
      if k == "Bright Blue/White" { assert ColorLabel(BrightBlueWhite) == k; }
      else if k == "Light Pink/Yellow" { assert ColorLabel(LightPinkYellow) == k; }
      else if k == "Grey/Dull" { assert ColorLabel(GreyDull) == k; }
      else { assert ColorLabel(MuddyDark) == k; }
    }
    forall k | k in ShapeScoring
      ensures exists s: ShapeQuality :: ShapeLabel(s) == k
    {
      if k == "Smooth Solid Contours" { assert ShapeLabel(SmoothSolid) == k; }
      else if k == "Wobbly/Irregular Edge" { assert ShapeLabel(WobblyIrregular) == k; }
      else { assert ShapeLabel(Fragmented) == k; }
    }
    forall k | k in SharpnessScoring
      ensures exists s: Sharpness :: SharpnessLabel(s) == k
    {
      if k == "High" { assert SharpnessLabel(High) == k; }
      else if k == "Medium" { assert SharpnessLabel(Medium) == k; }
      else { assert SharpnessLabel(Low) == k; }
    }
  }

  // ---------------------------------------------------------------------------
  // Bucketing

  /** Red + green + blue: the first three histogram entries. */
  function Brightness(h: seq<real>): real
    requires |h| >= 3
  {
    h[0] + h[1] + h[2]
  }

  /** The colour bucket of a histogram.  With fewer than three entries the
      TypeScript code adds `undefined`, every comparison with the resulting NaN is
      false, and the chain falls through to "Muddy/Dark". */
  function ClassifyDominantColor(h: seq<real>): (c: ColorCategory)
    ensures |h| < 3 ==> c == MuddyDark
    ensures |h| >= 3 ==> (c == MuddyDark <==> Brightness(h) <= 0.4)
    ensures |h| >= 3 && 0.4 < Brightness(h) <= 0.7 ==> c == GreyDull
    ensures |h| >= 3 ==>
              (c == BrightBlueWhite <==> Brightness(h) > 0.7 && h[2] > 0.4 * Brightness(h))
    ensures |h| >= 3 ==>
              (c == LightPinkYellow <==>
                 Brightness(h) > 0.7 && h[2] <= 0.4 * Brightness(h)
                 && h[0] > 0.4 * Brightness(h) && h[1] > 0.3 * Brightness(h))
  {
    if |h| < 3 then MuddyDark
    else
      var total := h[0] + h[1] + h[2];
      if total == 0.0 then MuddyDark
      else
        var rRatio := h[0] / total;
        var gRatio := h[1] / total;
        var bRatio := h[2] / total;
        if total > 0.7 then
          RatioAbove(h[2], total, 0.4);
          RatioAbove(h[0], total, 0.4);
          RatioAbove(h[1], total, 0.3);
          if bRatio > 0.4 then BrightBlueWhite
          else if rRatio > 0.4 && gRatio > 0.3 then LightPinkYellow
          else GreyDull
        else if total > 0.4 then GreyDull
        else MuddyDark
  }

  /** With a positive total, a ratio exceeds a bound exactly when the part
      exceeds that fraction of the total. */
  lemma RatioAbove(part: real, total: real, bound: real)
    requires total > 0.0
    ensures part / total > bound <==> part > bound * total
  {
    assert part / total * total == part;
    if part / total > bound {
      assert part / total * total > bound * total;
    } else {
      assert part / total * total <= bound * total;
    }
  }

  /** Only the first three histogram entries influence the colour bucket. */
  lemma ColorReadsFirstThree(h1: seq<real>, h2: seq<real>)
    requires |h1| >= 3 && |h2| >= 3
    requires h1[..3] == h2[..3]
    ensures ClassifyDominantColor(h1) == ClassifyDominantColor(h2)
  {
    assert h1[0] == h1[..3][0] && h1[1] == h1[..3][1] && h1[2] == h1[..3][2];
    assert h2[0] == h2[..3][0] && h2[1] == h2[..3][1] && h2[2] == h2[..3][2];
  }

  /** The shape bucket: smooth needs a sharp image with few contours, wobbly a
      moderately sharp one with a moderate number; the rest is fragmented. */
  function ClassifyShapeQuality(contourCount: nat, variance: real): (s: ShapeQuality)
    ensures s == SmoothSolid <==> variance > 1000.0 && contourCount < 100
    ensures s == WobblyIrregular <==>
              variance > 100.0 && contourCount < 500 && !(variance > 1000.0 && contourCount < 100)
    ensures s == Fragmented <==> !(variance > 100.0 && contourCount < 500)
  {
    if variance > 1000.0 && contourCount < 100 then SmoothSolid
    else if variance > 100.0 && contourCount < 500 then WobblyIrregular
    else Fragmented
  }

  /** The sharpness tier of a Laplacian variance. */
  function ClassifySharpness(variance: real): (s: Sharpness)
    ensures s == High <==> variance > 1000.0
    ensures s == Low <==> variance <= 100.0
  {
    if variance > 1000.0 then High
    else if variance > 100.0 then Medium
    else Low
  }

  /** Shape and sharpness share the 100/1000 variance thresholds: shape is the
      sharpness tier cut down by the contour count. */
  lemma ShapeFollowsSharpness(contourCount: nat, variance: real)
    ensures ClassifyShapeQuality(contourCount, variance) == SmoothSolid <==>
              ClassifySharpness(variance) == High && contourCount < 100
    ensures ClassifyShapeQuality(contourCount, variance) == WobblyIrregular <==>
              ClassifySharpness(variance) != Low && contourCount < 500
              && !(ClassifySharpness(variance) == High && contourCount < 100)
    ensures ClassifyShapeQuality(contourCount, variance) == SmoothSolid ==>
              ClassifySharpness(variance) == High
    ensures ClassifyShapeQuality(contourCount, variance) == WobblyIrregular ==>
              ClassifySharpness(variance) != Low
    ensures ShapePoints(ClassifyShapeQuality(contourCount, variance))
              <= 2 * SharpnessPoints(ClassifySharpness(variance))
  {
  }

  /** A larger variance never lowers the sharpness tier. */
  lemma SharpnessMonotone(v1: real, v2: real)
    requires v1 <= v2
    ensures SharpnessPoints(ClassifySharpness(v1)) <= SharpnessPoints(ClassifySharpness(v2))
  {
  }

  /** A larger variance or a smaller contour count never lowers the shape tier. */
  lemma ShapeMonotone(c1: nat, v1: real, c2: nat, v2: real)
    requires v1 <= v2 && c2 <= c1
    ensures ShapePoints(ClassifyShapeQuality(c1, v1)) <= ShapePoints(ClassifyShapeQuality(c2, v2))
  {
  }

  /** The comparisons are strict: a variance of exactly 1000 is Medium and never
      Smooth, one of exactly 100 is Low and Fragmented. */
  lemma ThresholdsAreStrict(contourCount: nat)
    ensures ClassifySharpness(1000.0) == Medium
    ensures ClassifyShapeQuality(contourCount, 1000.0) != SmoothSolid
    ensures ClassifySharpness(100.0) == Low
    ensures ClassifyShapeQuality(contourCount, 100.0) == Fragmented
    ensures ClassifyShapeQuality(99, 1000.5) == SmoothSolid
    ensures ClassifyShapeQuality(100, 1000.5) == WobblyIrregular
    ensures ClassifyShapeQuality(500, 1000.5) == Fragmented
  {
  }

  // ---------------------------------------------------------------------------
  // Nickname

  const SoapNicknames: seq<string> := [
    "Slippy Suddington",
    "Bubblicious McFoam",
    "Sir Lathers-a-Lot",
    "Captain Squeaky Clean",
    "The Sudsy Sage",
    "Foam Ranger",
    "Bubble Master Supreme",
    "The Cleanliness Crusader",
    "Squeaky McGee",
    "Professor Pristine"]

  /** `Math.floor(rnd * length)` for a random number `rnd` in [0, 1). */
  function NicknameIndex(rnd: real): (i: nat)
    requires 0.0 <= rnd < 1.0
    ensures i < |SoapNicknames|
  {
    (rnd * (|SoapNicknames| as real)).Floor
  }

  /** Each of the ten nicknames is chosen on a tenth of [0, 1). */
  lemma NicknameIndexUniform(rnd: real, i: nat)
    requires 0.0 <= rnd < 1.0
    ensures NicknameIndex(rnd) == i <==> (i as real) / 10.0 <= rnd < ((i + 1) as real) / 10.0
  {
  }

  function RandomNickname(rnd: real): (n: string)
    requires 0.0 <= rnd < 1.0
    ensures n in SoapNicknames
  {
    SoapNicknames[NicknameIndex(rnd)]
  }

  // ---------------------------------------------------------------------------
  // Composition

  /** The scorer's result. */
  datatype SoaplinessScore = SoaplinessScore(breakdown: ScoreBreakdown, finalScore: int, nickname: string)

  predicate IsClassRow(e: ScoreEntry) {
    exists c: SoapClass :: ClassName(c) == e.value && ClassPoints(c) == e.score
  }

  predicate IsTableRow(table: map<string, ScoreRule>, e: ScoreEntry) {
    e.value in table && table[e.value].score == e.score
  }

  /** The four breakdown entries, each looked up in its table by label.  Each
      entry carries the label of the bucket its classifier computes and that
      bucket's points, and is a row of its table. */
  function ComposeBreakdown(top: Prediction, analysis: OpenCVAnalysis): (b: ScoreBreakdown)
    ensures var cls := ClassifyClass(top.className);
            b.soapClass == ScoreEntry(ClassName(cls), ClassPoints(cls))
    ensures var col := ClassifyDominantColor(analysis.colorHistogram);
            b.color == ScoreEntry(ColorLabel(col), ColorPoints(col))
    ensures var shp := ClassifyShapeQuality(analysis.contourCount, analysis.laplacianVariance);
            b.shape == ScoreEntry(ShapeLabel(shp), ShapePoints(shp))
    ensures var shr := ClassifySharpness(analysis.laplacianVariance);
            b.sharpness == ScoreEntry(SharpnessLabel(shr), SharpnessPoints(shr))
    ensures IsClassRow(b.soapClass)
    ensures IsTableRow(ColorScoring, b.color)
    ensures IsTableRow(ShapeScoring, b.shape)
    ensures IsTableRow(SharpnessScoring, b.sharpness)
    ensures b.shape.value == "Smooth Solid Contours" ==> b.sharpness.value == "High"
    ensures b.shape.value == "Wobbly/Irregular Edge" ==> b.sharpness.value != "Low"
  {
    TablesCoverEveryLabel();
    var soapClass := ClassifyClass(top.className);
    var color := ColorLabel(ClassifyDominantColor(analysis.colorHistogram));
    var shape := ShapeLabel(ClassifyShapeQuality(analysis.contourCount, analysis.laplacianVariance));
    var sharpness := SharpnessLabel(ClassifySharpness(analysis.laplacianVariance));
    ShapeFollowsSharpness(analysis.contourCount, analysis.laplacianVariance);
    ScoreBreakdown(
      ScoreEntry(ClassName(soapClass), ClassPoints(soapClass)),
      ScoreEntry(color, ColorScoring[color].score),
      ScoreEntry(shape, ShapeScoring[shape].score),
      ScoreEntry(sharpness, SharpnessScoring[sharpness].score))
  }

  function BreakdownTotal(b: ScoreBreakdown): int {
    b.soapClass.score + b.color.score + b.shape.score + b.sharpness.score
  }

  /** The whole composer: breakdown, its sum and a nickname.  The score is the
      sum of the four buckets' points and never exceeds 80, although the user
      interface presents it out of 100. */
  function CalculateSoaplinessScore(top: Prediction, analysis: OpenCVAnalysis, rnd: real)
    : (r: SoaplinessScore)
    requires 0.0 <= rnd < 1.0
    ensures r.finalScore == BreakdownTotal(r.breakdown)
    ensures r.finalScore ==
              ClassPoints(ClassifyClass(top.className))
              + ColorPoints(ClassifyDominantColor(analysis.colorHistogram))
              + ShapePoints(ClassifyShapeQuality(analysis.contourCount, analysis.laplacianVariance))
              + SharpnessPoints(ClassifySharpness(analysis.laplacianVariance))
    ensures 0 <= r.finalScore <= 80
    ensures r.nickname in SoapNicknames
  {
    TablesCoverEveryLabel();
    var b := ComposeBreakdown(top, analysis);
    SoaplinessScore(b, BreakdownTotal(b), RandomNickname(rnd))
  }

  /** The random draw picks the nickname and nothing else. */
  lemma NicknameAffectsNothingElse(top: Prediction, analysis: OpenCVAnalysis, rnd1: real, rnd2: real)
    requires 0.0 <= rnd1 < 1.0 && 0.0 <= rnd2 < 1.0
    ensures CalculateSoaplinessScore(top, analysis, rnd1).breakdown
              == CalculateSoaplinessScore(top, analysis, rnd2).breakdown
    ensures CalculateSoaplinessScore(top, analysis, rnd1).finalScore
              == CalculateSoaplinessScore(top, analysis, rnd2).finalScore
  {
  }

  /** 80 is reached exactly by a bar soap that scores top colour and smooth
      shape (smooth shape already forces high sharpness). */
  lemma {:induction false} PerfectScore(top: Prediction, analysis: OpenCVAnalysis, rnd: real)
    requires 0.0 <= rnd < 1.0
    ensures CalculateSoaplinessScore(top, analysis, rnd).finalScore == 80 <==>
              ClassifyClass(top.className) == BrickOfPurity
              && ClassifyDominantColor(analysis.colorHistogram) == BrightBlueWhite
              && ClassifyShapeQuality(analysis.contourCount, analysis.laplacianVariance) == SmoothSolid
  {
    ShapeFollowsSharpness(analysis.contourCount, analysis.laplacianVariance);
  }

  /** With the label and histogram fixed, a sharper image with no more contours
      never scores less. */
  lemma ScoreMonotone(top: Prediction, a1: OpenCVAnalysis, a2: OpenCVAnalysis, rnd: real)
    requires 0.0 <= rnd < 1.0
    requires a1.colorHistogram == a2.colorHistogram
    requires a1.laplacianVariance <= a2.laplacianVariance
    requires a2.contourCount <= a1.contourCount
    ensures CalculateSoaplinessScore(top, a1, rnd).finalScore
              <= CalculateSoaplinessScore(top, a2, rnd).finalScore
  {
    SharpnessMonotone(a1.laplacianVariance, a2.laplacianVariance);
    ShapeMonotone(a1.contourCount, a1.laplacianVariance, a2.contourCount, a2.laplacianVariance);
  }

  /** The worked examples of the scoring rules. */
  lemma WorkedExamples()
    ensures ClassifyDominantColor([0.1, 0.1, 0.1]) == MuddyDark
    ensures ClassifyDominantColor([0.1, 0.2, 0.5]) == BrightBlueWhite
    ensures ClassifyShapeQuality(50, 1500.0) == SmoothSolid && ClassifySharpness(1500.0) == High
    ensures ClassifyShapeQuality(600, 50.0) == Fragmented && ClassifySharpness(50.0) == Low
    ensures CalculateSoaplinessScore(
              Prediction("Brick of Purity", 0.84),
              OpenCVAnalysis([0.1, 0.2, 0.5], "", "", 50, 1500.0), 0.0).finalScore == 80
  {
    ClassNameRoundTrip(BrickOfPurity);
  }
}
