/**
 The certificate: the fields it prints, taken from a finished analysis, and the
 file name it is downloaded under, built from a slug of the nickname
 (`nickname.replace(/\s+/g, '-').toLowerCase()`).
 */
module Certificate {
  import opened Text
  import opened SoapAnalysis
  import Scoring

  // ---------------------------------------------------------------------------
  // Slug

  /** `s` without its leading white space. */
  function SkipSpaces(s: string): (t: string)
    ensures |t| <= |s|
  {
    if s != [] && IsSpace(s[0]) then SkipSpaces(s[1..]) else s
  }

  /** What skipping drops is white space from the front, and what it keeps
      does not start with white space. */
  lemma {:induction false} SkipSpacesDropsPrefix(s: string)
    ensures var t := SkipSpaces(s);
            && t == s[|s| - |t|..]
            && (forall i :: 0 <= i < |s| - |t| ==> IsSpace(s[i]))
            && (t == [] || !IsSpace(t[0]))
    decreases |s|
  {
    if s != [] && IsSpace(s[0]) {
      SkipSpacesDropsPrefix(s[1..]);
    }
  }

  /** `s.replace(/\s+/g, '-')`: every maximal run of white space becomes one
      dash, so the result is no longer than `s` and has no white space. */
  function ReplaceSpaceRuns(s: string): (r: string)
    ensures |r| <= |s|
    ensures SpaceFree(r)
    decreases |s|
  {
    if s == [] then []
    else if IsSpace(s[0]) then "-" + ReplaceSpaceRuns(SkipSpaces(s[1..]))
    else [s[0]] + ReplaceSpaceRuns(s[1..])
  }

  /** The nickname part of the download file name. */
  function Slug(nickname: string): (slug: string)
    ensures |slug| <= |nickname|
    ensures SpaceFree(slug)
  {
    LowerKeepsSpaceFree(ReplaceSpaceRuns(nickname));
    Lower(ReplaceSpaceRuns(nickname))
  }

  /** Every character of `w` is white space. */
  predicate AllSpace(w: string) {
    forall i :: 0 <= i < |w| ==> IsSpace(w[i])
  }

  /** `s` with its white space and dashes taken out: the text a slug must keep. */
  function Visible(s: string): string {
    if s == [] then []
    else if IsSpace(s[0]) || s[0] == '-' then Visible(s[1..])
    else [s[0]] + Visible(s[1..])
  }

  lemma {:induction false} ReplaceKeepsSpaceFree(s: string)
    requires SpaceFree(s)
    ensures ReplaceSpaceRuns(s) == s
    decreases |s|
  {
    if s != [] {
      assert !IsSpace(s[0]);
      ReplaceKeepsSpaceFree(s[1..]);
    }
  }

  lemma {:induction false} SkipKeepsVisible(s: string)
    ensures Visible(SkipSpaces(s)) == Visible(s)
    decreases |s|
  {
    if s != [] && IsSpace(s[0]) {
      SkipKeepsVisible(s[1..]);
    }
  }

  lemma {:induction false} ReplaceKeepsVisible(s: string)
    ensures Visible(ReplaceSpaceRuns(s)) == Visible(s)
    decreases |s|
  {
    if s == [] {
    } else if IsSpace(s[0]) {
      var rest := SkipSpaces(s[1..]);
      ReplaceKeepsVisible(rest);
      SkipKeepsVisible(s[1..]);
      assert ("-" + ReplaceSpaceRuns(rest))[1..] == ReplaceSpaceRuns(rest);
    } else {
      ReplaceKeepsVisible(s[1..]);
      assert ([s[0]] + ReplaceSpaceRuns(s[1..]))[1..] == ReplaceSpaceRuns(s[1..]);
    }
  }

  /** The replacement starts with the first character when that is not white space. */
  lemma ReplaceStartsWithFirst(s: string)
    requires s != [] && !IsSpace(s[0])
    ensures ReplaceSpaceRuns(s) != [] && ReplaceSpaceRuns(s)[0] == s[0]
  {
  }

  /** Without dashes of its own, the replacement never puts two dashes side by
      side: each run of white space, however long, gives a single dash. */
  lemma {:induction false} ReplaceGivesSingleDashes(s: string)
    requires '-' !in s
    ensures forall i :: 0 <= i < |ReplaceSpaceRuns(s)| - 1 ==>
              !(ReplaceSpaceRuns(s)[i] == '-' && ReplaceSpaceRuns(s)[i + 1] == '-')
    decreases |s|
  {
    if s == [] {
    } else if IsSpace(s[0]) {
      var rest := SkipSpaces(s[1..]);
      SkipSpacesDropsPrefix(s[1..]);
      assert forall c :: c in rest ==> c in s;
      ReplaceGivesSingleDashes(rest);
      if rest != [] {
        ReplaceStartsWithFirst(rest);
      }
      var t := ReplaceSpaceRuns(s);
      assert t == "-" + ReplaceSpaceRuns(rest);
      forall i | 0 <= i < |t| - 1
        ensures !(t[i] == '-' && t[i + 1] == '-')
      {
        if i > 0 {
          assert t[i] == ReplaceSpaceRuns(rest)[i - 1];
          assert t[i + 1] == ReplaceSpaceRuns(rest)[i];
        }
      }
    } else {
      assert forall c :: c in s[1..] ==> c in s;
      ReplaceGivesSingleDashes(s[1..]);
      var t := ReplaceSpaceRuns(s);
      assert t == [s[0]] + ReplaceSpaceRuns(s[1..]);
      forall i | 0 <= i < |t| - 1
        ensures !(t[i] == '-' && t[i + 1] == '-')
      {
        if i > 0 {
          assert t[i] == ReplaceSpaceRuns(s[1..])[i - 1];
          assert t[i + 1] == ReplaceSpaceRuns(s[1..])[i];
        }
      }
    }
  }

  lemma {:induction false} VisibleOfLower(s: string)
    ensures Visible(Lower(s)) == Lower(Visible(s))
    decreases |s|
  {
    if s != [] {
      LowerCharKeepsSpace(s[0]);
      assert Lower(s)[1..] == Lower(s[1..]);
      VisibleOfLower(s[1..]);
      if !IsSpace(s[0]) && s[0] != '-' {
        LowerAppend([s[0]], Visible(s[1..]));
      }
    }
  }

  /** The slug has no white space; the characters other than white space and
      dashes survive in order, lower-cased; and slugging a slug changes nothing.
      (Dashes are set aside here because each white-space run adds one;
      `ReplaceAcrossRun` says exactly where.) */
  lemma SlugProperties(nickname: string)
    ensures SpaceFree(Slug(nickname))
    ensures Visible(Slug(nickname)) == Lower(Visible(nickname))
    ensures Slug(Slug(nickname)) == Slug(nickname)
  {
    var replaced := ReplaceSpaceRuns(nickname);
    ReplaceKeepsVisible(nickname);
    VisibleOfLower(replaced);
    ReplaceKeepsSpaceFree(Slug(nickname));
    LowerIdempotent(replaced);
  }

  /** Skipping a run of white space stops at the first character after it. */
  lemma {:induction false} SkipRun(w: string, b: string)
    requires AllSpace(w) && (b == [] || !IsSpace(b[0]))
    ensures SkipSpaces(w + b) == b
    decreases |w|
  {
    if w == [] {
      assert w + b == b;
    } else {
      assert (w + b)[0] == w[0];
      assert (w + b)[1..] == w[1..] + b;
      SkipRun(w[1..], b);
    }
  }

  /** A run of white space of any length between a space-free part (which may
      hold dashes of its own) and text that does not start with white space
      becomes exactly one dash; the part before it is kept as it is. */
  lemma {:induction false} ReplaceAcrossRun(a: string, w: string, b: string)
    requires SpaceFree(a) && w != [] && AllSpace(w) && (b == [] || !IsSpace(b[0]))
    ensures ReplaceSpaceRuns(a + w + b) == a + "-" + ReplaceSpaceRuns(b)
    decreases |a|
  {
    if a == [] {
      assert a + w + b == w + b;
      assert (w + b)[0] == w[0];
      assert (w + b)[1..] == w[1..] + b;
      SkipRun(w[1..], b);
    } else {
      assert !IsSpace(a[0]);
      assert (a + w + b)[0] == a[0];
      assert (a + w + b)[1..] == a[1..] + w + b;
      ReplaceAcrossRun(a[1..], w, b);
    }
  }

  /** The same on slugs: the part before the run is lower-cased, the run is one
      dash, and the rest is slugged. */
  lemma SlugAcrossRun(a: string, w: string, b: string)
    requires SpaceFree(a) && w != [] && AllSpace(w) && (b == [] || !IsSpace(b[0]))
    ensures Slug(a + w + b) == Lower(a) + "-" + Slug(b)
  {
    ReplaceAcrossRun(a, w, b);
    LowerAppend(a + "-", ReplaceSpaceRuns(b));
    LowerAppend(a, "-");
  }

  /** A single space is the shortest such run. */
  lemma ReplaceAcrossSpace(a: string, b: string)
    requires SpaceFree(a) && (b == [] || !IsSpace(b[0]))
    ensures ReplaceSpaceRuns(a + " " + b) == a + "-" + ReplaceSpaceRuns(b)
  {
    ReplaceAcrossRun(a, " ", b);
  }

  /** Two space-free words joined by a space slug to their lower-case forms
      joined by a dash. */
  lemma SlugOfTwoWords(a: string, b: string)
    requires SpaceFree(a) && SpaceFree(b)
    ensures Slug(a + " " + b) == Lower(a) + "-" + Lower(b)
  {
    assert AllSpace(" ");
    SlugAcrossRun(a, " ", b);
    ReplaceKeepsSpaceFree(b);
  }

  /** The same for three words. */
  lemma SlugOfThreeWords(a: string, b: string, c: string)
    requires SpaceFree(a) && SpaceFree(b) && SpaceFree(c) && b != []
    ensures Slug(a + " " + b + " " + c) == Lower(a) + "-" + Lower(b) + "-" + Lower(c)
  {
    var tail := b + " " + c;
    var la, lb, lc := Lower(a), Lower(b), Lower(c);
    assert a + " " + b + " " + c == a + " " + tail;
    assert tail[0] == b[0];
    assert AllSpace(" ");
    SlugAcrossRun(a, " ", tail);
    SlugOfTwoWords(b, c);
    assert la + "-" + (lb + "-" + lc) == la + "-" + lb + "-" + lc;
  }

  /** `SlugOfTwoWords` with the joined nickname and slug spelled out. */
  lemma TwoWordSlug(a: string, b: string, la: string, lb: string, nickname: string, slug: string)
    requires SpaceFree(a) && SpaceFree(b)
    requires la == Lower(a) && lb == Lower(b)
    requires nickname == a + " " + b && slug == la + "-" + lb
    ensures Slug(nickname) == slug
  {
    SlugOfTwoWords(a, b);
  }

  /** `SlugOfThreeWords` with the joined nickname and slug spelled out. */
  lemma ThreeWordSlug(a: string, b: string, c: string, la: string, lb: string, lc: string,
                      nickname: string, slug: string)
    requires SpaceFree(a) && SpaceFree(b) && SpaceFree(c) && b != []
    requires la == Lower(a) && lb == Lower(b) && lc == Lower(c)
    requires nickname == a + " " + b + " " + c && slug == la + "-" + lb + "-" + lc
    ensures Slug(nickname) == slug
  {
    SlugOfThreeWords(a, b, c);
  }

  // The slugs of the ten nicknames.  For each nickname, `WordsOf…` states
  // that its words are space-free and what they lower-case to, and `JoinsOf…`
  // how the nickname and the slug are put together from the words.  The facts
  // are proved in separate lemmas so that each proof about literal strings
  // stays small.

  lemma WordsOfSlippySuddington()
    ensures SpaceFree("Slippy") && SpaceFree("Suddington")
    ensures Lower("Slippy") == "slippy" && Lower("Suddington") == "suddington"
  {
  }

  lemma JoinsOfSlippySuddington()
    ensures "Slippy Suddington" == "Slippy" + " " + "Suddington"
    ensures "slippy-suddington" == "slippy" + "-" + "suddington"
  {
  }

  lemma SlugOfSlippySuddington()
    ensures Slug("Slippy Suddington") == "slippy-suddington"
  {
    WordsOfSlippySuddington();
    JoinsOfSlippySuddington();
    TwoWordSlug("Slippy", "Suddington", "slippy", "suddington", "Slippy Suddington", "slippy-suddington");
  }

  lemma WordsOfBubbliciousMcfoam()
    ensures SpaceFree("Bubblicious") && SpaceFree("McFoam")
    ensures Lower("Bubblicious") == "bubblicious" && Lower("McFoam") == "mcfoam"
  {
  }

  lemma JoinsOfBubbliciousMcfoam()
    ensures "Bubblicious McFoam" == "Bubblicious" + " " + "McFoam"
    ensures "bubblicious-mcfoam" == "bubblicious" + "-" + "mcfoam"
  {
  }

  lemma SlugOfBubbliciousMcfoam()
    ensures Slug("Bubblicious McFoam") == "bubblicious-mcfoam"
  {
    WordsOfBubbliciousMcfoam();
    JoinsOfBubbliciousMcfoam();
    TwoWordSlug("Bubblicious", "McFoam", "bubblicious", "mcfoam", "Bubblicious McFoam", "bubblicious-mcfoam");
  }

  lemma WordsOfSirLathersALot()
    ensures SpaceFree("Sir") && SpaceFree("Lathers-a-Lot")
    ensures Lower("Sir") == "sir" && Lower("Lathers-a-Lot") == "lathers-a-lot"
  {
  }

  lemma JoinsOfSirLathersALot()
    ensures "Sir Lathers-a-Lot" == "Sir" + " " + "Lathers-a-Lot"
    ensures "sir-lathers-a-lot" == "sir" + "-" + "lathers-a-lot"
  {
  }

  lemma SlugOfSirLathersALot()
    ensures Slug("Sir Lathers-a-Lot") == "sir-lathers-a-lot"
  {
    WordsOfSirLathersALot();
    JoinsOfSirLathersALot();
    TwoWordSlug("Sir", "Lathers-a-Lot", "sir", "lathers-a-lot", "Sir Lathers-a-Lot", "sir-lathers-a-lot");
  }

  lemma WordsOfCaptainSqueakyClean()
    ensures SpaceFree("Captain") && SpaceFree("Squeaky") && SpaceFree("Clean")
    ensures Lower("Captain") == "captain" && Lower("Squeaky") == "squeaky" && Lower("Clean") == "clean"
  {
  }

  lemma JoinsOfCaptainSqueakyClean()
    ensures "Captain Squeaky Clean" == "Captain" + " " + "Squeaky" + " " + "Clean"
    ensures "captain-squeaky-clean" == "captain" + "-" + "squeaky" + "-" + "clean"
  {
  }

  lemma SlugOfCaptainSqueakyClean()
    ensures Slug("Captain Squeaky Clean") == "captain-squeaky-clean"
  {
    WordsOfCaptainSqueakyClean();
    JoinsOfCaptainSqueakyClean();
    ThreeWordSlug("Captain", "Squeaky", "Clean", "captain", "squeaky", "clean", "Captain Squeaky Clean", "captain-squeaky-clean");
  }

  lemma WordsOfTheSudsySage()
    ensures SpaceFree("The") && SpaceFree("Sudsy") && SpaceFree("Sage")
    ensures Lower("The") == "the" && Lower("Sudsy") == "sudsy" && Lower("Sage") == "sage"
  {
  }

  lemma JoinsOfTheSudsySage()
    ensures "The Sudsy Sage" == "The" + " " + "Sudsy" + " " + "Sage"
    ensures "the-sudsy-sage" == "the" + "-" + "sudsy" + "-" + "sage"
  {
  }

  lemma SlugOfTheSudsySage()
    ensures Slug("The Sudsy Sage") == "the-sudsy-sage"
  {
    WordsOfTheSudsySage();
    JoinsOfTheSudsySage();
    ThreeWordSlug("The", "Sudsy", "Sage", "the", "sudsy", "sage", "The Sudsy Sage", "the-sudsy-sage");
  }

  lemma WordsOfFoamRanger()
    ensures SpaceFree("Foam") && SpaceFree("Ranger")
    ensures Lower("Foam") == "foam" && Lower("Ranger") == "ranger"
  {
  }

  lemma JoinsOfFoamRanger()
    ensures "Foam Ranger" == "Foam" + " " + "Ranger"
    ensures "foam-ranger" == "foam" + "-" + "ranger"
  {
  }

  lemma SlugOfFoamRanger()
    ensures Slug("Foam Ranger") == "foam-ranger"
  {
    WordsOfFoamRanger();
    JoinsOfFoamRanger();
    TwoWordSlug("Foam", "Ranger", "foam", "ranger", "Foam Ranger", "foam-ranger");
  }

  lemma WordsOfBubbleMasterSupreme()
    ensures SpaceFree("Bubble") && SpaceFree("Master") && SpaceFree("Supreme")
    ensures Lower("Bubble") == "bubble" && Lower("Master") == "master" && Lower("Supreme") == "supreme"
  {
  }

  lemma JoinsOfBubbleMasterSupreme()
    ensures "Bubble Master Supreme" == "Bubble" + " " + "Master" + " " + "Supreme"
    ensures "bubble-master-supreme" == "bubble" + "-" + "master" + "-" + "supreme"
  {
  }

  lemma SlugOfBubbleMasterSupreme()
    ensures Slug("Bubble Master Supreme") == "bubble-master-supreme"
  {
    WordsOfBubbleMasterSupreme();
    JoinsOfBubbleMasterSupreme();
    ThreeWordSlug("Bubble", "Master", "Supreme", "bubble", "master", "supreme", "Bubble Master Supreme", "bubble-master-supreme");
  }

  lemma WordsOfTheCleanlinessCrusader()
    ensures SpaceFree("The") && SpaceFree("Cleanliness") && SpaceFree("Crusader")
    ensures Lower("The") == "the" && Lower("Cleanliness") == "cleanliness" && Lower("Crusader") == "crusader"
  {
  }

  lemma JoinsOfTheCleanlinessCrusader()
    ensures "The Cleanliness Crusader" == "The" + " " + "Cleanliness" + " " + "Crusader"
    ensures "the-cleanliness-crusader" == "the" + "-" + "cleanliness" + "-" + "crusader"
  {
  }

  lemma SlugOfTheCleanlinessCrusader()
    ensures Slug("The Cleanliness Crusader") == "the-cleanliness-crusader"
  {
    WordsOfTheCleanlinessCrusader();
    JoinsOfTheCleanlinessCrusader();
    ThreeWordSlug("The", "Cleanliness", "Crusader", "the", "cleanliness", "crusader", "The Cleanliness Crusader", "the-cleanliness-crusader");
  }

  lemma WordsOfSqueakyMcgee()
    ensures SpaceFree("Squeaky") && SpaceFree("McGee")
    ensures Lower("Squeaky") == "squeaky" && Lower("McGee") == "mcgee"
  {
  }

  lemma JoinsOfSqueakyMcgee()
    ensures "Squeaky McGee" == "Squeaky" + " " + "McGee"
    ensures "squeaky-mcgee" == "squeaky" + "-" + "mcgee"
  {
  }

  lemma SlugOfSqueakyMcgee()
    ensures Slug("Squeaky McGee") == "squeaky-mcgee"
  {
    WordsOfSqueakyMcgee();
    JoinsOfSqueakyMcgee();
    TwoWordSlug("Squeaky", "McGee", "squeaky", "mcgee", "Squeaky McGee", "squeaky-mcgee");
  }

  lemma WordsOfProfessorPristine()
    ensures SpaceFree("Professor") && SpaceFree("Pristine")
    ensures Lower("Professor") == "professor" && Lower("Pristine") == "pristine"
  {
  }

  lemma JoinsOfProfessorPristine()
    ensures "Professor Pristine" == "Professor" + " " + "Pristine"
    ensures "professor-pristine" == "professor" + "-" + "pristine"
  {
  }

  lemma SlugOfProfessorPristine()
    ensures Slug("Professor Pristine") == "professor-pristine"
  {
    WordsOfProfessorPristine();
    JoinsOfProfessorPristine();
    TwoWordSlug("Professor", "Pristine", "professor", "pristine", "Professor Pristine", "professor-pristine");
  }

  /** The name the certificate image is saved under. */
  function DownloadFilename(nickname: string): (f: string)
    ensures SpaceFree(f)
    ensures |f| == 27 + |Slug(nickname)|
    ensures IsPrefix("soapliness-certificate-", f)
    ensures f[|f| - 4..] == ".png"
    ensures f[23..|f| - 4] == Slug(nickname)
  {
    "soapliness-certificate-" + Slug(nickname) + ".png"
  }

  // ---------------------------------------------------------------------------
  // Certificate fields

  /** The certificate fields read off a finished analysis.  The image field is
      left empty by the TypeScript code as well. */
  function CertificateDataOf(result: AnalysisResult): (cert: CertificateData)
    ensures cert.soapImage == ""
    ensures cert.soapClass == result.breakdown.soapClass.value
    ensures cert.color == result.breakdown.color.value
    ensures cert.shape == result.breakdown.shape.value
    ensures cert.sharpness == result.breakdown.sharpness.value
    ensures cert.score == result.finalScore
    ensures cert.nickname == result.nickname
    ensures cert.contours == result.openCVAnalysis.contourCount
  {
    CertificateData(
      "",
      result.breakdown.soapClass.value,
      result.nickname,
      result.finalScore,
      result.breakdown.color.value,
      result.breakdown.shape.value,
      result.openCVAnalysis.contourCount,
      result.breakdown.sharpness.value)
  }

  /** A result assembled from the scorer's output for its own top prediction
      and analysis. */
  predicate ScoredWith(result: AnalysisResult, rnd: real)
    requires 0.0 <= rnd < 1.0
  {
    var s := Scoring.CalculateSoaplinessScore(result.topPrediction, result.openCVAnalysis, rnd);
    && result.breakdown == s.breakdown
    && result.finalScore == s.finalScore
    && result.nickname == s.nickname
  }

  /** The certificate of a scored result is internally consistent: every label
      it prints is a row of its table, the printed score is the sum of those
      rows' points and at most 80, the nickname is one of the ten, a smooth
      shape comes with high sharpness, and the contour count is the measured one. */
  lemma CertificateIsConsistent(result: AnalysisResult, rnd: real)
    requires 0.0 <= rnd < 1.0
    requires ScoredWith(result, rnd)
    ensures var cert := CertificateDataOf(result);
            var analysis := result.openCVAnalysis;
            var cls := Scoring.ClassifyClass(result.topPrediction.className);
            var col := Scoring.ClassifyDominantColor(analysis.colorHistogram);
            var shp := Scoring.ClassifyShapeQuality(analysis.contourCount, analysis.laplacianVariance);
            var shr := Scoring.ClassifySharpness(analysis.laplacianVariance);
            && cert.soapClass == Scoring.ClassName(cls)
            && cert.color == Scoring.ColorLabel(col)
            && cert.shape == Scoring.ShapeLabel(shp)
            && cert.sharpness == Scoring.SharpnessLabel(shr)
            && cert.score == Scoring.ClassPoints(cls) + Scoring.ColorPoints(col)
                             + Scoring.ShapePoints(shp) + Scoring.SharpnessPoints(shr)
            && (exists c: Scoring.SoapClass :: Scoring.ClassName(c) == cert.soapClass)
            && cert.color in Scoring.ColorScoring
            && cert.shape in Scoring.ShapeScoring
            && cert.sharpness in Scoring.SharpnessScoring
            && cert.score == result.breakdown.soapClass.score
                             + Scoring.ColorScoring[cert.color].score
                             + Scoring.ShapeScoring[cert.shape].score
                             + Scoring.SharpnessScoring[cert.sharpness].score
            && 0 <= cert.score <= 80
            && cert.nickname in Scoring.SoapNicknames
            && (cert.shape == "Smooth Solid Contours" ==> cert.sharpness == "High")
            && cert.contours == result.openCVAnalysis.contourCount
  {
  }

  /** The certificate reads only the breakdown, the score, the nickname and the
      contour count: the predictions, the histogram, the variance and the
      image do not appear on it. */
  lemma CertificateReadsOnlyShownFields(r1: AnalysisResult, r2: AnalysisResult)
    requires r1.breakdown == r2.breakdown && r1.finalScore == r2.finalScore
    requires r1.nickname == r2.nickname
    requires r1.openCVAnalysis.contourCount == r2.openCVAnalysis.contourCount
    ensures CertificateDataOf(r1) == CertificateDataOf(r2)
  {
  }
}
