# LatherMind Soapliness scoring, in Dafny

LatherMind grades a photo of a soap. A classifier names the soap class and an
image analysis measures the photo. The score composer turns both into a
"Soapliness" score made of four parts:

- the class of the top label: Brick of Purity, Potion of Cleanliness or Soap
  Doppelgänger;
- a colour bucket computed from the first three histogram entries;
- a shape bucket computed from the contour count and the Laplacian variance;
- a sharpness bucket computed from the variance.

The composer looks each bucket up in a static points table, sums the four
points and attaches one of ten random nicknames. The certificate shows the
breakdown and is downloaded under a file name made from a slug of the
nickname.

The model is five modules:

- `Text` (`text.dfy`): JavaScript's `toLowerCase` on ASCII letters,
  `String.prototype.includes`, and the regular-expression class `\s`.
- `SoapAnalysis` (`soap_analysis.dfy`): the record shapes of
  `client/src/types/soap-analysis.ts`.
- `Scoring` (`scoring.dfy`): the bucketing functions, the points tables and the
  composer of `client/src/lib/scoring.ts`.
- `OpenCv` (`opencv.dfy`): the pure helpers of `client/src/lib/opencv.ts`:
  - the display colour namer;
  - the shape and sharpness assessors;
  - the histogram metrics and their max-normalisation;
  - the record the analysis returns;
  - the hard-coded fallback record.
- `Certificate` (`certificate.dfy`): the certificate fields and the download
  file name of `client/src/components/certificate-modal.tsx`.

Numbers are `real` and comparisons are exact. The contour count is a `nat`.
Bucket labels are datatypes with total point functions. The string-keyed
tables are kept as maps, so "every label a bucketing function emits is a key of
its table" is a proved statement; the TypeScript code only assumes it, through
`as keyof` casts. `Math.random()` is a parameter `rnd` in [0, 1).

Facts about the TypeScript code that the proofs establish:

- The four tables sum to at most 80, and 80 is reached exactly by a Brick of
  Purity with the top colour and a smooth shape. The user interface still
  prints the score "/100" (`client/src/components/upload-section.tsx:61`,
  `client/src/components/results-section.tsx:17`,
  `client/src/components/certificate-modal.tsx:67`,
  `client/src/components/certificate-modal.tsx:137`). The model keeps the
  80-point scale.
- The colour histogram can take one of two values, depending on how the
  OpenCV.js calls behave; those calls are not part of the model.
  - Suppose `calcHist` returns a full-range count per channel. Then each
    channel sum counts every pixel once and equals the pixel count, and the
    normalised histogram is `[1, 1, 1, 0.2, 0.3, 0.25]` for every non-empty
    image. The scorer reads it as "Grey/Dull" and the display namer calls it
    "Bright White" (`HistogramIsImageIndependent`,
    `ImageIndependentHistogramColors`).
  - Suppose instead any call in `calculateColorHistogram` throws. This
    happens, for example, if `cv.MatVector` cannot be built from an array
    (`client/src/lib/opencv.ts:146`). The catch then returns the fixed
    histogram `[0.3, 0.2, 0.5, 0.4, 0.6, 0.8]`
    (`client/src/lib/opencv.ts:173-175`). The scorer reads it as "Bright
    Blue/White" and the display namer calls it "Grey/Dull" (`FallbackBuckets`,
    `FallbackIsInconsistent`).
  - Nothing in the model decides which of the two happens. In both cases the
    colour is the same for every photo.
- The fallback record stores "Bright Blue" and "Smooth Outline". Its own
  numbers make the namers say "Grey/Dull" and "Fragmented Shape" (15804
  contours).
- An empty label, and any label that is a substring of "brick of purity",
  becomes a Brick of Purity, because that table entry is tried first.
- A histogram shorter than three entries makes the TypeScript code compute with
  `undefined`. The result is NaN, every comparison is false, and the scorer
  falls through to "Muddy/Dark" while the display namer gives "Grey/Dull". The
  model states both outcomes explicitly.

## Model

| member | source | states |
|---|---|---|
| `Text.Lower` | client/src/lib/scoring.ts:111-112 | no capital letter A-Z is left; every other character is kept in place; each capital becomes its lower-case letter |
| `Text.LowerIdempotent` | client/src/lib/scoring.ts:111-112 | lower-casing twice is lower-casing once |
| `Text.LowerAppend` | client/src/lib/scoring.ts:111-112 | lower-casing a concatenation lower-cases each part |
| `Text.LowerKeepsSpaceFree` | client/src/components/certificate-modal.tsx:46 | lower-casing text without white space leaves it without white space |
| `Text.ContainsIffOccurs` | client/src/lib/scoring.ts:111-112 | the recursive `includes` holds exactly when the needle occurs at some position |
| `Text.ContainsNeedsCharacters` | client/src/lib/scoring.ts:111-112 | a contained needle is no longer than the haystack and all its characters occur in it |
| `Scoring.FindMatch` | client/src/lib/scoring.ts:110-113 | the search returns the first matching table position, no earlier entry matches, and the table length means no match |
| `Scoring.ClassifyClass` | client/src/lib/scoring.ts:110-113 | Brick exactly when Brick matches; Potion exactly when Brick does not and Potion does; Doppelgänger exactly when neither does |
| `Scoring.BrickTakesItsSubstrings` | client/src/lib/scoring.ts:110-113 | every label whose lower-case form is a substring of "brick of purity" scores as Brick of Purity, 30 points |
| `Scoring.EmptyLabelIsBrick` | client/src/lib/scoring.ts:110-113 | the empty label is classified as Brick of Purity |
| `Scoring.ClassNameRoundTrip` | client/src/lib/scoring.ts:3-25 | each table name is classified as its own class |
| `Scoring.TablesCoverEveryLabel` | client/src/lib/scoring.ts:27-44 | every colour, shape and sharpness label is a key of its table with that bucket's points, and every key is some label |
| `Scoring.ClassifyDominantColor` | client/src/lib/scoring.ts:63-87 | Muddy/Dark exactly when r+g+b ≤ 0.4 (the zero guard included); Grey/Dull on (0.4, 0.7]; Blue/White and Pink/Yellow only above 0.7, with their ratio conditions; Muddy/Dark for short histograms |
| `Scoring.ColorReadsFirstThree` | client/src/lib/scoring.ts:65 | histograms that agree on their first three entries get the same colour bucket |
| `Scoring.ClassifyShapeQuality` | client/src/lib/scoring.ts:89-97 | Smooth exactly when variance > 1000 and contours < 100; Wobbly exactly when not Smooth and variance > 100 and contours < 500; otherwise Fragmented |
| `Scoring.ClassifySharpness` | client/src/lib/scoring.ts:99-103 | High exactly above 1000, Low exactly at or below 100 |
| `Scoring.ShapeFollowsSharpness` | client/src/lib/scoring.ts:89-103 | shape is the sharpness tier cut down by the contour count: Smooth implies High, Wobbly implies not Low |
| `Scoring.SharpnessMonotone` | client/src/lib/scoring.ts:99-103 | a larger variance never gives a lower sharpness tier |
| `Scoring.ShapeMonotone` | client/src/lib/scoring.ts:89-97 | a larger variance and fewer contours never give a lower shape tier |
| `Scoring.ThresholdsAreStrict` | client/src/lib/scoring.ts:89-103 | variance 1000 is Medium and never Smooth; variance 100 is Low and Fragmented; contour counts 99, 100 and 500 fall on either side of the limits |
| `Scoring.NicknameIndex` | client/src/lib/scoring.ts:59-61 | the floored index is always a valid position in the nickname list |
| `Scoring.NicknameIndexUniform` | client/src/lib/scoring.ts:59-61 | index i is chosen exactly on [i/10, (i+1)/10) |
| `Scoring.RandomNickname` | client/src/lib/scoring.ts:46-61 | the nickname is one of the ten |
| `Scoring.ComposeBreakdown` | client/src/lib/scoring.ts:121-138 | each entry carries the label of the bucket its classifier computes, with that bucket's points, and is the matching row of its table, so no lookup is undefined; a Smooth shape comes with High sharpness and a Wobbly one never with Low |
| `Scoring.CalculateSoaplinessScore` | client/src/lib/scoring.ts:105-148 | the final score is the breakdown's sum, equals the four buckets' points and lies in [0, 80]; the nickname is one of the ten |
| `Scoring.NicknameAffectsNothingElse` | client/src/lib/scoring.ts:143-147 | the random draw changes neither the breakdown nor the score |
| `Scoring.PerfectScore` | client/src/lib/scoring.ts:141 | the score is 80 exactly for Brick of Purity with the Blue/White colour and a Smooth shape |
| `Scoring.ScoreMonotone` | client/src/lib/scoring.ts:115-141 | with label and histogram fixed, a larger variance and no more contours never lower the score |
| `Scoring.WorkedExamples` | client/src/lib/scoring.ts:63-147 | concrete buckets for sample inputs, and 80 points for a bright blue, smooth, sharp Brick of Purity |
| `OpenCv.NamingRulesDisjoint` | client/src/lib/opencv.ts:183-187 | no two of the five naming rules hold together |
| `OpenCv.DominantColor` | client/src/lib/opencv.ts:179-190 | each display colour is given exactly when its own rule holds; Grey/Dull is the default and the answer for short histograms |
| `OpenCv.GetDominantColorName` | client/src/lib/opencv.ts:179-190 | the name is one of six; the blue rule always gives "Bright Blue" and the white rule "Bright White" |
| `OpenCv.AssessShapeQuality` | client/src/lib/opencv.ts:192-200 | "Smooth Outline", "Wobbly Edge" and "Fragmented Shape" are returned exactly where the scorer's shape is Smooth, Wobbly and Fragmented |
| `OpenCv.AssessSharpness` | client/src/lib/opencv.ts:202-206 | the phrase is the sharpness table's interpretation of the scorer's sharpness tier |
| `OpenCv.MaxOf` | client/src/lib/opencv.ts:165 | the maximum is an entry and no entry exceeds it |
| `OpenCv.Normalize` | client/src/lib/opencv.ts:164-166 | normalising keeps the length; with a maximum ≤ 0 every entry becomes 0 |
| `OpenCv.NormalizeKeepsRatios` | client/src/lib/opencv.ts:166 | any two normalised entries stand in the same ratio as the unnormalised ones |
| `OpenCv.NormalizeBounds` | client/src/lib/opencv.ts:165-166 | with non-negative entries and a positive maximum, every output is in [0, 1] and some output is exactly 1 |
| `OpenCv.ColorMetrics` | client/src/lib/opencv.ts:141-162 | the metrics are the (at most three) channel sums followed by 0.2, 0.3 and 0.25 times the pixel count |
| `OpenCv.NormalizeScaled` | client/src/lib/opencv.ts:164-166 | normalising a positive multiple of a list that starts with 1 and stays at or below 1 gives the list back |
| `OpenCv.HistogramIsImageIndependent` | client/src/lib/opencv.ts:143-166 | when every channel sum is the pixel count, the normalised histogram is [1, 1, 1, 0.2, 0.3, 0.25] whatever the image |
| `OpenCv.ImageIndependentHistogramColors` | client/src/lib/opencv.ts:179-190 | that histogram is "Grey/Dull" to the scorer and "Bright White" to the display namer |
| `OpenCv.AnalysisRecord` | client/src/lib/opencv.ts:106-114 | the record stores the given histogram, contour count and variance, and its colour name and shape word are the namers' results on them |
| `OpenCv.SelfConsistentIsAnalysisRecord` | client/src/lib/opencv.ts:106-114 | a record is self-consistent exactly when the success path would build it from its own numbers, and then its shape word is Smooth exactly when the scorer's shape is |
| `OpenCv.FallbackIsInconsistent` | client/src/lib/opencv.ts:119-127 | the fallback's numbers give "Grey/Dull" and "Fragmented Shape", so its stored names contradict them |
| `OpenCv.FallbackBuckets` | client/src/lib/opencv.ts:119-127 | the scorer reads the fallback record as Blue/White, Fragmented and High |
| `OpenCv.FallbackScore` | client/src/lib/tensorflow.ts:75-79 | the fallback top label together with the fallback record scores 60 |
| `Certificate.SkipSpacesDropsPrefix` | client/src/components/certificate-modal.tsx:46 | skipping drops a white-space prefix and leaves text that does not start with white space |
| `Certificate.ReplaceSpaceRuns` | client/src/components/certificate-modal.tsx:46 | the replacement is no longer than its input and leaves no white space |
| `Certificate.Slug` | client/src/components/certificate-modal.tsx:46 | the slug is no longer than the nickname and has no white space |
| `Certificate.ReplaceKeepsSpaceFree` | client/src/components/certificate-modal.tsx:46 | text without white space is left unchanged |
| `Certificate.ReplaceKeepsVisible` | client/src/components/certificate-modal.tsx:46 | the characters other than white space and dashes survive in order |
| `Certificate.ReplaceGivesSingleDashes` | client/src/components/certificate-modal.tsx:46 | for text without dashes of its own, no two dashes of the result are adjacent |
| `Certificate.SkipRun` | client/src/components/certificate-modal.tsx:46 | skipping a white-space run stops exactly at the first character after it |
| `Certificate.ReplaceAcrossRun` | client/src/components/certificate-modal.tsx:46 | a white-space run of any length after a space-free part (dashes allowed) and before text that does not start with white space becomes exactly one dash, and the part before it is kept unchanged |
| `Certificate.SlugAcrossRun` | client/src/components/certificate-modal.tsx:46 | the same on slugs: the part before the run is lower-cased, the run becomes one dash, and the rest is slugged |
| `Certificate.VisibleOfLower` | client/src/components/certificate-modal.tsx:46 | lower-casing commutes with dropping white space and dashes |
| `Certificate.SlugProperties` | client/src/components/certificate-modal.tsx:46 | the slug has no white space; its characters other than white space and dashes are the nickname's, in order and lower-cased; slugging twice changes nothing |
| `Certificate.ReplaceAcrossSpace` | client/src/components/certificate-modal.tsx:46 | a single space, the shortest run, after a space-free word becomes a single dash |
| `Certificate.SlugOfTwoWords` | client/src/components/certificate-modal.tsx:46 | two space-free words joined by a space give their lower-case forms joined by a dash |
| `Certificate.SlugOfThreeWords` | client/src/components/certificate-modal.tsx:46 | the same for three words |
| `Certificate.SlugOfSlippySuddington` | client/src/components/certificate-modal.tsx:46 | "Slippy Suddington" gives "slippy-suddington" |
| `Certificate.SlugOfBubbliciousMcfoam` | client/src/components/certificate-modal.tsx:46 | "Bubblicious McFoam" gives "bubblicious-mcfoam" |
| `Certificate.SlugOfSirLathersALot` | client/src/components/certificate-modal.tsx:46 | "Sir Lathers-a-Lot" gives "sir-lathers-a-lot" |
| `Certificate.SlugOfCaptainSqueakyClean` | client/src/components/certificate-modal.tsx:46 | "Captain Squeaky Clean" gives "captain-squeaky-clean" |
| `Certificate.SlugOfTheSudsySage` | client/src/components/certificate-modal.tsx:46 | "The Sudsy Sage" gives "the-sudsy-sage" |
| `Certificate.SlugOfFoamRanger` | client/src/components/certificate-modal.tsx:46 | "Foam Ranger" gives "foam-ranger" |
| `Certificate.SlugOfBubbleMasterSupreme` | client/src/components/certificate-modal.tsx:46 | "Bubble Master Supreme" gives "bubble-master-supreme" |
| `Certificate.SlugOfTheCleanlinessCrusader` | client/src/components/certificate-modal.tsx:46 | "The Cleanliness Crusader" gives "the-cleanliness-crusader" |
| `Certificate.SlugOfSqueakyMcgee` | client/src/components/certificate-modal.tsx:46 | "Squeaky McGee" gives "squeaky-mcgee" |
| `Certificate.SlugOfProfessorPristine` | client/src/components/certificate-modal.tsx:46 | "Professor Pristine" gives "professor-pristine" |
| `Certificate.DownloadFilename` | client/src/components/certificate-modal.tsx:46 | the file name is "soapliness-certificate-", then the slug, then ".png", and it has no white space |
| `Certificate.CertificateDataOf` | client/src/components/certificate-modal.tsx:15-26 | the image is empty; class, colour, shape and sharpness are the breakdown's labels; score, nickname and contour count are copied from the result |
| `Certificate.CertificateIsConsistent` | client/src/components/certificate-modal.tsx:15-26 | on a scored result, the printed labels are those of the buckets the classifiers compute from the result's own prediction and analysis; the printed score is their points' sum, equals the table rows' sum and is at most 80; the nickname is one of the ten; Smooth comes with High; the contour count is the measured one |
| `Certificate.CertificateReadsOnlyShownFields` | client/src/components/certificate-modal.tsx:15-26 | results that agree on the breakdown, score, nickname and contour count give the same certificate |

## Left out

- The OpenCV.js calls in `analyzeImage`, `calculateColorHistogram` and
  `matToImageData`, and the lifetime of the Mats they create, are foreign
  library code. Their results become parameters: the channel sums, the pixel
  count, the contour count and the variance.
- `waitForOpenCV` polls with timers and events; the model has no time.
- `client/src/lib/tensorflow.ts` loads and runs a TensorFlow.js model. Only its
  fallback predictions are used, as a concrete input.
- React rendering, state and event handling are left out: the results,
  upload, scoring-table and home views, and the certificate layout.
- IEEE-754 rounding: values are exact reals.
- The `confidence` string (`Math.round` of a percentage), the `timestamp`
  string (`toLocaleDateString`) and the `Date` of `AnalysisResult` are left
  out. Locale formatting has no counterpart in the model.
- The optional `ImageData` fields `edges` and `binaryMask` of the analysis
  record are left out; they are image buffers.
- Browser side effects are left out:
  - the html2canvas export and the `toDataURL` link;
  - the WhatsApp URL built with `encodeURIComponent`;
  - `window.open`;
  - file reading, camera capture and the MIME check.
- `Math.random()` is the parameter `rnd`. No distribution is claimed beyond
  the interval each index is chosen on.
- `Text.Lower` folds only the ASCII letters A-Z. JavaScript's full Unicode
  case mapping is not modelled, so nothing is claimed for labels with
  non-ASCII capitals. The table names lower-case identically under both.
- The `id`, `emoji` and `description` fields of the class table are left out;
  the scorer never reads them.
- The interpretation strings of the colour and shape tables are kept in the
  maps but read by nothing. Only the sharpness interpretations are read, by
  `OpenCv.AssessSharpness`.
