/**
 The record shapes passed between the classifier, the image analysis, the
 score composer and the certificate.  JavaScript numbers are `real` (exact, no
 rounding), the contour count is a `nat`.  Image buffers (`ImageData`) and the
 `Date` timestamp are not part of the model.
 */
module SoapAnalysis {

  /** One classifier output: a class label and its confidence. */
  datatype Prediction = Prediction(className: string, confidence: real)

  /** What the image analysis reports about one photo. */
  datatype OpenCVAnalysis = OpenCVAnalysis(
    colorHistogram: seq<real>,
    dominantColor: string,
    shapeQuality: string,
    contourCount: nat,
    laplacianVariance: real)

  /** One line of the score breakdown: the bucket label and its points. */
  datatype ScoreEntry = ScoreEntry(value: string, score: int)

  /** The four scored dimensions (`class` is spelled `soapClass` here). */
  datatype ScoreBreakdown = ScoreBreakdown(
    soapClass: ScoreEntry,
    color: ScoreEntry,
    shape: ScoreEntry,
    sharpness: ScoreEntry)

  /** A completed analysis as the user interface holds it. */
  datatype AnalysisResult = AnalysisResult(
    predictions: seq<Prediction>,
    topPrediction: Prediction,
    openCVAnalysis: OpenCVAnalysis,
    breakdown: ScoreBreakdown,
    finalScore: int,
    nickname: string,
    originalImageUrl: string)

  /** The fields printed on the certificate (the formatted confidence and
      date strings are not modelled). */
  datatype CertificateData = CertificateData(
    soapImage: string,
    soapClass: string,
    nickname: string,
    score: int,
    color: string,
    shape: string,
    contours: nat,
    sharpness: string)
}
