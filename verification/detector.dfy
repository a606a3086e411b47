/**
 * `analyze_prompt`: the local scan, the classifier signal and the fusion,
 * repackaged as the analysis record handed back to the caller.
 */
module Detector {
  import opened Text
  import opened Patterns
  import opened Matcher
  import opened Classifier
  import opened Fusion

  /** The dictionary `analyze_prompt` returns. */
  datatype AnalysisResult = AnalysisResult(
    prompt: string,
    riskScore: int,
    riskLevel: string,
    explanation: string,
    detectedPatterns: seq<string>,
    recommendations: seq<string>)

  /**
   * `analyze_prompt`, with the hosted model's reply given as `outcome` and
   * `json.loads` as `parse`. The prompt is echoed; the patterns are exactly
   * the catalog phrases found in the lower-cased prompt; the level and the
   * recommendations follow the tier of the score; the explanation is the
   * fixed message only when nothing was found and the classifier said nothing.
   */
  function AnalyzePrompt(prompt: string, outcome: AiOutcome, parse: Decoder): (r: AnalysisResult)
    ensures r.prompt == prompt
    ensures r.detectedPatterns == [] <==> NoneMatch(Entries(InjectionPatterns), ToLower(prompt))
    ensures r.riskLevel == Level(r.riskScore)
    ensures r.recommendations == Recommendations(r.riskScore)
    ensures r.recommendations == EscalationAdvice <==> r.riskScore >= 50
    ensures r.recommendations == MonitorAdvice <==> 20 <= r.riskScore < 50
    ensures r.recommendations == SafeAdvice <==> r.riskScore < 20
    ensures r.explanation == NoFindings <==>
      r.detectedPatterns == [] && Normalise(outcome, parse).explanation == ""
    ensures InRangeDecoder(parse) ==> -60 <= r.riskScore <= 100
  {
    var local := LocalMatch(prompt);
    var ai := Normalise(outcome, parse);
    var fin := CalculateFinalScore(local, ai);
    TierBands(fin.score);
    AnalysisResult(prompt, fin.score, fin.level, fin.explanation, fin.patterns, fin.recommendations)
  }

  /**
   * The result is the local signal and the classifier signal, fused: the
   * patterns are the scan's, the score is the 60/40 blend of the two scores.
   */
  lemma AnalysisFusesSignals(prompt: string, outcome: AiOutcome, parse: Decoder)
    ensures var r := AnalyzePrompt(prompt, outcome, parse);
      && r.detectedPatterns == LocalMatch(prompt).patterns
      && r.riskScore == FusedScore(Normalise(outcome, parse).score, LocalMatch(prompt).score)
  {
  }

  /**
   * When the hosted model cannot be reached, the score is two fifths of the
   * local score and the explanation is never the fixed no-findings message.
   */
  lemma CallFailureUsesLocalOnly(prompt: string, parse: Decoder)
    ensures var r := AnalyzePrompt(prompt, CallFailed, parse);
      && 5 * r.riskScore == 2 * LocalMatch(prompt).score
      && r.explanation != NoFindings
  {
    FusedWithoutAi(LocalMatch(prompt).score);
  }

  /**
   * With the same classifier outcome, a prompt with a higher local score
   * never ends with a lower risk score or a lower tier.
   */
  lemma RiskFollowsLocalScore(p: string, q: string, outcome: AiOutcome, parse: Decoder)
    requires LocalMatch(p).score <= LocalMatch(q).score
    ensures AnalyzePrompt(p, outcome, parse).riskScore <= AnalyzePrompt(q, outcome, parse).riskScore
    ensures Rank(TierOf(AnalyzePrompt(p, outcome, parse).riskScore)) <=
            Rank(TierOf(AnalyzePrompt(q, outcome, parse).riskScore))
  {
    var ai := Normalise(outcome, parse).score;
    FusedMonotone(ai, LocalMatch(p).score, ai, LocalMatch(q).score);
    TierMonotone(AnalyzePrompt(p, outcome, parse).riskScore, AnalyzePrompt(q, outcome, parse).riskScore);
  }

  /**
   * A prompt that matches exactly one catalog entry and no safe phrase scores
   * 20 locally; if the hosted model is unreachable that fuses to 8, which is
   * still the SAFE tier. One safe phrase on top brings the local score to 10.
   */
  lemma SingleHitWithoutClassifier(prompt: string, parse: Decoder)
    requires |MatchingPositions(Entries(InjectionPatterns), ToLower(prompt))| == 1
    ensures |SafePositions(SafePatterns, ToLower(prompt))| == 0 ==>
      && LocalMatch(prompt).score == 20
      && AnalyzePrompt(prompt, CallFailed, parse).riskScore == 8
      && TierOf(AnalyzePrompt(prompt, CallFailed, parse).riskScore) == Safe
    ensures |SafePositions(SafePatterns, ToLower(prompt))| == 1 ==> LocalMatch(prompt).score == 10
  {
    LocalScoreCounts(InjectionPatterns, SafePatterns, prompt);
    CallFailureUsesLocalOnly(prompt, parse);
  }

  /**
   * Safe phrases alone drive the score below zero: the local score has no
   * lower clamp, and neither does the fused score.
   */
  lemma SafePhrasesGoNegative(prompt: string, parse: Decoder)
    requires |MatchingPositions(Entries(InjectionPatterns), ToLower(prompt))| == 0
    requires |SafePositions(SafePatterns, ToLower(prompt))| >= 1
    ensures LocalMatch(prompt).score < 0
    ensures AnalyzePrompt(prompt, CallFailed, parse).riskScore < 0
  {
    LocalScoreCounts(InjectionPatterns, SafePatterns, prompt);
    CallFailureUsesLocalOnly(prompt, parse);
  }
}
