/**
 * Score fusion (`_calculate_final_score`): the 60/40 blend of the classifier
 * and local scores, the risk tier and its level string, the explanation and
 * the recommendations.
 */
module Fusion {
  import opened Text
  import opened Matcher
  import opened Classifier

  /** Weight of the classifier score, in tenths. */
  const AiWeight := 6
  /** Weight of the local score, in tenths. */
  const PatternWeight := 4

  /** `int(x / 10)`: division by ten rounding toward zero, as Python's `int()` does. */
  function TenthTowardZero(x: int): (q: int)
    ensures x >= 0 ==> 0 <= 10 * q <= x < 10 * q + 10
    ensures x < 0 ==> 10 * q - 10 < x <= 10 * q <= 0
  {
    if x >= 0 then x / 10 else -((-x) / 10)
  }

  /**
   * `int(ai * 0.6 + local * 0.4)` in exact arithmetic: the blend
   * `(6 * ai + 4 * local) / 10`, truncated toward zero.
   */
  function FusedScore(ai: int, local: int): int
  {
    TenthTowardZero(AiWeight * ai + PatternWeight * local)
  }

  /** With both inputs between 0 and 100 the fused score is between 0 and 100. */
  lemma FusedBounds(ai: int, local: int)
    requires 0 <= ai <= 100 && 0 <= local <= 100
    ensures 0 <= FusedScore(ai, local) <= 100
  {
  }

  /**
   * With a zero classifier score, a local score that is a multiple of ten
   * (every local score is) fuses to exactly two fifths of it; a local score
   * of 100 gives 40.
   */
  lemma FusedWithoutAi(local: int)
    requires local % 10 == 0
    ensures FusedScore(0, local) == 2 * local / 5
    ensures 5 * FusedScore(0, local) == 2 * local
  {
  }

  /** Raising either input never lowers the fused score. */
  lemma FusedMonotone(ai: int, local: int, ai': int, local': int)
    requires ai <= ai' && local <= local'
    ensures FusedScore(ai, local) <= FusedScore(ai', local')
  {
    var x, x' := AiWeight * ai + PatternWeight * local, AiWeight * ai' + PatternWeight * local';
    assert x <= x';
  }

  datatype RiskTier = Safe | Low | Medium | High

  /** The tier thresholds 80, 50 and 20, highest first. */
  function TierOf(score: int): RiskTier
  {
    if score >= 80 then High
    else if score >= 50 then Medium
    else if score >= 20 then Low
    else Safe
  }

  function Rank(t: RiskTier): nat
  {
    match t
    case Safe => 0
    case Low => 1
    case Medium => 2
    case High => 3
  }

  /** Each tier covers exactly one band of scores. */
  lemma TierBands(score: int)
    ensures TierOf(score) == High <==> 80 <= score
    ensures TierOf(score) == Medium <==> 50 <= score < 80
    ensures TierOf(score) == Low <==> 20 <= score < 50
    ensures TierOf(score) == Safe <==> score < 20
  {
  }

  /** A higher score never gives a lower tier. */
  lemma TierMonotone(a: int, b: int)
    requires a <= b
    ensures Rank(TierOf(a)) <= Rank(TierOf(b))
  {
  }

  function TierName(t: RiskTier): string
  {
    match t
    case Safe => "SAFE"
    case Low => "LOW"
    case Medium => "MEDIUM"
    case High => "HIGH"
  }

  function TierEmoji(t: RiskTier): string
  {
    match t
    case Safe => "\U{2705}"
    case Low => "\U{1F7E2}"
    case Medium => "\U{1F7E1}"
    case High => "\U{1F534}"
  }

  /**
   * The `risk_level` string: the tier's emoji, a space, the tier's name; a
   * red circle for HIGH, a yellow one for MEDIUM, a green one for LOW and a
   * check mark for SAFE.
   */
  function Level(score: int): (r: string)
    ensures |r| >= 5 && r[1] == ' ' && r[2..] == TierName(TierOf(score))
    ensures r == "\U{1F534} HIGH" <==> score >= 80
    ensures r == "\U{1F7E1} MEDIUM" <==> 50 <= score < 80
    ensures r == "\U{1F7E2} LOW" <==> 20 <= score < 50
    ensures r == "\U{2705} SAFE" <==> score < 20
  {
    TierEmoji(TierOf(score)) + " " + TierName(TierOf(score))
  }

  /** The level string determines the tier and conversely. */
  lemma LevelIffTier(a: int, b: int)
    ensures Level(a) == Level(b) <==> TierOf(a) == TierOf(b)
  {
    if Level(a) == Level(b) {
      assert Level(a)[2..] == Level(b)[2..];
    }
  }

  const PatternsLead := "Pattern detection found: "
  const AiLead := "AI Analysis: "
  const NoFindings := "No suspicious patterns detected"

  /**
   * The explanation: the matched patterns joined by `", "` after a lead-in,
   * when there are any, then the classifier's explanation after its lead-in,
   * when it is not empty, the two joined by `" | "`; the fixed message when
   * neither part is present.
   */
  function Explanation(patterns: seq<string>, aiExplanation: string): (r: string)
    ensures r == NoFindings <==> patterns == [] && aiExplanation == ""
  {
    var parts :=
      (if patterns != [] then [PatternsLead + Join(", ", patterns)] else [])
      + (if aiExplanation != "" then [AiLead + aiExplanation] else []);
    if parts == [] then NoFindings
    else
      assert Join(" | ", parts)[0] == parts[0][0];
      Join(" | ", parts)
  }

  /** The three shapes of a non-default explanation. */
  lemma ExplanationParts(patterns: seq<string>, aiExplanation: string)
    ensures patterns != [] && aiExplanation != "" ==>
      Explanation(patterns, aiExplanation) == PatternsLead + Join(", ", patterns) + " | " + AiLead + aiExplanation
    ensures patterns != [] && aiExplanation == "" ==>
      Explanation(patterns, aiExplanation) == PatternsLead + Join(", ", patterns)
    ensures patterns == [] && aiExplanation != "" ==>
      Explanation(patterns, aiExplanation) == AiLead + aiExplanation
  {
    if patterns != [] && aiExplanation != "" {
      var parts := [PatternsLead + Join(", ", patterns)] + [AiLead + aiExplanation];
      assert parts[1..] == [AiLead + aiExplanation];
      assert Join(" | ", parts) == parts[0] + " | " + parts[1];
    }
  }

  lemma {:induction false} JoinMentionsParts(sep: string, parts: seq<string>)
    ensures forall k :: 0 <= k < |parts| ==> Contains(Join(sep, parts), parts[k])
  {
    if |parts| == 1 {
      assert OccursAt(Join(sep, parts), parts[0], 0);
    } else if |parts| > 1 {
      var rest := Join(sep, parts[1..]);
      JoinMentionsParts(sep, parts[1..]);
      var j := parts[0] + sep + rest;
      assert OccursAt(j, parts[0], 0);
      forall k | 1 <= k < |parts|
        ensures Contains(j, parts[k])
      {
        assert parts[k] == parts[1..][k - 1];
        var i :| 0 <= i <= |rest| - |parts[k]| && OccursAt(rest, parts[k], i);
        var o := |parts[0] + sep|;
        assert j[o + i..o + i + |parts[k]|] == rest[i..i + |parts[k]|];
        assert OccursAt(j, parts[k], o + i);
      }
    }
  }

  /** Every matched pattern, and a non-empty classifier explanation, appears in the explanation. */
  lemma ExplanationMentionsAll(patterns: seq<string>, aiExplanation: string)
    ensures forall k :: 0 <= k < |patterns| ==> Contains(Explanation(patterns, aiExplanation), patterns[k])
    ensures aiExplanation != "" ==> Contains(Explanation(patterns, aiExplanation), aiExplanation)
  {
    ExplanationParts(patterns, aiExplanation);
    var e := Explanation(patterns, aiExplanation);
    if patterns != [] {
      var joined := Join(", ", patterns);
      JoinMentionsParts(", ", patterns);
      forall k | 0 <= k < |patterns|
        ensures Contains(e, patterns[k])
      {
        var i :| 0 <= i <= |joined| - |patterns[k]| && OccursAt(joined, patterns[k], i);
        var o := |PatternsLead|;
        assert e[o + i..o + i + |patterns[k]|] == joined[i..i + |patterns[k]|];
        assert OccursAt(e, patterns[k], o + i);
      }
    }
    if aiExplanation != "" {
      assert OccursAt(e, aiExplanation, |e| - |aiExplanation|);
    }
  }

  const EscalationAdvice := [
    "Block or flag this prompt for manual review",
    "Log the attempt for security monitoring",
    "Consider implementing additional input validation"
  ]

  const MonitorAdvice := [
    "Monitor this type of input",
    "Consider additional context validation"
  ]

  const SafeAdvice := ["Prompt appears safe to process"]

  /**
   * The recommendations, chosen from the score with the tier thresholds:
   * the three escalation entries for HIGH and MEDIUM, the two monitoring
   * entries for LOW, the single all-clear for SAFE.
   */
  function Recommendations(score: int): (r: seq<string>)
    ensures r == EscalationAdvice <==> Rank(TierOf(score)) >= 2
    ensures r == MonitorAdvice <==> TierOf(score) == Low
    ensures r == SafeAdvice <==> TierOf(score) == Safe
  {
    if score >= 50 then EscalationAdvice
    else if score >= 20 then MonitorAdvice
    else SafeAdvice
  }

  /** The fused result before it is repackaged for the caller. */
  datatype FinalScore = FinalScore(
    score: int,
    level: string,
    explanation: string,
    patterns: seq<string>,
    recommendations: seq<string>)

  /**
   * `_calculate_final_score`: the score is the truncated 60/40 blend, the
   * patterns pass through unchanged, and the level and recommendations both
   * follow the tier of the fused score.
   */
  function CalculateFinalScore(local: LocalSignal, ai: ExternalSignal): (r: FinalScore)
    ensures r.patterns == local.patterns
    ensures r.score == FusedScore(ai.score, local.score)
    ensures (0 <= ai.score <= 100 && 0 <= local.score <= 100) ==> 0 <= r.score <= 100
    ensures r.level == Level(r.score)
    ensures |r.level| >= 5 && r.level[2..] == TierName(TierOf(r.score))
    ensures r.recommendations == Recommendations(r.score)
    ensures r.recommendations == SafeAdvice <==> TierOf(r.score) == Safe
    ensures r.explanation == Explanation(local.patterns, ai.explanation)
    ensures r.explanation == NoFindings <==> local.patterns == [] && ai.explanation == ""
  {
    var score := FusedScore(ai.score, local.score);
    FinalScore(score, Level(score), Explanation(local.patterns, ai.explanation), local.patterns, Recommendations(score))
  }
}
