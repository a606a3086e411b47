/**
 * The parsing and fallback half of `_ai_analysis`. The hosted model call is
 * an `AiOutcome` supplied by the caller, and `json.loads` is the parameter
 * `parse`, a partial decoder that yields the fields the adapter reads.
 */
module Classifier {
  import opened Text

  datatype Option<+T> = None | Some(value: T)
  {
    function GetOr(default: T): T
    {
      match this
      case Some(v) => v
      case None => default
    }
  }

  /**
   * What the chat-completion call produced: it raised, or it returned a
   * message whose content may be missing.
   */
  datatype AiOutcome = CallFailed | Replied(content: Option<string>)

  /**
   * The four keys the adapter reads from a decoded JSON object; `None` is a
   * missing key. Other keys are irrelevant to the adapter.
   */
  datatype Payload = Payload(
    riskScore: Option<int>,
    explanation: Option<string>,
    attackType: Option<string>,
    confidence: Option<int>)

  /** The normalised classifier signal. */
  datatype ExternalSignal = ExternalSignal(score: int, explanation: string, attackType: string, confidence: int)

  /**
   * `json.loads` followed by the adapter's `.get` calls: `None` when decoding
   * raises or yields something other than an object (whose missing `.get`
   * raises inside the same `try`).
   */
  type Decoder = string -> Option<Payload>

  const DefaultScore := 0
  const DefaultExplanation := "AI analysis completed"
  const DefaultAttackType := "unknown"
  const DefaultConfidence := 50

  /** The signal when the reply cannot be decoded: a deliberate medium-risk baseline. */
  const Inconclusive := ExternalSignal(30, "AI analysis inconclusive", "unknown", 30)

  /** The signal when the call itself fails: scoring degrades to the local signal. */
  const Unavailable := ExternalSignal(0, "AI analysis unavailable", "none", 0)

  /** Like `json.loads`, the decoder yields an object only from text holding an opening brace. */
  ghost predicate ObjectDecoder(parse: Decoder)
  {
    forall t :: parse(t).Some? ==> '{' in t
  }

  /** The decoder yields only scores and confidences between 0 and 100. */
  ghost predicate InRangeDecoder(parse: Decoder)
  {
    forall t :: parse(t).Some? ==> InRange(parse(t).value)
  }

  predicate InRange(p: Payload)
  {
    && (p.riskScore.Some? ==> 0 <= p.riskScore.value <= 100)
    && (p.confidence.Some? ==> 0 <= p.confidence.value <= 100)
  }

  /** `response[response.find('{'):response.rfind('}') + 1]`. */
  function Candidate(response: string): string
  {
    PySlice(response, Find(response, '{'), RFind(response, '}') + 1)
  }

  /** `result.get(key, default)` for each of the four keys. */
  function FromPayload(p: Payload): ExternalSignal
  {
    ExternalSignal(
      p.riskScore.GetOr(DefaultScore),
      p.explanation.GetOr(DefaultExplanation),
      p.attackType.GetOr(DefaultAttackType),
      p.confidence.GetOr(DefaultConfidence))
  }

  /**
   * `_ai_analysis` after the call: a failed call gives the unavailable
   * fallback; a missing content or an undecodable candidate gives the
   * inconclusive fallback; a decoded object gives its fields, defaulted.
   */
  function Normalise(outcome: AiOutcome, parse: Decoder): (r: ExternalSignal)
    ensures outcome.CallFailed? ==> r == Unavailable
    ensures outcome == Replied(None) ==> r == Inconclusive
    ensures outcome.Replied? && outcome.content.Some? && parse(Candidate(outcome.content.value)).None? ==>
      r == Inconclusive
    ensures outcome.Replied? && outcome.content.Some? && parse(Candidate(outcome.content.value)).Some? ==>
      r == FromPayload(parse(Candidate(outcome.content.value)).value)
    ensures r.explanation == "" ==>
      exists t :: parse(t).Some? && parse(t).value.explanation == Some("")
    ensures InRangeDecoder(parse) ==> 0 <= r.score <= 100 && 0 <= r.confidence <= 100
  {
    match outcome
    case CallFailed => Unavailable
    case Replied(None) => Inconclusive
    case Replied(Some(text)) =>
      match parse(Candidate(text))
      case None => Inconclusive
      case Some(p) => FromPayload(p)
  }

  /** Every field the object carries is kept; a missing one takes its default. */
  lemma DecodedFields(text: string, parse: Decoder, p: Payload)
    requires parse(Candidate(text)) == Some(p)
    ensures var r := Normalise(Replied(Some(text)), parse);
      && (p.riskScore == Some(r.score) || (p.riskScore == None && r.score == DefaultScore))
      && (p.explanation == Some(r.explanation) || (p.explanation == None && r.explanation == DefaultExplanation))
      && (p.attackType == Some(r.attackType) || (p.attackType == None && r.attackType == DefaultAttackType))
      && (p.confidence == Some(r.confidence) || (p.confidence == None && r.confidence == DefaultConfidence))
  {
  }

  /** A slice of `s` holds no character that `s` lacks. */
  lemma PySliceWithin(s: string, a: int, b: int, c: char)
    requires c !in s
    ensures c !in PySlice(s, a, b)
  {
    var x, y := SliceBound(a, |s|), SliceBound(b, |s|);
    if x < y {
      forall i | 0 <= i < y - x
        ensures PySlice(s, a, b)[i] != c
      {
        assert PySlice(s, a, b)[i] == s[x + i];
      }
    }
  }

  /**
   * When the response has an opening brace before its last closing brace,
   * the candidate runs from the first `{` to the last `}`, both included.
   */
  lemma CandidateSpansBraces(s: string)
    requires 0 <= Find(s, '{') < RFind(s, '}')
    ensures var f, l := Find(s, '{'), RFind(s, '}');
      && Candidate(s) == s[f..l + 1]
      && Candidate(s)[0] == '{'
      && Candidate(s)[|Candidate(s)| - 1] == '}'
      && (forall i :: 0 <= i < f ==> s[i] != '{')
      && (forall i :: l < i < |s| ==> s[i] != '}')
  {
    var f, l := Find(s, '{'), RFind(s, '}');
    SliceInRange(s, f, l + 1);
    var c := s[f..l + 1];
    assert c[0] == s[f] && c[|c| - 1] == s[l];
  }

  /**
   * In every other case (no `{`, no `}`, or the last `}` before the first
   * `{`) the candidate holds no opening brace: it is empty or just `}`.
   */
  lemma {:induction false} CandidateWithoutSpan(s: string)
    requires !(0 <= Find(s, '{') < RFind(s, '}'))
    ensures '{' !in Candidate(s)
    ensures Candidate(s) == [] || Candidate(s) == "}"
  {
    var f, l := Find(s, '{'), RFind(s, '}');
    if '{' !in s {
      PySliceWithin(s, f, l + 1, '{');
      var x, y := SliceBound(f, |s|), SliceBound(l + 1, |s|);
      if x < y {
        assert Candidate(s) == [s[|s| - 1]] && s[|s| - 1] == '}';
      }
    }
  }

  /**
   * A reply without an opening brace before its last closing brace falls
   * back to the inconclusive signal, whatever object decoder is used.
   */
  lemma UndecodableReplyIsInconclusive(s: string, parse: Decoder)
    requires ObjectDecoder(parse)
    requires !(0 <= Find(s, '{') < RFind(s, '}'))
    ensures Normalise(Replied(Some(s)), parse) == Inconclusive
  {
    CandidateWithoutSpan(s);
  }

  /**
   * The two fallbacks are told apart: an unreachable classifier adds no risk,
   * an incoherent one adds a non-zero baseline; neither has an empty explanation.
   */
  lemma FallbacksDiffer(parse: Decoder)
    ensures Normalise(CallFailed, parse).score == 0 && Normalise(CallFailed, parse).confidence == 0
    ensures Normalise(Replied(None), parse).score == 30 && Normalise(Replied(None), parse).confidence == 30
    ensures Normalise(CallFailed, parse).explanation != "" && Normalise(Replied(None), parse).explanation != ""
  {
  }
}
