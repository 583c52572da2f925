/**
 * The director's decision rules. The language-model reply is an opaque input
 * that has already been parsed: `None` stands for any reply that fails to
 * parse as a JSON object, and each key of the object is Absent, Null or Given.
 */
module Director {
  import opened Wrappers

  /** One key of a parsed JSON object. */
  datatype JsonField<T> = Absent | Null | Given(value: T)

  /** `data.get(key)`: the value, or None when the key is missing or null. */
  function Get<T>(f: JsonField<T>): (r: Option<T>)
    ensures r.Some? <==> f.Given?
    ensures r.Some? ==> r.value == f.value
  {
    if f.Given? then Some(f.value) else None
  }

  /** The story-length thresholds of the configuration. */
  datatype Limits = Limits(minTurns: int, maxTurns: int, minActions: int)

  /** The reply to the speaker-selection prompt: `{next_speaker, narration}`. */
  datatype SpeakerReply = SpeakerReply(nextSpeaker: JsonField<string>, narration: JsonField<string>)

  datatype SpeakerChoice = SpeakerChoice(speaker: string, narration: Option<string>)

  /**
   * select_next_speaker: the delegate's choice when it is a candidate, the
   * first candidate otherwise. With no candidates the source raises
   * IndexError (from its fallback and again from its exception handler),
   * modelled as None.
   */
  function SelectNextSpeaker(reply: Option<SpeakerReply>, available: seq<string>): (r: Option<SpeakerChoice>)
    ensures r.None? <==> available == []
    ensures r.Some? ==> r.value.speaker in available
    ensures reply.Some? && Get(reply.value.nextSpeaker).Some? && reply.value.nextSpeaker.value in available
            ==> r == Some(SpeakerChoice(reply.value.nextSpeaker.value, Get(reply.value.narration)))
    ensures available != [] && reply.Some? && !(reply.value.nextSpeaker.Given? && reply.value.nextSpeaker.value in available)
            ==> r == Some(SpeakerChoice(available[0], Get(reply.value.narration)))
    ensures available != [] && reply.None? ==> r == Some(SpeakerChoice(available[0], Some("")))
  {
    if available == [] then None
    else
      match reply
      case None => Some(SpeakerChoice(available[0], Some("")))
      case Some(data) =>
        var nextSpeaker := Get(data.nextSpeaker);
        var narration := Get(data.narration);
        if nextSpeaker.Some? && nextSpeaker.value in available then Some(SpeakerChoice(nextSpeaker.value, narration))
        else Some(SpeakerChoice(available[0], narration))
  }

  /** The reply to the conclusion prompt: `{should_end, reason, conclusion_narration}`. */
  datatype ConclusionReply = ConclusionReply(shouldEnd: JsonField<bool>, conclusionNarration: JsonField<string>)

  /** A decision whether to end, with the narration that goes with it. */
  datatype Conclusion = Conclusion(shouldEnd: bool, narration: Option<string>)

  /** `data.get("should_end", False)`: a missing or null key counts as false. */
  predicate Requested(data: ConclusionReply)
    ensures !Requested(data) <==> data.shouldEnd.Absent? || data.shouldEnd.Null? || data.shouldEnd == Given(false)
  {
    match data.shouldEnd
    case Given(b) => b
    case _ => false
  }

  /**
   * check_conclusion: the delegate's decision, blocked while fewer than
   * minActions actions were performed before maxTurns, and while fewer than
   * minTurns turns were taken; a reply that does not parse never ends the story.
   */
  function CheckConclusion(reply: Option<ConclusionReply>, actionCount: int, currentTurn: int, limits: Limits)
    : (r: Conclusion)
    ensures reply.None? ==> r == Conclusion(false, None)
    ensures r.shouldEnd <==>
              && reply.Some? && Requested(reply.value)
              && currentTurn >= limits.minTurns
              && (actionCount >= limits.minActions || currentTurn >= limits.maxTurns)
    ensures reply.Some? && Requested(reply.value) && actionCount < limits.minActions && currentTurn < limits.maxTurns
            ==> r == Conclusion(false, None)
    ensures reply.Some? && Requested(reply.value) && currentTurn < limits.minTurns ==> r == Conclusion(false, None)
    ensures reply.Some? && !r.shouldEnd && !Requested(reply.value)
            ==> r.narration == Get(reply.value.conclusionNarration)
    ensures r.shouldEnd ==> r.narration == Get(reply.value.conclusionNarration)
  {
    match reply
    case None => Conclusion(false, None)
    case Some(data) =>
      var shouldEnd := Requested(data);
      if shouldEnd && actionCount < limits.minActions && currentTurn < limits.maxTurns then Conclusion(false, None)
      else if shouldEnd && currentTurn < limits.minTurns then Conclusion(false, None)
      else Conclusion(shouldEnd, Get(data.conclusionNarration))
  }

  /** The narration used when the forced conclusion gives none. */
  const DefaultClosing: string := "The scene fades as the dust settles on Shahrah-e-Faisal."

  /** The reply to the forced-conclusion prompt: `{conclusion_narration}`. */
  datatype ForceReply = ForceReply(conclusionNarration: JsonField<string>)

  /**
   * force_conclude: always ends; the default narration stands in for a
   * missing key or a reply that does not parse, while a null value gives None.
   */
  function ForceConclude(reply: Option<ForceReply>): (r: Conclusion)
    ensures r.shouldEnd
    ensures reply.None? || reply.value.conclusionNarration.Absent? ==> r.narration == Some(DefaultClosing)
    ensures reply.Some? && reply.value.conclusionNarration.Given?
            ==> r.narration == Some(reply.value.conclusionNarration.value)
    ensures reply.Some? && reply.value.conclusionNarration.Null? ==> r.narration == None
  {
    match reply
    case None => Conclusion(true, Some(DefaultClosing))
    case Some(data) =>
      match data.conclusionNarration
      case Absent => Conclusion(true, Some(DefaultClosing))
      case Null => Conclusion(true, None)
      case Given(text) => Conclusion(true, Some(text))
  }

  /**
   * check_conclusion has no max-turn ceiling: at or past maxTurns any reply
   * that does not request an end (should_end missing, null or false, with
   * any narration), and any reply that does not parse, continues the story.
   */
  lemma NoCeilingAtMaxTurns(reply: Option<ConclusionReply>, actionCount: int, currentTurn: int, limits: Limits)
    requires currentTurn >= limits.maxTurns
    requires reply.None? || !Requested(reply.value)
    ensures !CheckConclusion(reply, actionCount, currentTurn, limits).shouldEnd
  {
  }
}
