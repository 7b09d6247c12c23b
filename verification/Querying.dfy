/**
 A query from triage to a cited answer: stages that emit a trace of events, and early returns that
 all fail closed, to a person.
 */
module Querying {
  import opened Results
  import opened Text
  import opened Stores
  import opened Assembler
  import opened Evidence
  import opened Citations

  // ----- Events -----

  datatype Stage = Triage | HybridRetrieval | Rerank | Context | EvidenceGate | Generate | CitationCheck

  datatype Status = Running | Completed | Skipped | Failed

  datatype Event = Event(stage: Stage, status: Status)

  /** The trace a caller's callback collects. */
  class EventLog {
    var events: seq<Event>

    constructor ()
      ensures events == []
    {
      events := [];
    }

    method Emit(stage: Stage, status: Status)
      modifies this
      ensures events == old(events) + [Event(stage, status)]
    {
      events := events + [Event(stage, status)];
    }

    method SkipAll(stages: seq<Stage>)
      modifies this
      ensures events == old(events) + SkippedAll(stages)
    {
      var i := 0;
      assert events + [] == events;
      while i < |stages|
        invariant 0 <= i <= |stages|
        invariant events + SkippedAll(stages[i..]) == old(events) + SkippedAll(stages)
      {
        assert stages[i..][0] == stages[i] && stages[i..][1..] == stages[i + 1..];
        Emit(stages[i], Skipped);
        i := i + 1;
      }
      assert stages[i..] == [] && events + [] == events;
    }
  }

  function SkippedAll(stages: seq<Stage>): seq<Event> {
    if stages == [] then [] else [Event(stages[0], Skipped)] + SkippedAll(stages[1..])
  }

  // ----- Inputs and outputs -----

  datatype Confidence = High | Medium | Low

  datatype Reason =
    | LowConfidence | SensitiveData | PolicyRule | InsufficientContext | MissingCitations
    | TriageUncertain | TriageFailure

  datatype Destination = CustomerSupport

  /** The triage model's verdict; the categories and data types are names here. */
  datatype Decision = Decision(category: string, sensitive: seq<string>, policyReview: bool, confidence: Confidence)

  datatype Settings = Settings(
    charBudget: int, tokenBudget: int, mediumThreshold: real, highThreshold: real, minRerankScore: real)

  datatype Response = Response(
    category: string, confidence: Confidence, humanReview: bool, routing: Option<Destination>,
    answered: bool, answer: string, reasons: seq<Reason>, sensitive: seq<string>, citations: seq<Citation>)

  datatype QueryError = MissingParent(key: RowKey) | GenerationFailed

  /** The response together with the evidence it used. */
  datatype Execution = Execution(response: Response, contexts: seq<Candidate>)

  /** A response that hands the ticket to a person for one reason. */
  function Escalated(category: string, reason: Reason, text: string): Response {
    Response(category, Low, true, Some(CustomerSupport), false, text, [reason], [], [])
  }

  function FinalScore(c: Candidate): real {
    if c.rerankScore.Some? then c.rerankScore.value else c.hybridScore
  }

  function TopScore(candidates: seq<Candidate>): real
    requires candidates != []
  {
    if |candidates| == 1 then FinalScore(candidates[0])
    else
      var rest := TopScore(candidates[1..]);
      if FinalScore(candidates[0]) >= rest then FinalScore(candidates[0]) else rest
  }

  /** `ScoreThresholdConfidenceGrader.grade`. */
  function Grade(settings: Settings, candidates: seq<Candidate>): Confidence {
    if candidates == [] then Low
    else if TopScore(candidates) >= settings.highThreshold then High
    else if TopScore(candidates) >= settings.mediumThreshold then Medium
    else Low
  }

  // ----- Answering -----

  /** The first attempt of the chat model that returns, stripped; none when all attempts raise. */
  function FirstReply(replies: seq<Option<string>>): Option<string> {
    if replies == [] then None
    else if replies[0].Some? then Some(Strip(replies[0].value))
    else FirstReply(replies[1..])
  }

  datatype Answered = Answered(events: seq<Event>, result: Result<Response, QueryError>)

  function Done(stage: Stage): seq<Event> {
    [Event(stage, Running), Event(stage, Completed)]
  }

  /** `GroundedAnswerService.answer`: what it returns and the events it emits. */
  function AnswerOf(settings: Settings, contexts: seq<Candidate>, decision: Decision,
                    replies: seq<Option<string>>): Answered {
    if decision.sensitive != [] then
      Answered(SkippedAll([EvidenceGate, Generate, CitationCheck]),
               Ok(Escalated(decision.category, SensitiveData, "sensitive data").(sensitive := decision.sensitive)))
    else
      var confidence := Grade(settings, contexts);
      var evidence := EvidenceOf(contexts, settings.charBudget, settings.tokenBudget);
      var gated := Done(EvidenceGate);
      if contexts == [] then
        Answered(gated + SkippedAll([Generate, CitationCheck]),
                 Ok(Escalated(decision.category, InsufficientContext, "no evidence")))
      else if confidence == Low then
        Answered(gated + SkippedAll([Generate, CitationCheck]),
                 Ok(Escalated(decision.category, LowConfidence, "low confidence")))
      else if evidence == [] then
        Answered(gated + SkippedAll([Generate, CitationCheck]),
                 Ok(Escalated(decision.category, InsufficientContext, "no usable evidence")))
      else
        var generated := GeneratedOf(confidence, evidence, decision, replies);
        Answered(gated + generated.events, generated.result)
  }

  /** The part of `answer` from the model's draft on. */
  function GeneratedOf(confidence: Confidence, evidence: seq<Candidate>, decision: Decision,
                       replies: seq<Option<string>>): Answered
  {
    var reply := FirstReply(replies);
    if reply.None? then
      Answered([Event(Generate, Running), Event(Generate, Failed)], Raised(GenerationFailed))
    else if reply.value == "NOT_FOUND" || reply.value == "" then
      Answered(Done(Generate) + [Event(CitationCheck, Skipped)],
               Ok(Escalated(decision.category, InsufficientContext, "abstained")))
    else
      var text := Normalize(reply.value);
      var used := Used(CitationsOf(evidence), FindIds(text));
      Answered(Done(Generate) + Done(CitationCheck),
               Ok(if used == [] then Escalated(decision.category, MissingCitations, "no citations")
                  else CitedAnswer(decision, confidence, text, used)))
  }

  /** An answer with its citations; a policy rule may still send it to a person. */
  function CitedAnswer(decision: Decision, confidence: Confidence, text: string, used: seq<Citation>): Response {
    Response(decision.category, confidence, decision.policyReview,
             if decision.policyReview then Some(CustomerSupport) else None, true, text,
             if decision.policyReview then [PolicyRule] else [], [], used)
  }

  method Invoke(replies: seq<Option<string>>) returns (reply: Option<string>)
    ensures reply == FirstReply(replies)
  {
    var i := 0;
    while i < |replies|
      invariant 0 <= i <= |replies|
      invariant FirstReply(replies) == FirstReply(replies[i..])
    {
      assert replies[i..][0] == replies[i] && replies[i..][1..] == replies[i + 1..];
      if replies[i].Some? {
        return Some(Strip(replies[i].value));
      }
      i := i + 1;
    }
    assert replies[i..] == [];
    reply := None;
  }

  method CollectCitations(evidence: seq<Candidate>) returns (citations: seq<Citation>)
    ensures citations == CitationsOf(evidence)
  {
    hide SourceId;
    citations := [];
    var i := 0;
    while i < |evidence|
      invariant 0 <= i <= |evidence|
      invariant citations == CitationsOf(evidence)[..i]
    {
      citations := citations + [Citation(SourceId(i), evidence[i])];
      i := i + 1;
    }
  }

  method Answer(log: EventLog, settings: Settings, contexts: seq<Candidate>, decision: Decision,
                replies: seq<Option<string>>)
    returns (result: Result<Response, QueryError>)
    modifies log
    ensures log.events == old(log.events) + AnswerOf(settings, contexts, decision, replies).events
    ensures result == AnswerOf(settings, contexts, decision, replies).result
  {
    hide EvidenceOf, Grade, GeneratedOf, SkippedAll;
    if decision.sensitive != [] {
      log.SkipAll([EvidenceGate, Generate, CitationCheck]);
      return Ok(Escalated(decision.category, SensitiveData, "sensitive data").(sensitive := decision.sensitive));
    }
    log.Emit(EvidenceGate, Running);
    var confidence := Grade(settings, contexts);
    log.Emit(EvidenceGate, Completed);
    if contexts == [] {
      log.SkipAll([Generate, CitationCheck]);
      return Ok(Escalated(decision.category, InsufficientContext, "no evidence"));
    }
    if confidence == Low {
      log.SkipAll([Generate, CitationCheck]);
      return Ok(Escalated(decision.category, LowConfidence, "low confidence"));
    }
    var evidence := PrepareEvidence(contexts, settings.charBudget, settings.tokenBudget);
    if evidence == [] {
      log.SkipAll([Generate, CitationCheck]);
      return Ok(Escalated(decision.category, InsufficientContext, "no usable evidence"));
    }
    result := GenerateAnswer(log, confidence, evidence, decision, replies);
  }

  method GenerateAnswer(log: EventLog, confidence: Confidence, evidence: seq<Candidate>, decision: Decision,
                        replies: seq<Option<string>>)
    returns (result: Result<Response, QueryError>)
    modifies log
    ensures log.events == old(log.events) + GeneratedOf(confidence, evidence, decision, replies).events
    ensures result == GeneratedOf(confidence, evidence, decision, replies).result
  {
    hide Normalize, FindIds, Used, CitationsOf, FirstReply;
    var citations := CollectCitations(evidence);
    log.Emit(Generate, Running);
    var reply := Invoke(replies);
    if reply.None? {
      log.Emit(Generate, Failed);
      return Raised(GenerationFailed);
    }
    log.Emit(Generate, Completed);
    if reply.value == "NOT_FOUND" || reply.value == "" {
      log.Emit(CitationCheck, Skipped);
      return Ok(Escalated(decision.category, InsufficientContext, "abstained"));
    }
    var text := SubstituteMarkers(reply.value);
    log.Emit(CitationCheck, Running);
    var used := Used(citations, FindIds(text));
    log.Emit(CitationCheck, Completed);
    if used == [] {
      return Ok(Escalated(decision.category, MissingCitations, "no citations"));
    }
    result := Ok(CitedAnswer(decision, confidence, text, used));
  }

  // ----- Retrieval -----

  function AtLeast(candidates: seq<Candidate>, score: real): seq<Candidate> {
    if candidates == [] then []
    else (if FinalScore(candidates[0]) >= score then [candidates[0]] else []) + AtLeast(candidates[1..], score)
  }

  datatype Retrieved = Retrieved(events: seq<Event>, result: Result<seq<Candidate>, QueryError>)

  /** `RetrievalService.retrieve`; `reranked` is the reranker's output, when there is a reranker. */
  function RetrieveOf(rows: Rows, config: Config, settings: Settings,
                      hits: seq<Candidate>, reranked: Option<seq<Candidate>>): Retrieved {
    var ranked := if reranked.Some? then AtLeast(reranked.value, settings.minRerankScore) else hits;
    var searched := Done(HybridRetrieval)
                    + (if reranked.Some? then Done(Rerank) else [Event(Rerank, Skipped)]);
    match Assembled(rows, config, ranked)
    case Ok(picks) => Retrieved(searched + Done(Context), Ok(Contexts(picks)))
    case Raised(error) => Retrieved(searched + [Event(Context, Running)], Raised(MissingParent(error.key)))
  }

  method Retrieve(log: EventLog, assembler: ParentContextAssembler, settings: Settings,
                  hits: seq<Candidate>, reranked: Option<seq<Candidate>>)
    returns (result: Result<seq<Candidate>, QueryError>)
    modifies log
    ensures var run := RetrieveOf(assembler.parentStore.rows, assembler.config, settings, hits, reranked);
            log.events == old(log.events) + run.events && result == run.result
    ensures assembler.parentStore.rows == old(assembler.parentStore.rows)
  {
    hide Assembled, AtLeast;
    log.Emit(HybridRetrieval, Running);
    var candidates := hits;
    log.Emit(HybridRetrieval, Completed);
    log.Emit(Rerank, if reranked.Some? then Running else Skipped);
    if reranked.Some? {
      candidates := AtLeast(reranked.value, settings.minRerankScore);
      log.Emit(Rerank, Completed);
    }
    log.Emit(Context, Running);
    var assembled := assembler.Assemble(candidates);
    if assembled.Raised? {
      return Raised(MissingParent(assembled.error.key));
    }
    log.Emit(Context, Completed);
    result := Ok(assembled.value);
  }

  // ----- The whole query -----

  const RETRIEVAL_STAGES := [HybridRetrieval, Rerank, Context]

  const ANSWER_STAGES := [EvidenceGate, Generate, CitationCheck]

  function WithContexts(result: Result<Response, QueryError>, contexts: seq<Candidate>): Result<Execution, QueryError> {
    match result
    case Ok(response) => Ok(Execution(response, contexts))
    case Raised(error) => Raised(error)
  }

  datatype Queried = Queried(events: seq<Event>, result: Result<Execution, QueryError>)

  /** `query_with_evidence`; the triage verdict is missing when the classifier fails. */
  function QueryOf(rows: Rows, config: Config, settings: Settings, verdict: Option<Decision>,
                   hits: seq<Candidate>, reranked: Option<seq<Candidate>>, replies: seq<Option<string>>): Queried {
    if verdict.None? then
      Queried([Event(Triage, Running), Event(Triage, Failed)] + SkippedAll(RETRIEVAL_STAGES)
              + SkippedAll(ANSWER_STAGES),
              Ok(Execution(Escalated("other", TriageFailure, "triage failed"), [])))
    else if verdict.value.sensitive != [] then
      var answered := AnswerOf(settings, [], verdict.value, replies);
      Queried(Done(Triage) + SkippedAll(RETRIEVAL_STAGES) + answered.events,
              WithContexts(answered.result, []))
    else if verdict.value.confidence == Low then
      Queried(Done(Triage) + SkippedAll(RETRIEVAL_STAGES) + SkippedAll(ANSWER_STAGES),
              Ok(Execution(Escalated(verdict.value.category, TriageUncertain, "triage uncertain"), [])))
    else
      var retrieved := RetrieveOf(rows, config, settings, hits, reranked);
      if retrieved.result.Raised? then
        Queried(Done(Triage) + retrieved.events, Raised(retrieved.result.error))
      else
        var contexts := retrieved.result.value;
        var answered := AnswerOf(settings, contexts, verdict.value, replies);
        Queried(Done(Triage) + retrieved.events + answered.events,
                WithContexts(answered.result, EvidenceOf(contexts, settings.charBudget, settings.tokenBudget)))
  }

  method QueryWithEvidence(log: EventLog, assembler: ParentContextAssembler, settings: Settings,
                           verdict: Option<Decision>, hits: seq<Candidate>, reranked: Option<seq<Candidate>>,
                           replies: seq<Option<string>>)
    returns (result: Result<Execution, QueryError>)
    modifies log
    ensures var run := QueryOf(assembler.parentStore.rows, assembler.config, settings, verdict, hits, reranked,
                               replies);
            log.events == old(log.events) + run.events && result == run.result
  {
    hide AnswerOf, RetrieveOf, EvidenceOf, SkippedAll;
    log.Emit(Triage, Running);
    if verdict.None? {
      log.Emit(Triage, Failed);
      log.SkipAll(RETRIEVAL_STAGES);
      log.SkipAll(ANSWER_STAGES);
      return Ok(Execution(Escalated("other", TriageFailure, "triage failed"), []));
    }
    log.Emit(Triage, Completed);
    if verdict.value.sensitive != [] {
      log.SkipAll(RETRIEVAL_STAGES);
      var answered := Answer(log, settings, [], verdict.value, replies);
      return WithContexts(answered, []);
    }
    if verdict.value.confidence == Low {
      log.SkipAll(RETRIEVAL_STAGES);
      log.SkipAll(ANSWER_STAGES);
      return Ok(Execution(Escalated(verdict.value.category, TriageUncertain, "triage uncertain"), []));
    }
    var contexts := Retrieve(log, assembler, settings, hits, reranked);
    if contexts.Raised? {
      return Raised(contexts.error);
    }
    var answered := Answer(log, settings, contexts.value, verdict.value, replies);
    if answered.Raised? {
      return Raised(answered.error);
    }
    var evidence := PrepareEvidence(contexts.value, settings.charBudget, settings.tokenBudget);
    result := WithContexts(answered, evidence);
  }
}
