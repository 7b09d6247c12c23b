/** What every returned query guarantees: a complete trace, a consistent routing, and grounded citations. */
module QueryLaws {
  import opened Results
  import opened Stores
  import opened Publication
  import opened Assembler
  import opened AssemblerLaws
  import opened Evidence
  import opened Citations
  import opened Querying

  // ----- The trace -----

  const PIPELINE := [Triage, HybridRetrieval, Rerank, Context, EvidenceGate, Generate, CitationCheck]

  /** The stages that ended, in the order their terminal events appear. */
  function Ended(events: seq<Event>): seq<Stage> {
    if events == [] then []
    else (if events[0].status == Running then [] else [events[0].stage]) + Ended(events[1..])
  }

  /** Every running event is followed at once by the event that ends its stage. */
  predicate Bracketed(events: seq<Event>) {
    forall i :: 0 <= i < |events| && events[i].status == Running ==> EndsNext(events, i)
  }

  predicate EndsNext(events: seq<Event>, i: nat)
    requires i < |events|
  {
    && i + 1 < |events|
    && events[i + 1].stage == events[i].stage
    && (events[i + 1].status == Completed || events[i + 1].status == Failed)
  }

  /** The events end exactly these stages, in this order, each once and properly opened. */
  predicate Traces(events: seq<Event>, stages: seq<Stage>) {
    Ended(events) == stages && Bracketed(events)
  }

  lemma {:induction false} EndedConcat(xs: seq<Event>, ys: seq<Event>)
    ensures Ended(xs + ys) == Ended(xs) + Ended(ys)
  {
    if xs == [] {
      assert xs + ys == ys;
    } else {
      assert (xs + ys)[1..] == xs[1..] + ys;
      EndedConcat(xs[1..], ys);
    }
  }

  lemma TracesConcat(xs: seq<Event>, a: seq<Stage>, ys: seq<Event>, b: seq<Stage>)
    requires Traces(xs, a) && Traces(ys, b)
    ensures Traces(xs + ys, a + b)
  {
    EndedConcat(xs, ys);
    var all := xs + ys;
    forall i | 0 <= i < |all| && all[i].status == Running ensures EndsNext(all, i) {
      if i < |xs| {
        assert EndsNext(xs, i);
      } else {
        assert EndsNext(ys, i - |xs|);
      }
    }
  }

  lemma TracesDone(stage: Stage)
    ensures Traces(Done(stage), [stage])
  {
    var events := Done(stage);
    assert events[1..] == [Event(stage, Completed)] && events[1..][1..] == [];
    assert Ended(events[1..]) == [stage];
  }

  lemma TracesOne(stage: Stage, status: Status)
    requires status != Running
    ensures Traces([Event(stage, status)], [stage])
  {
    assert [Event(stage, status)][1..] == [];
  }

  lemma TracesFailed(stage: Stage)
    ensures Traces([Event(stage, Running), Event(stage, Failed)], [stage])
  {
    var events := [Event(stage, Running), Event(stage, Failed)];
    assert events[1..] == [Event(stage, Failed)] && events[1..][1..] == [];
    assert Ended(events[1..]) == [stage];
  }

  lemma {:induction false} TracesSkipped(stages: seq<Stage>)
    ensures Traces(SkippedAll(stages), stages)
  {
    if stages != [] {
      TracesSkipped(stages[1..]);
      TracesOne(stages[0], Skipped);
      TracesConcat([Event(stages[0], Skipped)], [stages[0]], SkippedAll(stages[1..]), stages[1..]);
      assert stages == [stages[0]] + stages[1..];
    }
  }

  lemma GeneratedTraces(confidence: Confidence, evidence: seq<Candidate>, decision: Decision,
                        replies: seq<Option<string>>)
    ensures var run := GeneratedOf(confidence, evidence, decision, replies);
            Traces(run.events, if run.result.Ok? then [Generate, CitationCheck] else [Generate])
  {
    hide Traces, Normalize, FindIds, Used, CitationsOf, FirstReply, Done;
    TracesDone(Generate);
    TracesDone(CitationCheck);
    TracesOne(CitationCheck, Skipped);
    TracesFailed(Generate);
    TracesConcat(Done(Generate), [Generate], Done(CitationCheck), [CitationCheck]);
    TracesConcat(Done(Generate), [Generate], [Event(CitationCheck, Skipped)], [CitationCheck]);
    assert [Generate, CitationCheck] == [Generate] + [CitationCheck];
  }

  /** Answering ends its three stages when it returns, and its first two when generation fails. */
  lemma AnswerTraces(settings: Settings, contexts: seq<Candidate>, decision: Decision, replies: seq<Option<string>>)
    ensures var run := AnswerOf(settings, contexts, decision, replies);
            Traces(run.events, if run.result.Ok? then ANSWER_STAGES else ANSWER_STAGES[..2])
  {
    hide Traces, EvidenceOf, Grade, GeneratedOf, SkippedAll, Done;
    TracesSkipped(ANSWER_STAGES);
    if decision.sensitive == [] {
      var confidence := Grade(settings, contexts);
      var evidence := EvidenceOf(contexts, settings.charBudget, settings.tokenBudget);
      var generated := GeneratedOf(confidence, evidence, decision, replies);
      GeneratedTraces(confidence, evidence, decision, replies);
      TracesDone(EvidenceGate);
      TracesSkipped([Generate, CitationCheck]);
      TracesConcat(Done(EvidenceGate), [EvidenceGate], SkippedAll([Generate, CitationCheck]),
                   [Generate, CitationCheck]);
      TracesConcat(Done(EvidenceGate), [EvidenceGate], generated.events,
                   if generated.result.Ok? then [Generate, CitationCheck] else [Generate]);
      assert ANSWER_STAGES == [EvidenceGate] + [Generate, CitationCheck];
      assert ANSWER_STAGES[..2] == [EvidenceGate] + [Generate];
    }
  }

  lemma RetrieveTraces(rows: Rows, config: Config, settings: Settings, hits: seq<Candidate>,
                       reranked: Option<seq<Candidate>>)
    requires RetrieveOf(rows, config, settings, hits, reranked).result.Ok?
    ensures Traces(RetrieveOf(rows, config, settings, hits, reranked).events, RETRIEVAL_STAGES)
  {
    hide Traces, Assembled, AtLeast, Contexts, Done;
    TracesDone(HybridRetrieval);
    TracesDone(Rerank);
    TracesOne(Rerank, Skipped);
    TracesDone(Context);
    var rerank := if reranked.Some? then Done(Rerank) else [Event(Rerank, Skipped)];
    TracesConcat(Done(HybridRetrieval), [HybridRetrieval], rerank, [Rerank]);
    TracesConcat(Done(HybridRetrieval) + rerank, [HybridRetrieval] + [Rerank], Done(Context), [Context]);
    assert RETRIEVAL_STAGES == [HybridRetrieval] + [Rerank] + [Context];
  }

  /** Every query that returns ends each of the seven stages exactly once, in pipeline order. */
  lemma QueryTraces(rows: Rows, config: Config, settings: Settings, verdict: Option<Decision>,
                    hits: seq<Candidate>, reranked: Option<seq<Candidate>>, replies: seq<Option<string>>)
    requires QueryOf(rows, config, settings, verdict, hits, reranked, replies).result.Ok?
    ensures Traces(QueryOf(rows, config, settings, verdict, hits, reranked, replies).events, PIPELINE)
  {
    hide Traces, AnswerOf, RetrieveOf, EvidenceOf, SkippedAll, Done, Escalated;
    TracesFailed(Triage);
    TracesDone(Triage);
    TracesSkipped(RETRIEVAL_STAGES);
    TracesSkipped(ANSWER_STAGES);
    var failed := [Event(Triage, Running), Event(Triage, Failed)];
    PipelineParts();
    if verdict.None? {
      ThreeParts(failed, SkippedAll(RETRIEVAL_STAGES), SkippedAll(ANSWER_STAGES));
    } else if verdict.value.sensitive != [] {
      AnswerTraces(settings, [], verdict.value, replies);
      ThreeParts(Done(Triage), SkippedAll(RETRIEVAL_STAGES), AnswerOf(settings, [], verdict.value, replies).events);
    } else if verdict.value.confidence == Low {
      ThreeParts(Done(Triage), SkippedAll(RETRIEVAL_STAGES), SkippedAll(ANSWER_STAGES));
    } else {
      var retrieved := RetrieveOf(rows, config, settings, hits, reranked);
      RetrieveTraces(rows, config, settings, hits, reranked);
      AnswerTraces(settings, retrieved.result.value, verdict.value, replies);
      ThreeParts(Done(Triage), retrieved.events,
                 AnswerOf(settings, retrieved.result.value, verdict.value, replies).events);
    }
  }

  lemma PipelineParts()
    ensures PIPELINE == [Triage] + RETRIEVAL_STAGES + ANSWER_STAGES
  {
  }

  lemma ThreeParts(triage: seq<Event>, retrieval: seq<Event>, answer: seq<Event>)
    requires Traces(triage, [Triage]) && Traces(retrieval, RETRIEVAL_STAGES) && Traces(answer, ANSWER_STAGES)
    ensures Traces(triage + retrieval + answer, PIPELINE)
  {
    hide Traces;
    TracesConcat(triage, [Triage], retrieval, RETRIEVAL_STAGES);
    TracesConcat(triage + retrieval, [Triage] + RETRIEVAL_STAGES, answer, ANSWER_STAGES);
    PipelineParts();
  }

  // ----- The response -----

  /** Answers are cited and confident; anything else goes to a person for exactly one reason. */
  predicate WellRouted(r: Response) {
    && (r.answered <==> r.citations != [])
    && (r.answered ==> r.confidence != Low && (r.reasons == [] || r.reasons == [PolicyRule]))
    && (!r.answered ==> r.confidence == Low && |r.reasons| == 1 && r.reasons != [PolicyRule])
    && (r.humanReview <==> r.routing == Some(CustomerSupport))
    && (r.humanReview <==> r.reasons != [])
    && (r.sensitive != [] ==> r.reasons == [SensitiveData])
  }

  lemma AnswerWellRouted(settings: Settings, contexts: seq<Candidate>, decision: Decision, replies: seq<Option<string>>)
    ensures var result := AnswerOf(settings, contexts, decision, replies).result;
            result.Ok? ==> WellRouted(result.value)
  {
    hide EvidenceOf, Grade, Normalize, FindIds, Used, CitationsOf, FirstReply, SkippedAll, Done;
  }

  /** Every response of every query is well routed. */
  lemma QueryWellRouted(rows: Rows, config: Config, settings: Settings, verdict: Option<Decision>,
                        hits: seq<Candidate>, reranked: Option<seq<Candidate>>, replies: seq<Option<string>>)
    requires QueryOf(rows, config, settings, verdict, hits, reranked, replies).result.Ok?
    ensures WellRouted(QueryOf(rows, config, settings, verdict, hits, reranked, replies).result.value.response)
  {
    hide AnswerOf, RetrieveOf, EvidenceOf, SkippedAll, Done;
    if verdict.Some? {
      AnswerWellRouted(settings, [], verdict.value, replies);
      var retrieved := RetrieveOf(rows, config, settings, hits, reranked);
      if retrieved.result.Ok? {
        AnswerWellRouted(settings, retrieved.result.value, verdict.value, replies);
      }
    }
  }

  /**
   An answered query passed every gate, and its citations are exactly the pieces of the evidence kept
   in the execution record that the model's draft marked, in evidence order.
   */
  lemma AnsweredIsGrounded(rows: Rows, config: Config, settings: Settings, verdict: Option<Decision>,
                           hits: seq<Candidate>, reranked: Option<seq<Candidate>>, replies: seq<Option<string>>)
    returns (places: seq<nat>)
    requires var result := QueryOf(rows, config, settings, verdict, hits, reranked, replies).result;
             result.Ok? && result.value.response.answered
    ensures var execution := QueryOf(rows, config, settings, verdict, hits, reranked, replies).result.value;
            var reply := FirstReply(replies);
            && verdict.Some? && verdict.value.sensitive == [] && verdict.value.confidence != Low
            && execution.contexts != []
            && reply.Some? && execution.response.answer == Normalize(reply.value)
            && CitesFrom(execution.contexts, Labels(reply.value), 0, execution.response.citations, places)
  {
    hide AnswerOf, RetrieveOf, EvidenceOf, SkippedAll, Done, CitesFrom, FirstReply, Normalize;
    var retrieved := RetrieveOf(rows, config, settings, hits, reranked);
    if verdict.Some? && verdict.value.sensitive != [] {
      AnswerWellRouted(settings, [], verdict.value, replies);
      SensitiveIsNotAnswered(settings, [], verdict.value, replies);
    }
    places := AnsweredFromEvidence(settings, retrieved.result.value, verdict.value, replies);
  }

  lemma SensitiveIsNotAnswered(settings: Settings, contexts: seq<Candidate>, decision: Decision,
                               replies: seq<Option<string>>)
    requires decision.sensitive != []
    ensures var result := AnswerOf(settings, contexts, decision, replies).result;
            result.Ok? && !result.value.answered
  {
  }

  lemma AnsweredFromEvidence(settings: Settings, contexts: seq<Candidate>, decision: Decision,
                             replies: seq<Option<string>>)
    returns (places: seq<nat>)
    requires var result := AnswerOf(settings, contexts, decision, replies).result;
             result.Ok? && result.value.answered
    ensures var response := AnswerOf(settings, contexts, decision, replies).result.value;
            var evidence := EvidenceOf(contexts, settings.charBudget, settings.tokenBudget);
            var reply := FirstReply(replies);
            && evidence != [] && reply.Some? && response.answer == Normalize(reply.value)
            && CitesFrom(evidence, Labels(reply.value), 0, response.citations, places)
  {
    hide EvidenceOf, Grade, Normalize, FindIds, Used, CitationsOf, FirstReply, SkippedAll, Done, CitesFrom;
    var evidence := EvidenceOf(contexts, settings.charBudget, settings.tokenBudget);
    places := CitationsAreTheMarkedEvidence(evidence, FirstReply(replies).value);
  }

  /** The contexts kept in the record are the evidence itself: packing them again gives them back. */
  lemma RecordedContextsArePacked(rows: Rows, config: Config, settings: Settings, verdict: Option<Decision>,
                                  hits: seq<Candidate>, reranked: Option<seq<Candidate>>, replies: seq<Option<string>>)
    requires QueryOf(rows, config, settings, verdict, hits, reranked, replies).result.Ok?
    ensures var kept := QueryOf(rows, config, settings, verdict, hits, reranked, replies).result.value.contexts;
            && EvidenceOf(kept, settings.charBudget, settings.tokenBudget) == kept
            && TotalChars(kept) <= (if settings.charBudget > 0 then settings.charBudget else 0)
            && TotalTokens(kept) <= (if settings.tokenBudget > 0 then settings.tokenBudget else 0)
  {
    hide AnswerOf, RetrieveOf, SkippedAll, Done, PackFrom, Escalated;
    assert EvidenceOf([], settings.charBudget, settings.tokenBudget) == [] by { NothingPacked(settings); }
    var retrieved := RetrieveOf(rows, config, settings, hits, reranked);
    if retrieved.result.Ok? {
      PackIdempotent(retrieved.result.value, 0, 0, settings.charBudget, settings.tokenBudget);
      PackWithinBudgets(retrieved.result.value, 0, settings.charBudget, settings.tokenBudget);
    }
  }

  lemma NothingPacked(settings: Settings)
    ensures EvidenceOf([], settings.charBudget, settings.tokenBudget) == []
  {
  }

  // ----- Queries over what a run has published -----

  ghost predicate AllHits(points: Points, candidates: seq<Candidate>) {
    forall r :: 0 <= r < |candidates| ==> IsHit(points, candidates[r])
  }

  lemma {:induction false} AtLeastKeepsHits(points: Points, candidates: seq<Candidate>, score: real)
    requires AllHits(points, candidates)
    ensures AllHits(points, AtLeast(candidates, score))
  {
    hide IsHit;
    if candidates != [] {
      assert forall r :: 0 <= r < |candidates[1..]| ==> candidates[1..][r] == candidates[r + 1];
      AtLeastKeepsHits(points, candidates[1..], score);
    }
  }

  /**
   A query over the hits of any state of any run, reranked or not, never fails for a missing parent; only
   generation can make it raise.
   */
  lemma QueryFindsParents(states: seq<State>, labels: seq<Label>, i: nat, config: Config, settings: Settings,
                          verdict: Option<Decision>, hits: seq<Candidate>, reranked: Option<seq<Candidate>>,
                          replies: seq<Option<string>>)
    requires IsRun(states, labels) && i < |states|
    requires AllHits(states[i].points, hits)
    requires reranked.Some? ==> AllHits(states[i].points, reranked.value)
    ensures var result := QueryOf(states[i].rows, config, settings, verdict, hits, reranked, replies).result;
            result.Raised? ==> result.error == GenerationFailed
  {
    hide IsRun, AllHits, Assembled, AssemblyOk, AtLeast, EvidenceOf, SkippedAll;
    var ranked := if reranked.Some? then AtLeast(reranked.value, settings.minRerankScore) else hits;
    if reranked.Some? {
      AtLeastKeepsHits(states[i].points, reranked.value, settings.minRerankScore);
    }
    RankedHitsAssemble(states, labels, i, config, ranked);
  }

  lemma RankedHitsAssemble(states: seq<State>, labels: seq<Label>, i: nat, config: Config, ranked: seq<Candidate>)
    requires IsRun(states, labels) && i < |states| && AllHits(states[i].points, ranked)
    ensures Assembled(states[i].rows, config, ranked).Ok?
  {
    hide IsRun, Assembled, AssemblyOk, IsHit;
    HitsAlwaysAssemble(states, labels, i, config, ranked);
  }
}
