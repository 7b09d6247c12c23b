/**
 Exactly what a query returns: each outcome from the scores, the triage verdict, the model's replies and their
 markers, and the status with which every stage ends.
 */
module AnswerLaws {
  import opened Results
  import opened Text
  import opened Stores
  import opened Assembler
  import opened Evidence
  import opened Citations
  import opened Querying

  // ----- Scores -----

  /** The context's rerank score, or its retrieval score if it was not reranked, is at least the threshold. */
  predicate Reaches(c: Candidate, threshold: real) {
    match c.rerankScore
    case Some(score) => score >= threshold
    case None => c.hybridScore >= threshold
  }

  predicate SomeReaches(contexts: seq<Candidate>, threshold: real) {
    exists i :: 0 <= i < |contexts| && Reaches(contexts[i], threshold)
  }

  lemma {:induction false} TopReachesIff(contexts: seq<Candidate>, threshold: real)
    requires contexts != []
    ensures TopScore(contexts) >= threshold <==> SomeReaches(contexts, threshold)
  {
    if |contexts| == 1 {
      assert Reaches(contexts[0], threshold) <==> FinalScore(contexts[0]) >= threshold;
    } else {
      var rest := contexts[1..];
      assert forall i :: 0 <= i < |rest| ==> rest[i] == contexts[i + 1];
      TopReachesIff(rest, threshold);
      assert Reaches(contexts[0], threshold) <==> FinalScore(contexts[0]) >= threshold;
      if SomeReaches(rest, threshold) {
        var i :| 0 <= i < |rest| && Reaches(rest[i], threshold);
        assert Reaches(contexts[i + 1], threshold);
      }
    }
  }

  /** High when some context reaches the high threshold, else medium when some reaches the medium one, else low. */
  lemma GradeIff(settings: Settings, contexts: seq<Candidate>)
    ensures Grade(settings, contexts) == High <==> SomeReaches(contexts, settings.highThreshold)
    ensures Grade(settings, contexts) == Low
       <==> !SomeReaches(contexts, settings.highThreshold) && !SomeReaches(contexts, settings.mediumThreshold)
  {
    hide TopScore, Reaches;
    if contexts != [] {
      TopReachesIff(contexts, settings.highThreshold);
      TopReachesIff(contexts, settings.mediumThreshold);
    }
  }

  predicate KeptAt(all: seq<Candidate>, kept: seq<Candidate>, places: seq<nat>, k: nat)
    requires k < |places| == |kept|
  {
    places[k] < |all| && kept[k] == all[places[k]]
  }

  ghost predicate KeepsReaching(all: seq<Candidate>, score: real, kept: seq<Candidate>, places: seq<nat>) {
    && |places| == |kept|
    && (forall k :: 0 <= k < |places| ==> KeptAt(all, kept, places, k))
    && (forall k, l :: 0 <= k < l < |places| ==> places[k] < places[l])
    && (forall i: nat :: i < |all| ==> (i in places <==> Reaches(all[i], score)))
  }

  /** Filtering keeps, in order, exactly the candidates that reach the score. */
  lemma {:induction false} AtLeastExact(candidates: seq<Candidate>, score: real) returns (places: seq<nat>)
    ensures KeepsReaching(candidates, score, AtLeast(candidates, score), places)
  {
    hide Reaches, KeepsReaching;
    if candidates == [] {
      places := [];
      NothingKept(score);
    } else {
      var first, rest := candidates[0], candidates[1..];
      assert candidates == [first] + rest;
      var later := AtLeastExact(rest, score);
      assert FinalScore(first) >= score <==> Reaches(first, score) by { ScoreReaches(first, score); }
      var shifted := Shift(later);
      ShiftedKept(first, rest, score, AtLeast(rest, score), later);
      places := if Reaches(first, score) then [0] + shifted else shifted;
      assert [] + AtLeast(rest, score) == AtLeast(rest, score);
    }
  }

  lemma ScoreReaches(c: Candidate, score: real)
    ensures FinalScore(c) >= score <==> Reaches(c, score)
  {
  }

  lemma NothingKept(score: real)
    ensures KeepsReaching([], score, [], [])
  {
  }

  function Shift(places: seq<nat>): (shifted: seq<nat>)
    ensures |shifted| == |places| && forall k :: 0 <= k < |places| ==> shifted[k] == places[k] + 1
  {
    seq(|places|, k requires 0 <= k < |places| => places[k] + 1)
  }

  lemma ShiftedIn(places: seq<nat>, i: nat)
    ensures i + 1 in Shift(places) <==> i in places
    ensures 0 !in Shift(places)
  {
    if i in places {
      var k :| 0 <= k < |places| && places[k] == i;
      assert Shift(places)[k] == i + 1;
    }
  }

  lemma ShiftedKept(first: Candidate, rest: seq<Candidate>, score: real, kept: seq<Candidate>, places: seq<nat>)
    requires KeepsReaching(rest, score, kept, places)
    ensures if Reaches(first, score) then KeepsReaching([first] + rest, score, [first] + kept, [0] + Shift(places))
            else KeepsReaching([first] + rest, score, kept, Shift(places))
  {
    hide Reaches;
    var all, shifted := [first] + rest, Shift(places);
    forall i: nat | 1 <= i < |all| ensures i in shifted <==> Reaches(all[i], score) {
      ShiftedIn(places, i - 1);
      assert all[i] == rest[i - 1];
    }
    ShiftedIn(places, 0);
    forall k | 0 <= k < |places| ensures KeptAt(all, kept, shifted, k) {
      assert KeptAt(rest, kept, places, k);
    }
    if Reaches(first, score) {
      FirstKept(first, rest, score, kept, shifted);
    }
  }

  lemma FirstKept(first: Candidate, rest: seq<Candidate>, score: real, kept: seq<Candidate>, shifted: seq<nat>)
    requires Reaches(first, score) && |shifted| == |kept| && 0 !in shifted
    requires forall k :: 0 <= k < |shifted| ==> KeptAt([first] + rest, kept, shifted, k)
    requires forall k, l :: 0 <= k < l < |shifted| ==> shifted[k] < shifted[l]
    requires forall i: nat :: 1 <= i < |rest| + 1 ==> (i in shifted <==> Reaches(([first] + rest)[i], score))
    ensures KeepsReaching([first] + rest, score, [first] + kept, [0] + shifted)
  {
    hide Reaches;
    var all, places, held := [first] + rest, [0] + shifted, [first] + kept;
    forall i: nat | i < |all| ensures i in places <==> Reaches(all[i], score) {
      if i in shifted {
        var k :| 0 <= k < |shifted| && shifted[k] == i;
        assert places[k + 1] == i;
      }
      if i == 0 { assert places[0] == i; }
    }
    forall k | 0 <= k < |places| ensures KeptAt(all, held, places, k) {
      if k > 0 { assert KeptAt(all, kept, shifted, k - 1); }
    }
    forall k, l | 0 <= k < l < |places| ensures places[k] < places[l] {
      assert places[l] == shifted[l - 1] && places[l] in shifted;
      if k > 0 { assert places[k] == shifted[k - 1]; }
    }
  }

  // ----- The model's reply -----

  /** Attempt `k` is the first that returns, and `reply` is what it returns without outer whitespace. */
  predicate RepliesAt(replies: seq<Option<string>>, k: nat, reply: string) {
    k < |replies| && replies[k].Some? && reply == Strip(replies[k].value) && forall i :: 0 <= i < k ==> replies[i].None?
  }

  lemma {:induction false} FirstReplyIff(replies: seq<Option<string>>)
    ensures FirstReply(replies).None? <==> forall i :: 0 <= i < |replies| ==> replies[i].None?
    ensures FirstReply(replies).Some? ==> exists k: nat :: RepliesAt(replies, k, FirstReply(replies).value)
  {
    hide Strip;
    if replies != [] {
      var rest := replies[1..];
      assert forall i :: 0 <= i < |rest| ==> rest[i] == replies[i + 1];
      FirstReplyIff(rest);
      if replies[0].Some? {
        assert RepliesAt(replies, 0, FirstReply(replies).value);
      } else if FirstReply(replies).Some? {
        var k: nat :| RepliesAt(rest, k, FirstReply(replies).value);
        assert forall i :: 0 <= i < k + 1 ==> replies[i].None? by {
          assert forall i :: 1 <= i < k + 1 ==> replies[i] == rest[i - 1];
        }
        assert RepliesAt(replies, k + 1, FirstReply(replies).value);
      }
    }
  }

  /** Some piece of the evidence is marked in the reply. */
  predicate Marks(reply: string, evidence: seq<Candidate>) {
    exists j :: 0 <= j < |evidence| && SourceId(j) in Labels(reply)
  }

  /** Citations are used exactly when some are marked. */
  lemma UsedIff(evidence: seq<Candidate>, reply: string)
    ensures Used(CitationsOf(evidence), FindIds(Normalize(reply))) != [] <==> Marks(reply, evidence)
  {
    hide SourceId, Labels, CitationsOf, Used, FindIds, Normalize;
    var places := CitationsAreTheMarkedEvidence(evidence, reply);
    var used := Used(CitationsOf(evidence), FindIds(Normalize(reply)));
    if used != [] {
      assert Cites(evidence, Labels(reply), used[0], places[0]);
    }
    if Marks(reply, evidence) {
      var j :| 0 <= j < |evidence| && SourceId(j) in Labels(reply);
      assert j in places;
    }
  }

  // ----- How the stages end -----

  /** The events that end a stage, in order. */
  function Ends(events: seq<Event>): seq<Event> {
    if events == [] then [] else (if events[0].status == Running then [] else [events[0]]) + Ends(events[1..])
  }

  lemma {:induction false} EndsConcat(xs: seq<Event>, ys: seq<Event>)
    ensures Ends(xs + ys) == Ends(xs) + Ends(ys)
  {
    if xs == [] {
      assert xs + ys == ys;
    } else {
      assert (xs + ys)[1..] == xs[1..] + ys;
      EndsConcat(xs[1..], ys);
    }
  }

  lemma EndsOfDone(stage: Stage)
    ensures Ends(Done(stage)) == [Event(stage, Completed)]
  {
    assert Done(stage)[1..] == [Event(stage, Completed)] && [Event(stage, Completed)][1..] == [];
  }

  lemma {:induction false} EndsOfSkipped(stages: seq<Stage>)
    ensures Ends(SkippedAll(stages)) == SkippedAll(stages)
  {
    if stages != [] {
      EndsOfSkipped(stages[1..]);
      assert SkippedAll(stages)[1..] == SkippedAll(stages[1..]);
    }
  }

  lemma SkippedTwo()
    ensures SkippedAll([Generate, CitationCheck]) == [Event(Generate, Skipped), Event(CitationCheck, Skipped)]
  {
    assert [Generate, CitationCheck][1..] == [CitationCheck] && [CitationCheck][1..] == [];
  }

  lemma SkippedThree()
    ensures SkippedAll([EvidenceGate, Generate, CitationCheck])
         == [Event(EvidenceGate, Skipped), Event(Generate, Skipped), Event(CitationCheck, Skipped)]
  {
    SkippedTwo();
    assert [EvidenceGate, Generate, CitationCheck][1..] == [Generate, CitationCheck];
  }

  // ----- What answering returns -----

  /** Nothing is answered; a person gets the ticket for this reason. */
  predicate HandsOver(r: Response, decision: Decision, reason: Reason) {
    && !r.answered && r.confidence == Low && r.citations == []
    && r.humanReview && r.routing == Some(CustomerSupport) && r.reasons == [reason]
    && r.category == decision.category
  }

  predicate EndsWith(run: Answered, gate: Status, generate: Status, citations: Status) {
    Ends(run.events) == [Event(EvidenceGate, gate), Event(Generate, generate), Event(CitationCheck, citations)]
  }

  /** Sensitive data stops everything before the evidence is looked at. */
  lemma SensitiveOutcome(settings: Settings, contexts: seq<Candidate>, decision: Decision, replies: seq<Option<string>>)
    requires decision.sensitive != []
    ensures var run := AnswerOf(settings, contexts, decision, replies);
            && run.result.Ok? && HandsOver(run.result.value, decision, SensitiveData)
            && run.result.value.sensitive == decision.sensitive
            && EndsWith(run, Skipped, Skipped, Skipped)
  {
    SkippedThree();
    EndsOfSkipped([EvidenceGate, Generate, CitationCheck]);
  }

  /** Without contexts, with none that reaches a threshold, or with none that fits, the model is not called. */
  lemma GateOutcome(settings: Settings, contexts: seq<Candidate>, decision: Decision, replies: seq<Option<string>>)
    requires decision.sensitive == []
    requires || (!SomeReaches(contexts, settings.mediumThreshold) && !SomeReaches(contexts, settings.highThreshold))
             || EvidenceOf(contexts, settings.charBudget, settings.tokenBudget) == []
    ensures var run := AnswerOf(settings, contexts, decision, replies);
            var weak := && !SomeReaches(contexts, settings.mediumThreshold)
                        && !SomeReaches(contexts, settings.highThreshold);
            && run.result.Ok?
            && HandsOver(run.result.value, decision,
                         if contexts != [] && weak then LowConfidence else InsufficientContext)
            && run.result.value.sensitive == []
            && EndsWith(run, Completed, Skipped, Skipped)
  {
    hide EvidenceOf, Grade, GeneratedOf, SkippedAll, SomeReaches;
    GradeIff(settings, contexts);
    SkippedTwo();
    EndsOfDone(EvidenceGate);
    EndsOfSkipped([Generate, CitationCheck]);
    EndsConcat(Done(EvidenceGate), SkippedAll([Generate, CitationCheck]));
  }

  /** The evidence is confident enough, and some of it fits. */
  predicate PassesGate(settings: Settings, contexts: seq<Candidate>, decision: Decision) {
    && decision.sensitive == []
    && (SomeReaches(contexts, settings.mediumThreshold) || SomeReaches(contexts, settings.highThreshold))
    && EvidenceOf(contexts, settings.charBudget, settings.tokenBudget) != []
  }

  lemma PassedGate(settings: Settings, contexts: seq<Candidate>, decision: Decision, replies: seq<Option<string>>)
    requires PassesGate(settings, contexts, decision)
    ensures var evidence := EvidenceOf(contexts, settings.charBudget, settings.tokenBudget);
            var generated := GeneratedOf(Grade(settings, contexts), evidence, decision, replies);
            AnswerOf(settings, contexts, decision, replies)
            == Answered(Done(EvidenceGate) + generated.events, generated.result)
  {
    hide EvidenceOf, Grade, GeneratedOf, SkippedAll;
    GradeIff(settings, contexts);
  }

  /** The model is called and no attempt returns: the query fails, and its trace ends there. */
  lemma FailureOutcome(settings: Settings, contexts: seq<Candidate>, decision: Decision, replies: seq<Option<string>>)
    requires PassesGate(settings, contexts, decision)
    requires forall i :: 0 <= i < |replies| ==> replies[i].None?
    ensures var run := AnswerOf(settings, contexts, decision, replies);
            && run.result == Raised(GenerationFailed)
            && Ends(run.events) == [Event(EvidenceGate, Completed), Event(Generate, Failed)]
  {
    hide EvidenceOf, Grade, SomeReaches, AnswerOf;
    PassedGate(settings, contexts, decision, replies);
    FirstReplyIff(replies);
    EndsOfDone(EvidenceGate);
    var failed := [Event(Generate, Running), Event(Generate, Failed)];
    assert failed[1..] == [Event(Generate, Failed)] && failed[1..][1..] == [];
    EndsConcat(Done(EvidenceGate), failed);
  }

  /** The model abstains. */
  lemma AbstentionOutcome(settings: Settings, contexts: seq<Candidate>, decision: Decision,
                          replies: seq<Option<string>>, k: nat, reply: string)
    requires PassesGate(settings, contexts, decision) && RepliesAt(replies, k, reply)
    requires reply == "" || reply == "NOT_FOUND"
    ensures var run := AnswerOf(settings, contexts, decision, replies);
            && run.result.Ok? && HandsOver(run.result.value, decision, InsufficientContext)
            && run.result.value.sensitive == [] && EndsWith(run, Completed, Completed, Skipped)
  {
    hide EvidenceOf, Grade, SomeReaches, AnswerOf, Strip;
    PassedGate(settings, contexts, decision, replies);
    OnlyReply(replies, k, reply);
    EndsOfDone(EvidenceGate);
    EndsOfDone(Generate);
    var skipped := [Event(CitationCheck, Skipped)];
    assert Ends(skipped) == skipped by { assert skipped[1..] == []; }
    EndsConcat(Done(Generate), skipped);
    EndsConcat(Done(EvidenceGate), Done(Generate) + skipped);
  }

  lemma OnlyReply(replies: seq<Option<string>>, k: nat, reply: string)
    requires RepliesAt(replies, k, reply)
    ensures FirstReply(replies) == Some(reply)
  {
    hide Strip;
    FirstReplyIff(replies);
    var l: nat :| RepliesAt(replies, l, FirstReply(replies).value);
    assert l == k;
  }

  /** The draft marks none of the evidence. */
  lemma UncitedOutcome(settings: Settings, contexts: seq<Candidate>, decision: Decision,
                       replies: seq<Option<string>>, k: nat, reply: string)
    requires PassesGate(settings, contexts, decision) && RepliesAt(replies, k, reply)
    requires reply != "" && reply != "NOT_FOUND"
    requires !Marks(reply, EvidenceOf(contexts, settings.charBudget, settings.tokenBudget))
    ensures var run := AnswerOf(settings, contexts, decision, replies);
            && run.result.Ok? && HandsOver(run.result.value, decision, MissingCitations)
            && run.result.value.sensitive == [] && EndsWith(run, Completed, Completed, Completed)
  {
    hide EvidenceOf, Grade, SomeReaches, AnswerOf, Strip, Marks, Normalize, FindIds, Used, CitationsOf;
    PassedGate(settings, contexts, decision, replies);
    OnlyReply(replies, k, reply);
    UsedIff(EvidenceOf(contexts, settings.charBudget, settings.tokenBudget), reply);
    ThreeDone();
  }

  lemma ThreeDone()
    ensures Ends(Done(EvidenceGate) + (Done(Generate) + Done(CitationCheck)))
         == [Event(EvidenceGate, Completed), Event(Generate, Completed), Event(CitationCheck, Completed)]
  {
    hide Done;
    EndsOfDone(EvidenceGate);
    EndsOfDone(Generate);
    EndsOfDone(CitationCheck);
    EndsConcat(Done(Generate), Done(CitationCheck));
    EndsConcat(Done(EvidenceGate), Done(Generate) + Done(CitationCheck));
  }

  /**
   Confidence is high when some context reaches the high threshold; a policy rule, and nothing else, sends
   it to a person.
   */
  predicate Answers(r: Response, settings: Settings, contexts: seq<Candidate>, decision: Decision, reply: string) {
    && r.answered && r.citations != [] && r.answer == Normalize(reply) && r.category == decision.category
    && r.confidence == (if SomeReaches(contexts, settings.highThreshold) then High else Medium)
    && r.humanReview == decision.policyReview
    && r.routing == (if decision.policyReview then Some(CustomerSupport) else None)
    && r.reasons == (if decision.policyReview then [PolicyRule] else [])
    && r.sensitive == []
  }

  /** The draft marks some of the evidence: it is the answer, with exactly the marked evidence as its citations. */
  lemma AnswerOutcome(settings: Settings, contexts: seq<Candidate>, decision: Decision,
                      replies: seq<Option<string>>, k: nat, reply: string) returns (places: seq<nat>)
    requires PassesGate(settings, contexts, decision) && RepliesAt(replies, k, reply)
    requires reply != "" && reply != "NOT_FOUND"
    requires Marks(reply, EvidenceOf(contexts, settings.charBudget, settings.tokenBudget))
    ensures var run := AnswerOf(settings, contexts, decision, replies);
            var evidence := EvidenceOf(contexts, settings.charBudget, settings.tokenBudget);
            && run.result.Ok? && Answers(run.result.value, settings, contexts, decision, reply)
            && CitesFrom(evidence, Labels(reply), 0, run.result.value.citations, places)
            && EndsWith(run, Completed, Completed, Completed)
  {
    hide EvidenceOf, Grade, SomeReaches, AnswerOf, Strip, Marks, Normalize, FindIds, Used, CitationsOf, CitesFrom;
    PassedGate(settings, contexts, decision, replies);
    OnlyReply(replies, k, reply);
    GradeIff(settings, contexts);
    var evidence := EvidenceOf(contexts, settings.charBudget, settings.tokenBudget);
    UsedIff(evidence, reply);
    places := CitationsAreTheMarkedEvidence(evidence, reply);
    ThreeDone();
  }

  // ----- What a query returns -----

  /** A triage that fails, or is unsure, hands over before anything is retrieved. */
  lemma TriageOutcome(rows: Rows, config: Config, settings: Settings, verdict: Option<Decision>,
                      hits: seq<Candidate>, reranked: Option<seq<Candidate>>, replies: seq<Option<string>>)
    requires verdict.None? || (verdict.value.sensitive == [] && verdict.value.confidence == Low)
    ensures var run := QueryOf(rows, config, settings, verdict, hits, reranked, replies);
            && run.result.Ok? && run.result.value.contexts == []
            && (verdict.Some? ==> HandsOver(run.result.value.response, verdict.value, TriageUncertain))
            && (verdict.None? ==> var r := run.result.value.response;
                                  r == Response("other", Low, true, Some(CustomerSupport), false, r.answer,
                                                [TriageFailure], [], []))
            && Ends(run.events) == [Event(Triage, if verdict.Some? then Completed else Failed),
                                    Event(HybridRetrieval, Skipped), Event(Rerank, Skipped), Event(Context, Skipped),
                                    Event(EvidenceGate, Skipped), Event(Generate, Skipped),
                                    Event(CitationCheck, Skipped)]
  {
    hide AnswerOf, RetrieveOf, SkippedAll, Done;
    EndsOfDone(Triage);
    var failed := [Event(Triage, Running), Event(Triage, Failed)];
    FailedTriage();
    var triage := if verdict.Some? then Done(Triage) else failed;
    SkippedRetrieval();
    SkippedThree();
    EndsOfSkipped(RETRIEVAL_STAGES);
    EndsOfSkipped(ANSWER_STAGES);
    EndsConcat(triage, SkippedAll(RETRIEVAL_STAGES));
    EndsConcat(triage + SkippedAll(RETRIEVAL_STAGES), SkippedAll(ANSWER_STAGES));
  }

  lemma FailedTriage()
    ensures Ends([Event(Triage, Running), Event(Triage, Failed)]) == [Event(Triage, Failed)]
  {
    var failed := [Event(Triage, Running), Event(Triage, Failed)];
    assert failed[1..] == [Event(Triage, Failed)] && failed[1..][1..] == [];
  }

  lemma SkippedRetrieval()
    ensures SkippedAll(RETRIEVAL_STAGES)
         == [Event(HybridRetrieval, Skipped), Event(Rerank, Skipped), Event(Context, Skipped)]
  {
    assert RETRIEVAL_STAGES[1..] == [Rerank, Context] && [Rerank, Context][1..] == [Context] && [Context][1..] == [];
    assert SkippedAll([Context]) == [Event(Context, Skipped)] + [];
    assert SkippedAll([Rerank, Context]) == [Event(Rerank, Skipped)] + SkippedAll([Context]);
  }

  /** The hits that retrieval assembles: all of them as they are ranked, or those the reranker scores high enough. */
  ghost predicate Ranks(hits: seq<Candidate>, reranked: Option<seq<Candidate>>, score: real, ranked: seq<Candidate>) {
    match reranked
    case None => ranked == hits
    case Some(all) => exists places :: KeepsReaching(all, score, ranked, places)
  }

  /**
   A query that triage lets through answers from the contexts assembled of the ranked hits. The record keeps
   the evidence of those contexts.
   */
  lemma RetrievalOutcome(rows: Rows, config: Config, settings: Settings, decision: Decision,
                         hits: seq<Candidate>, reranked: Option<seq<Candidate>>, replies: seq<Option<string>>)
    returns (ranked: seq<Candidate>)
    requires decision.sensitive == [] && decision.confidence != Low
    ensures Ranks(hits, reranked, settings.minRerankScore, ranked)
    ensures var run := QueryOf(rows, config, settings, Some(decision), hits, reranked, replies);
            match ContextsOf(Assembled(rows, config, ranked))
            case Raised(error) =>
              && run.result == Raised(MissingParent(error.key))
              && Ends(run.events) == [Event(Triage, Completed), Event(HybridRetrieval, Completed),
                                      Event(Rerank, if reranked.Some? then Completed else Skipped)]
            case Ok(contexts) =>
              var answered := AnswerOf(settings, contexts, decision, replies);
              && Ends(run.events) == [Event(Triage, Completed), Event(HybridRetrieval, Completed),
                                      Event(Rerank, if reranked.Some? then Completed else Skipped),
                                      Event(Context, Completed)] + Ends(answered.events)
              && match answered.result
                 case Raised(error) => run.result == Raised(error)
                 case Ok(response) =>
                   run.result == Ok(Execution(response,
                                              EvidenceOf(contexts, settings.charBudget, settings.tokenBudget)))
  {
    hide AnswerOf, Assembled, EvidenceOf, AtLeast, Contexts, SkippedAll, Reaches;
    ranked := if reranked.Some? then AtLeast(reranked.value, settings.minRerankScore) else hits;
    if reranked.Some? {
      var places := AtLeastExact(reranked.value, settings.minRerankScore);
      assert KeepsReaching(reranked.value, settings.minRerankScore, ranked, places);
    }
    match ContextsOf(Assembled(rows, config, ranked))
    case Raised(_) => AssemblyFailedEnds(reranked.Some?);
    case Ok(contexts) =>
      RetrievalEnds(reranked.Some?, AnswerOf(settings, contexts, decision, replies).events);
  }

  lemma EndsOfFive(a: seq<Event>, b: seq<Event>, c: seq<Event>, d: seq<Event>, e: seq<Event>)
    ensures Ends(a + (b + c + d) + e) == Ends(a) + Ends(b) + Ends(c) + Ends(d) + Ends(e)
  {
    hide Ends;
    EndsConcat(b, c);
    EndsConcat(b + c, d);
    EndsConcat(a, b + c + d);
    EndsConcat(a + (b + c + d), e);
    assert Ends(a) + (Ends(b) + Ends(c) + Ends(d)) == Ends(a) + Ends(b) + Ends(c) + Ends(d);
  }

  lemma RetrievalEnds(reranks: bool, answering: seq<Event>)
    ensures var rerank := if reranks then Done(Rerank) else [Event(Rerank, Skipped)];
            Ends(Done(Triage) + (Done(HybridRetrieval) + rerank + Done(Context)) + answering)
            == [Event(Triage, Completed), Event(HybridRetrieval, Completed),
                Event(Rerank, if reranks then Completed else Skipped), Event(Context, Completed)] + Ends(answering)
  {
    hide Done, Ends;
    var rerank := if reranks then Done(Rerank) else [Event(Rerank, Skipped)];
    EndsOfDone(Triage);
    EndsOfDone(HybridRetrieval);
    EndsOfDone(Rerank);
    EndsOfDone(Context);
    SkippedRerank();
    EndsOfFive(Done(Triage), Done(HybridRetrieval), rerank, Done(Context), answering);
  }

  lemma AssemblyFailedEnds(reranks: bool)
    ensures var rerank := if reranks then Done(Rerank) else [Event(Rerank, Skipped)];
            Ends(Done(Triage) + (Done(HybridRetrieval) + rerank + [Event(Context, Running)]))
            == [Event(Triage, Completed), Event(HybridRetrieval, Completed),
                Event(Rerank, if reranks then Completed else Skipped)]
  {
    hide Done, Ends;
    var rerank := if reranks then Done(Rerank) else [Event(Rerank, Skipped)];
    EndsOfDone(Triage);
    EndsOfDone(HybridRetrieval);
    EndsOfDone(Rerank);
    SkippedRerank();
    RunningContext();
    var events := Done(Triage) + (Done(HybridRetrieval) + rerank + [Event(Context, Running)]);
    EndsOfFive(Done(Triage), Done(HybridRetrieval), rerank, [Event(Context, Running)], []);
    assert events + [] == events;
  }

  lemma RunningContext()
    ensures Ends([Event(Context, Running)]) == [] && Ends([]) == []
  {
    assert [Event(Context, Running)][1..] == [];
  }

  lemma SkippedRerank()
    ensures Ends([Event(Rerank, Skipped)]) == [Event(Rerank, Skipped)]
  {
    assert [Event(Rerank, Skipped)][1..] == [];
  }

  /** Sensitive data is never retrieved for. */
  lemma SensitiveQueryOutcome(rows: Rows, config: Config, settings: Settings, decision: Decision,
                              hits: seq<Candidate>, reranked: Option<seq<Candidate>>, replies: seq<Option<string>>)
    requires decision.sensitive != []
    ensures var run := QueryOf(rows, config, settings, Some(decision), hits, reranked, replies);
            && run.result.Ok? && run.result.value.contexts == []
            && HandsOver(run.result.value.response, decision, SensitiveData)
            && run.result.value.response.sensitive == decision.sensitive
            && Ends(run.events) == [Event(Triage, Completed),
                                    Event(HybridRetrieval, Skipped), Event(Rerank, Skipped), Event(Context, Skipped),
                                    Event(EvidenceGate, Skipped), Event(Generate, Skipped),
                                    Event(CitationCheck, Skipped)]
  {
    hide AnswerOf, RetrieveOf, SkippedAll;
    SensitiveOutcome(settings, [], decision, replies);
    var answered := AnswerOf(settings, [], decision, replies);
    EndsOfDone(Triage);
    SkippedRetrieval();
    EndsOfSkipped(RETRIEVAL_STAGES);
    EndsConcat(Done(Triage), SkippedAll(RETRIEVAL_STAGES));
    EndsConcat(Done(Triage) + SkippedAll(RETRIEVAL_STAGES), answered.events);
  }
}
