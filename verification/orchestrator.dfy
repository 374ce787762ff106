/** The entry points: `analyzeDocument`, which rejects blank input and runs
    the five analyses one after another with a pause between them, and
    `queryDocument`, one gated request whose failure becomes a fixed reply. */
module Orchestrator {
  import opened Results
  import opened Strings
  import opened JsonValues
  import opened RateGate
  import opened SectionAnalyzers
  import opened RiskAnalyzer

  /** What `analyzeSequentially` collects, one part per analysis. */
  datatype Parts = Parts(
    summary: Json,
    privacy: Section,
    sharing: Section,
    responsibilities: Section,
    risks: seq<Risk>)

  /** What `analyzeDocument` hands to the caller. */
  datatype AnalysisResult = AnalysisResult(summary: Json, sections: seq<Section>, risks: seq<Risk>)

  /** At least one risk, each with a valid severity and either the
      identified-risk tags or the error tags. */
  predicate WellFormedRisks(risks: seq<Risk>) {
    && |risks| >= 1
    && (forall k :: 0 <= k < |risks| ==>
          HasValidSeverity(risks[k]) && (risks[k].tags == AITags || risks[k].tags == ErrorTags))
  }

  /** A section as the caller can rely on it: truthy title and content. */
  predicate TruthySection(s: Section) {
    TruthyJson(s.title) && TruthyJson(s.content)
  }

  /** The shape every result has: a truthy summary, truthy sections and
      well-formed risks. */
  predicate WellFormedResult(a: AnalysisResult) {
    && TruthyJson(a.summary)
    && (forall i :: 0 <= i < |a.sections| ==> TruthySection(a.sections[i]))
    && WellFormedRisks(a.risks)
  }

  /** Whatever the final answer, the risks analysis yields well-formed
      risks. */
  lemma RisksOfWellFormed(a: Answer, parse: Parser)
    ensures WellFormedRisks(RisksOf(a, parse))
  {
    var r := RisksOf(a, parse);
    if r != [RiskFallback] {
      assert forall k :: 0 <= k < |r| ==> r[k].tags == AITags;
    }
  }

  /** The five requests of an analysis, in the order they are made. */
  function PipelinePrompts(content: string): (r: seq<Prompt>)
    ensures |r| == 5
  {
    [ Prompt(SummaryTask, content), Prompt(PrivacyTask, content), Prompt(SharingTask, content),
      Prompt(ResponsibilitiesTask, content), Prompt(RisksTask, content) ]
  }

  /** Request chains for `prompts`, one after another, each answered by
      the next final answer, with a pause of the configured spacing between
      consecutive chains. */
  function RunChains(prompts: seq<Prompt>, e: Env): (r: Env)
    requires |Finals(e.replies)| >= |prompts|
    ensures Finals(r.replies) == Finals(e.replies)[|prompts|..]
    ensures |r.sent| >= |e.sent| + |prompts|
    decreases |prompts|
  {
    if |prompts| == 0 then e
    else
      var e1 := Ask(prompts[0], e).env;
      if |prompts| == 1 then e1 else RunChains(prompts[1..], Delay(e1, DelayBetweenRequests))
  }

  /** One chain, then the rest after a pause. */
  lemma RunChainsCons(prompts: seq<Prompt>, e: Env)
    requires |Finals(e.replies)| >= |prompts| >= 1
    ensures |prompts| == 1 ==> RunChains(prompts, e) == Ask(prompts[0], e).env
    ensures |prompts| >= 2 ==>
      && |Finals(Delay(Ask(prompts[0], e).env, DelayBetweenRequests).replies)| >= |prompts[1..]|
      && RunChains(prompts, e) == RunChains(prompts[1..], Delay(Ask(prompts[0], e).env, DelayBetweenRequests))
  {
  }

  /** Five chains, written out one after another. */
  lemma RunChainsFive(P: seq<Prompt>, e: Env)
    requires |P| == 5 && |Finals(e.replies)| >= 5
    ensures
      var d1 := Delay(Ask(P[0], e).env, DelayBetweenRequests);
      var d2 := Delay(Ask(P[1], d1).env, DelayBetweenRequests);
      var d3 := Delay(Ask(P[2], d2).env, DelayBetweenRequests);
      var d4 := Delay(Ask(P[3], d3).env, DelayBetweenRequests);
      RunChains(P, e) == Ask(P[4], d4).env
  {
    RunChainsCons(P, e);
    var d1 := Delay(Ask(P[0], e).env, DelayBetweenRequests);
    RunChainsCons(P[1..], d1);
    var d2 := Delay(Ask(P[1], d1).env, DelayBetweenRequests);
    RunChainsCons(P[2..], d2);
    var d3 := Delay(Ask(P[2], d2).env, DelayBetweenRequests);
    RunChainsCons(P[3..], d3);
    var d4 := Delay(Ask(P[3], d3).env, DelayBetweenRequests);
    RunChainsCons(P[4..], d4);
    assert P[1..][1..] == P[2..] && P[2..][1..] == P[3..] && P[3..][1..] == P[4..];
  }

  /** `analyzeSequentially(content)`: summary, privacy, data sharing, user
      responsibilities and risks, each a request chain, with a pause of the
      configured spacing after each of the first four. */
  function AnalyzeSequentially(content: string, e: Env, parse: Parser): (r: Step<Parts>)
    requires |Finals(e.replies)| >= 5
    ensures r.env == RunChains(PipelinePrompts(content), e)
  {
    var P := PipelinePrompts(content);
    var summary := GenerateSummary(content, e, parse);
    var privacy := AnalyzePrivacyPolicy(content, Delay(summary.env, DelayBetweenRequests), parse);
    var sharing := AnalyzeDataSharing(content, Delay(privacy.env, DelayBetweenRequests), parse);
    var responsibilities := AnalyzeUserResponsibilities(content, Delay(sharing.env, DelayBetweenRequests), parse);
    var risks := AnalyzeRisks(content, Delay(responsibilities.env, DelayBetweenRequests), parse);
    RunChainsFive(P, e);
    Step(Parts(summary.value, privacy.value, sharing.value, responsibilities.value, risks.value), risks.env)
  }

  /** The i-th analysis is decided by the i-th final answer alone: throttled
      replies, latencies and the gate's state play no part in the parts. */
  lemma AnalyzeSequentiallyParts(content: string, e: Env, parse: Parser)
    requires |Finals(e.replies)| >= 5
    ensures var F := Finals(e.replies);
      AnalyzeSequentially(content, e, parse).value == Parts(
        SummaryOf(F[0], parse),
        PrivacyOf(F[1], parse),
        PassThroughOf(F[2], parse, SharingFallback),
        PassThroughOf(F[3], parse, ResponsibilitiesFallback),
        RisksOf(F[4], parse))
  {
  }

  /** The prompts of a request log, with each run of consecutive attempts
      for the same prompt (one request and its retries) folded into one. */
  ghost function Stages(log: seq<Sent>): seq<Prompt> {
    if |log| == 0 then []
    else if |log| >= 2 && log[|log| - 1].prompt == log[|log| - 2].prompt then Stages(log[..|log| - 1])
    else Stages(log[..|log| - 1]) + [log[|log| - 1].prompt]
  }

  /** A non-empty block of attempts for one prompt, appended after attempts
      for another, adds exactly that prompt to the stages. */
  lemma {:induction false} StagesAppendBlock(xs: seq<Sent>, ys: seq<Sent>, p: Prompt)
    requires |ys| >= 1
    requires forall i :: 0 <= i < |ys| ==> ys[i].prompt == p
    requires |xs| == 0 || xs[|xs| - 1].prompt != p
    ensures Stages(xs + ys) == Stages(xs) + [p]
    decreases |ys|
  {
    var log := xs + ys;
    var last := |log| - 1;
    assert log[last] == ys[|ys| - 1];
    if |ys| == 1 {
      assert log[..last] == xs;
      assert last >= 1 ==> log[last - 1] == xs[|xs| - 1];
    } else {
      var ys' := ys[..|ys| - 1];
      assert log[..last] == xs + ys';
      assert log[last - 1] == ys[|ys| - 2];
      StagesAppendBlock(xs, ys', p);
    }
  }

  /** `r` extends the log of `e`: it keeps that log, adds `prompts` as
      stages to what was logged since position `base`, and its request
      counter grows exactly as its log. */
  ghost predicate Extends(e: Env, r: Env, base: nat, prompts: seq<Prompt>) {
    && base <= |e.sent| <= |r.sent|
    && r.sent[..|e.sent|] == e.sent
    && Stages(r.sent[base..]) == Stages(e.sent[base..]) + prompts
    && r.requestCount - e.requestCount == |r.sent| - |e.sent|
  }

  /** One request chain, seen from the log kept since position `base`: the
      chain's prompt is added as one stage and is the last one logged. A
      pause of `ms` afterwards changes nothing in the log. */
  lemma StageStep(p: Prompt, e: Env, base: nat, ms: nat)
    requires |Finals(e.replies)| >= 1
    requires base <= |e.sent|
    requires |e.sent| == base || e.sent[|e.sent| - 1].prompt != p
    ensures var r := Delay(Ask(p, e).env, ms);
      && Extends(e, r, base, [p])
      && |r.sent| > |e.sent|
      && r.sent[|r.sent| - 1].prompt == p
  {
    var r := Ask(p, e).env;
    MakeRequestLogs(p, e);
    MakeRequestFirstAttempt(p, e);
    var xs := e.sent[base..];
    var ys := r.sent[|e.sent|..];
    assert r.sent[base..] == xs + ys;
    forall i | 0 <= i < |ys|
      ensures ys[i].prompt == p
    {
      assert ys[i] == r.sent[|e.sent| + i];
    }
    StagesAppendBlock(xs, ys, p);
  }

  /** No prompt in `prompts` directly follows an equal one. */
  predicate AdjacentDistinct(prompts: seq<Prompt>) {
    forall i :: 0 < i < |prompts| ==> prompts[i - 1] != prompts[i]
  }

  lemma AdjacentDistinctTail(prompts: seq<Prompt>)
    requires |prompts| >= 1 && AdjacentDistinct(prompts)
    ensures AdjacentDistinct(prompts[1..])
  {
    var rest := prompts[1..];
    forall i | 0 < i < |rest|
      ensures rest[i - 1] != rest[i]
    {
      assert rest[i - 1] == prompts[i] && rest[i] == prompts[i + 1];
    }
  }

  /** Request chains keep the log they found and add their prompts as
      stages, in order; the request counter grows exactly as the log. */
  lemma {:induction false} RunChainsLog(prompts: seq<Prompt>, e: Env, base: nat)
    requires |Finals(e.replies)| >= |prompts|
    requires AdjacentDistinct(prompts)
    requires base <= |e.sent|
    requires |prompts| > 0 && |e.sent| > base ==> e.sent[|e.sent| - 1].prompt != prompts[0]
    ensures Extends(e, RunChains(prompts, e), base, prompts)
    decreases |prompts|, 1
  {
    if |prompts| == 0 {
      assert e.sent[..|e.sent|] == e.sent;
    } else if |prompts| == 1 {
      RunChainsLogOne(prompts, e, base);
    } else {
      RunChainsLogStep(prompts, e, base);
    }
  }

  /** The base case of `RunChainsLog`: a single chain. */
  lemma RunChainsLogOne(prompts: seq<Prompt>, e: Env, base: nat)
    requires |Finals(e.replies)| >= |prompts| == 1
    requires base <= |e.sent|
    requires |e.sent| > base ==> e.sent[|e.sent| - 1].prompt != prompts[0]
    ensures Extends(e, RunChains(prompts, e), base, prompts)
  {
    StageStep(prompts[0], e, base, 0);
    RunChainsCons(prompts, e);
    assert Delay(Ask(prompts[0], e).env, 0) == Ask(prompts[0], e).env;
  }

  /** The inductive step of `RunChainsLog`: the first chain, then the rest. */
  lemma {:induction false} RunChainsLogStep(prompts: seq<Prompt>, e: Env, base: nat)
    requires |Finals(e.replies)| >= |prompts| >= 2
    requires AdjacentDistinct(prompts)
    requires base <= |e.sent|
    requires |e.sent| > base ==> e.sent[|e.sent| - 1].prompt != prompts[0]
    ensures Extends(e, RunChains(prompts, e), base, prompts)
    decreases |prompts|, 0
  {
    var p, rest := prompts[0], prompts[1..];
    StageStep(p, e, base, DelayBetweenRequests);
    var d1 := Delay(Ask(p, e).env, DelayBetweenRequests);
    AdjacentDistinctTail(prompts);
    assert rest[0] == prompts[1] != p;
    assert |Finals(d1.replies)| >= |rest|;
    RunChainsLog(rest, d1, base);
    RunChainsCons(prompts, e);
    ExtendLog(e, d1, RunChains(rest, d1), base, p, rest);
    assert [p] + rest == prompts;
  }

  /** Two consecutive extensions of a log compose. */
  lemma ExtendLog(e: Env, e1: Env, r: Env, base: nat, p: Prompt, rest: seq<Prompt>)
    requires Extends(e, e1, base, [p]) && Extends(e1, r, base, rest)
    ensures Extends(e, r, base, [p] + rest)
  {
    assert r.sent[..|e.sent|] == r.sent[..|e1.sent|][..|e.sent|];
  }

  /** Request chains keep the gate's invariant. */
  lemma {:induction false} RunChainsKeepGateInvariant(prompts: seq<Prompt>, e: Env)
    requires |Finals(e.replies)| >= |prompts| >= 1
    requires GateInvariant(e)
    ensures GateInvariant(RunChains(prompts, e))
    decreases |prompts|
  {
    var e1 := Ask(prompts[0], e).env;
    MakeRequestKeepsGateInvariant(prompts[0], e);
    if |prompts| > 1 {
      RunChainsKeepGateInvariant(prompts[1..], Delay(e1, DelayBetweenRequests));
    }
  }

  /** The pauses between request chains alone take the configured spacing
      each. */
  lemma {:induction false} RunChainsClock(prompts: seq<Prompt>, e: Env)
    requires |Finals(e.replies)| >= |prompts| >= 1
    ensures RunChains(prompts, e).clock >= e.clock + (|prompts| - 1) * DelayBetweenRequests
    decreases |prompts|
  {
    var e1 := Ask(prompts[0], e).env;
    MakeRequestClock(prompts[0], e);
    if |prompts| > 1 {
      RunChainsClock(prompts[1..], Delay(e1, DelayBetweenRequests));
    }
  }

  /** Request chains keep the log they found. */
  lemma {:induction false} RunChainsKeepsLog(prompts: seq<Prompt>, e: Env)
    requires |Finals(e.replies)| >= |prompts|
    ensures RunChains(prompts, e).sent[..|e.sent|] == e.sent
    decreases |prompts|
  {
    if |prompts| > 0 {
      var e1 := Ask(prompts[0], e).env;
      MakeRequestLogs(prompts[0], e);
      if |prompts| > 1 {
        var d1 := Delay(e1, DelayBetweenRequests);
        RunChainsKeepsLog(prompts[1..], d1);
        var r := RunChains(prompts[1..], d1);
        assert r.sent[..|d1.sent|][..|e.sent|] == r.sent[..|e.sent|];
      }
    }
  }

  /** The first request of a run of chains leaves when the gate opens. */
  lemma RunChainsFirstAttempt(prompts: seq<Prompt>, e: Env)
    requires |Finals(e.replies)| >= |prompts| >= 1
    ensures var r := RunChains(prompts, e);
      |r.sent| > |e.sent| && r.sent[|e.sent|].at == Max(e.clock, e.lastRequestTime + DelayBetweenRequests)
  {
    var e1 := Ask(prompts[0], e).env;
    MakeRequestFirstAttempt(prompts[0], e);
    if |prompts| > 1 {
      var d1 := Delay(e1, DelayBetweenRequests);
      RunChainsKeepsLog(prompts[1..], d1);
      var r := RunChains(prompts[1..], d1);
      assert r.sent[|e.sent|] == r.sent[..|d1.sent|][|e.sent|];
    }
  }

  /** The pause after a chain: the chain ends when its final reply arrives,
      the latency of that reply after its last attempt left, and the next
      chain's first request leaves exactly 30 s later. */
  lemma RunChainsPause(prompts: seq<Prompt>, e: Env)
    requires |Finals(e.replies)| >= |prompts| >= 2
    ensures Settles(e.replies)
    ensures var e1 := Ask(prompts[0], e).env; var r := RunChains(prompts, e);
      && |e1.sent| > 0
      && e1.clock == e1.sent[|e1.sent| - 1].at + e.replies[FirstFinal(e.replies)].latency
      && |r.sent| > |e1.sent|
      && r.sent[|e1.sent|].at == e1.clock + DelayBetweenRequests
  {
    var e1 := Ask(prompts[0], e).env;
    AskEndsAtReply(prompts[0], e);
    var d1 := Delay(e1, DelayBetweenRequests);
    assert d1.clock >= d1.lastRequestTime + DelayBetweenRequests;
    RunChainsCons(prompts, e);
    RunChainsFirstAttempt(prompts[1..], d1);
  }

  /** The environment right after the k-th of the chains for `prompts` has
      ended, before the pause that follows it. */
  function AfterChains(prompts: seq<Prompt>, e: Env, k: nat): Env
    requires |Finals(e.replies)| >= |prompts| && 1 <= k <= |prompts|
    decreases k
  {
    var e1 := Ask(prompts[0], e).env;
    if k == 1 then e1 else AfterChains(prompts[1..], Delay(e1, DelayBetweenRequests), k - 1)
  }

  /** After each chain but the last, the next request leaves exactly 30 s
      after the chain ended. */
  lemma {:induction false} RunChainsPauses(prompts: seq<Prompt>, e: Env, k: nat)
    requires |Finals(e.replies)| >= |prompts| && 1 <= k < |prompts|
    ensures var a := AfterChains(prompts, e, k); var r := RunChains(prompts, e);
      && |a.sent| < |r.sent|
      && r.sent[|a.sent|].at == a.clock + DelayBetweenRequests
    decreases k, 1
  {
    if k == 1 {
      RunChainsPause(prompts, e);
    } else {
      RunChainsPausesStep(prompts, e, k);
    }
  }

  /** The inductive step of `RunChainsPauses`: past the first chain. */
  lemma {:induction false} RunChainsPausesStep(prompts: seq<Prompt>, e: Env, k: nat)
    requires |Finals(e.replies)| >= |prompts| && 2 <= k < |prompts|
    ensures var a := AfterChains(prompts, e, k); var r := RunChains(prompts, e);
      && |a.sent| < |r.sent|
      && r.sent[|a.sent|].at == a.clock + DelayBetweenRequests
    decreases k, 0
  {
    var d1 := Delay(Ask(prompts[0], e).env, DelayBetweenRequests);
    var rest := prompts[1..];
    RunChainsPauses(rest, d1, k - 1);
    RunChainsCons(prompts, e);
    assert AfterChains(prompts, e, k) == AfterChains(rest, d1, k - 1);
  }

  /** An analysis keeps the log it found and adds the five requests, retries
      folded, in the order summary, privacy, data sharing, user
      responsibilities, risks; the request counter counts every attempt. */
  lemma AnalysisRequestOrder(content: string, e: Env, parse: Parser)
    requires !AllWhitespace(content) ==> |Finals(e.replies)| >= 5
    ensures var r := AnalyzeDocument(content, e, parse);
      r.Ok? ==>
        && r.value.env.sent[..|e.sent|] == e.sent
        && Stages(r.value.env.sent[|e.sent|..]) == PipelinePrompts(content)
        && r.value.env.requestCount - e.requestCount == |r.value.env.sent| - |e.sent| >= 5
  {
    if !AllWhitespace(content) {
      assert e.sent[|e.sent|..] == [];
      RunChainsLog(PipelinePrompts(content), e, |e.sent|);
    }
  }

  /** Across a whole analysis every request, retries included, leaves at
      least 30 s after the one before it, and the clock moves on by at least
      two minutes. */
  lemma AnalysisKeepsGateInvariant(content: string, e: Env, parse: Parser)
    requires !AllWhitespace(content) ==> |Finals(e.replies)| >= 5
    requires GateInvariant(e)
    ensures var r := AnalyzeDocument(content, e, parse);
      r.Ok? ==> GateInvariant(r.value.env) && r.value.env.clock >= e.clock + 4 * DelayBetweenRequests
  {
    if !AllWhitespace(content) {
      RunChainsKeepGateInvariant(PipelinePrompts(content), e);
      RunChainsClock(PipelinePrompts(content), e);
    }
  }

  /** The four pauses of an analysis: after each of the first four analyses
      the next request leaves exactly 30 s after that analysis ended. */
  lemma AnalysisPauses(content: string, e: Env, parse: Parser)
    requires !AllWhitespace(content) ==> |Finals(e.replies)| >= 5
    ensures var r := AnalyzeDocument(content, e, parse);
      r.Ok? ==> forall k :: 1 <= k < 5 ==>
        var a := AfterChains(PipelinePrompts(content), e, k);
        |a.sent| < |r.value.env.sent| && r.value.env.sent[|a.sent|].at == a.clock + DelayBetweenRequests
  {
    if !AllWhitespace(content) {
      forall k | 1 <= k < 5
        ensures var a := AfterChains(PipelinePrompts(content), e, k);
          |a.sent| < |AnalyzeDocument(content, e, parse).value.env.sent|
          && AnalyzeDocument(content, e, parse).value.env.sent[|a.sent|].at == a.clock + DelayBetweenRequests
      {
        RunChainsPauses(PipelinePrompts(content), e, k);
      }
    }
  }

  /** The result a successful analysis returns, assembled from its parts:
      the summary, the three sections in the order privacy, data sharing,
      user responsibilities, and the risks. */
  function Assemble(p: Parts): AnalysisResult {
    AnalysisResult(p.summary, [p.privacy, p.sharing, p.responsibilities], p.risks)
  }

  /** Parts of the right shape assemble into a well-formed result. */
  lemma AssembledIsWellFormed(p: Parts)
    requires TruthyJson(p.summary) && WellFormedRisks(p.risks)
    requires TruthySection(p.privacy) && TruthySection(p.sharing) && TruthySection(p.responsibilities)
    ensures WellFormedResult(Assemble(p))
  {
    var r := Assemble(p);
    assert forall i :: 0 <= i < |r.sections| ==> r.sections[i] in {p.privacy, p.sharing, p.responsibilities};
  }

  /** `analyzeDocument(content)`: blank content (empty, or only whitespace
      and line terminators) is rejected before any request; otherwise the
      five analyses run, and the summary, the three sections in the order
      privacy, data sharing, user responsibilities, and the risks are each
      decided by the corresponding final answer. */
  function AnalyzeDocument(content: string, e: Env, parse: Parser): (r: Result<Step<AnalysisResult>>)
    requires !AllWhitespace(content) ==> |Finals(e.replies)| >= 5
    ensures r.Err? <==> AllWhitespace(content)
    ensures r.Err? ==> r.error == EmptyContent
    ensures r.Ok? ==> var F := Finals(e.replies);
      r.value.value == AnalysisResult(
        SummaryOf(F[0], parse),
        [PrivacyOf(F[1], parse), PassThroughOf(F[2], parse, SharingFallback),
         PassThroughOf(F[3], parse, ResponsibilitiesFallback)],
        RisksOf(F[4], parse))
    ensures r.Ok? ==> r.value.env == RunChains(PipelinePrompts(content), e)
  {
    TrimEmptyIffAllWhitespace(content);
    if |Trim(content)| == 0 then Err(EmptyContent)
    else
      var s := AnalyzeSequentially(content, e, parse);
      AnalyzeSequentiallyParts(content, e, parse);
      Ok(Step(Assemble(s.value), s.env))
  }

  /** Every result `analyzeDocument` returns is well-formed: a truthy
      summary, three truthy sections, and well-formed risks. */
  lemma AnalyzeDocumentWellFormed(content: string, e: Env, parse: Parser)
    requires !AllWhitespace(content) ==> |Finals(e.replies)| >= 5
    ensures var r := AnalyzeDocument(content, e, parse);
      r.Ok? ==> WellFormedResult(r.value.value) && |r.value.value.sections| == 3
  {
    if !AllWhitespace(content) {
      var F := Finals(e.replies);
      SectionsAreTruthy(F[1], parse);
      SectionsAreTruthy(F[2], parse);
      SectionsAreTruthy(F[3], parse);
      RisksOfWellFormed(F[4], parse);
      AnalyzeSequentiallyParts(content, e, parse);
      AssembledIsWellFormed(AnalyzeSequentially(content, e, parse).value);
    }
  }

  /** What an analysis returns depends only on the first five final answers:
      not on the gate's counters, the clock, the latencies, nor on how many
      throttled replies came in between. */
  lemma AnalysisDependsOnlyOnFinalAnswers(content: string, e1: Env, e2: Env, parse: Parser)
    requires |Finals(e1.replies)| >= 5 && |Finals(e2.replies)| >= 5
    requires Finals(e1.replies)[..5] == Finals(e2.replies)[..5]
    ensures AnalyzeDocument(content, e1, parse).Ok? == AnalyzeDocument(content, e2, parse).Ok?
    ensures AnalyzeDocument(content, e1, parse).Ok? ==>
      AnalyzeDocument(content, e1, parse).value.value == AnalyzeDocument(content, e2, parse).value.value
  {
    var F1 := Finals(e1.replies);
    var F2 := Finals(e2.replies);
    forall i | 0 <= i < 5
      ensures F1[i] == F2[i]
    {
      assert F1[i] == F1[..5][i];
    }
  }

  const FailurePrefix: string := "Analysis failed: "

  const ErrorSection: Section :=
    Section(Str("Error"), Str("Failed to analyze document. Please try again later."), map[])

  const ErrorRisk: Risk :=
    Risk("high", Str("Analysis incomplete due to technical issues."), ErrorTags, map[])

  /** The safety net of `analyzeDocument` for an error escaping the
      analyses, with that error's message (None when it has none, which
      JavaScript concatenates as "undefined"). It is a well-formed result
      with a single error section and a single error risk, and the summary
      carries the message after a fixed prefix. */
  function FailureResult(message: Option<string>): (r: AnalysisResult)
    ensures WellFormedResult(r)
    ensures r.sections == [ErrorSection] && r.risks == [ErrorRisk]
    ensures r.summary.Str? && |r.summary.s| >= |FailurePrefix| && r.summary.s[..|FailurePrefix|] == FailurePrefix
    ensures message.Some? ==> r.summary.s[|FailurePrefix|..] == message.value
  {
    var text := match message case Some(m) => m case None => "undefined";
    assert ToLower("high") == "high";
    AnalysisResult(Str(FailurePrefix + text), [ErrorSection], [ErrorRisk])
  }

  /** A successful analysis never looks like the safety net's result. */
  lemma SuccessIsNotFailure(content: string, e: Env, parse: Parser, message: Option<string>)
    requires !AllWhitespace(content) && |Finals(e.replies)| >= 5
    ensures AnalyzeDocument(content, e, parse).Ok?
    ensures AnalyzeDocument(content, e, parse).value.value != FailureResult(message)
  {
  }

  /** The fixed reply of `queryDocument` when its request fails. */
  const QueryFailureReply: string := "Error: Unable to process query due to rate limits. Please try again later."

  /** `queryDocument(content, question)`: one gated request chain; the text
      of its final answer, or the fixed failure reply when that is an error. */
  function QueryDocument(content: string, question: string, e: Env): (r: Step<string>)
    requires |Finals(e.replies)| >= 1
    ensures Settles(e.replies)
    ensures Finals(e.replies)[0].Text? ==> r.value == Finals(e.replies)[0].text
    ensures Finals(e.replies)[0].Failed? ==> r.value == QueryFailureReply
    ensures r.env == MakeRequest(Prompt(QueryTask(question), content), e).env
    ensures Finals(r.env.replies) == Finals(e.replies)[1..]
  {
    var s := Ask(Prompt(QueryTask(question), content), e);
    match s.value
    case Text(text) => Step(text, s.env)
    case Failed(_) => Step(QueryFailureReply, s.env)
  }

  /** A throttled query is sent again a minute after the throttle came back,
      and the answer to the second attempt is what the caller gets. */
  lemma QueryAfterThrottle(content: string, question: string, e: Env)
    requires |e.replies| >= 2
    requires IsThrottle(e.replies[0].answer) && e.replies[1].answer.Text?
    ensures |Finals(e.replies)| >= 1
    ensures var r := QueryDocument(content, question, e);
      && r.value == e.replies[1].answer.text
      && |r.env.sent| == |e.sent| + 2
      && r.env.sent[|e.sent| + 1].at == r.env.sent[|e.sent|].at + e.replies[0].latency + ThrottleBackoff
  {
    var p := Prompt(QueryTask(question), content);
    assert e.replies[1..][1..] == e.replies[2..];
    assert Finals(e.replies) == [e.replies[1].answer] + Finals(e.replies[2..]);
    MakeRequestUnfold(p, e);
  }
}
