/** The rate gate in front of every endpoint call: a minimum spacing of
    30 seconds between requests, a counter of requests made, and a retry
    after a doubled delay whenever the endpoint signals throttling ("429").

    The endpoint is an oracle: the replies it will give, in order, each with
    the time it takes. Time is an explicit integer clock in milliseconds that
    advances only through the gate's waits, the delays of the caller and the
    latency of each reply. */
module RateGate {
  import opened Results
  import opened Strings

  /** The configured spacing between requests, in milliseconds. */
  const DelayBetweenRequests: int := 30000

  /** The wait after a throttled request before it is issued again. */
  const ThrottleBackoff: int := DelayBetweenRequests * 2

  /** What a request is for. The prompt wording is not modelled, only which
      analysis asked and for which document. */
  datatype Task =
    | SummaryTask
    | PrivacyTask
    | SharingTask
    | ResponsibilitiesTask
    | RisksTask
    | QueryTask(question: string)

  datatype Prompt = Prompt(task: Task, document: string)

  /** What one endpoint call gives: the reply text, or an error with its
      `message` (None when the thrown value has no string message). */
  datatype Answer = Text(text: string) | Failed(message: Option<string>)

  /** One scripted endpoint call: how long it takes, and how it ends. */
  datatype Reply = Reply(latency: nat, answer: Answer)

  /** A request as it left the gate, stamped with the time it was sent. */
  datatype Sent = Sent(prompt: Prompt, at: int)

  /** Everything the analysis code reads and changes: the two module-level
      counters of the gate, the clock, the replies still to come, and the
      log of requests sent so far (an observation, not program state). */
  datatype Env = Env(
    requestCount: int,
    lastRequestTime: int,
    clock: int,
    replies: seq<Reply>,
    sent: seq<Sent>)

  /** A value computed together with the environment it leaves behind. */
  datatype Step<T> = Step(value: T, env: Env)

  /** The state at module load: both counters zero, nothing sent yet. */
  function Initial(clock: int, replies: seq<Reply>): (e: Env)
    ensures GateInvariant(e)
  {
    Env(0, 0, clock, replies, [])
  }

  function Max(a: int, b: int): int {
    if a < b then b else a
  }

  /** `await delay(ms)`. */
  function Delay(e: Env, ms: nat): (r: Env)
    ensures r.clock == e.clock + ms
  {
    e.(clock := e.clock + ms)
  }

  /** How long the gate waits before a request made at `now`; the request
      then leaves at the later of `now` and 30 s after the previous one. */
  function WaitTime(now: int, lastRequestTime: int): (r: int)
    ensures r >= 0
    ensures now + r == Max(now, lastRequestTime + DelayBetweenRequests)
  {
    var timeSinceLastRequest := now - lastRequestTime;
    if timeSinceLastRequest < DelayBetweenRequests then DelayBetweenRequests - timeSinceLastRequest else 0
  }

  /** An error whose message mentions 429, the endpoint's throttle signal. */
  predicate IsThrottle(a: Answer) {
    a.Failed? && a.message.Some? && Includes(a.message.value, "429")
  }

  /** Some reply in `replies` is not a throttle, so a retry chain started
      on them comes to an end. */
  predicate Settles(replies: seq<Reply>)
    decreases |replies|
  {
    |replies| > 0 && (!IsThrottle(replies[0].answer) || Settles(replies[1..]))
  }

  /** The position of the reply that ends a retry chain: the first that is
      not a throttle. */
  function FirstFinal(replies: seq<Reply>): (r: nat)
    requires Settles(replies)
    ensures r < |replies| && !IsThrottle(replies[r].answer)
    ensures forall i :: 0 <= i < r ==> IsThrottle(replies[i].answer)
    decreases |replies|
  {
    if IsThrottle(replies[0].answer) then FirstFinal(replies[1..]) + 1 else 0
  }

  /** The answers that end retry chains (every reply but the throttles), in
      order: the i-th of them answers the i-th request. */
  function Finals(replies: seq<Reply>): (r: seq<Answer>)
    ensures |r| <= |replies|
  {
    if |replies| == 0 then []
    else if IsThrottle(replies[0].answer) then Finals(replies[1..])
    else [replies[0].answer] + Finals(replies[1..])
  }

  /** A chain settles exactly when a final answer is left; it is answered by
      the first of them, and leaves the others for later requests. */
  lemma {:induction false} FinalsSplit(replies: seq<Reply>)
    ensures Settles(replies) <==> |Finals(replies)| >= 1
    ensures Settles(replies) ==>
      && replies[FirstFinal(replies)].answer == Finals(replies)[0]
      && Finals(replies[FirstFinal(replies) + 1..]) == Finals(replies)[1..]
    decreases |replies|
  {
    if |replies| > 0 && IsThrottle(replies[0].answer) {
      FinalsSplit(replies[1..]);
      if Settles(replies) {
        var k := FirstFinal(replies[1..]);
        assert replies[1..][k + 1..] == replies[k + 2..];
      }
    }
  }

  /** A request whose reply chain holds a final answer: it settles, returns
      the first final answer and leaves the later ones queued. */
  function Ask(p: Prompt, e: Env): (r: Step<Answer>)
    requires |Finals(e.replies)| >= 1
    ensures Settles(e.replies)
    ensures r == MakeRequest(p, e)
    ensures r.value == Finals(e.replies)[0]
    ensures Finals(r.env.replies) == Finals(e.replies)[1..]
  {
    FinalsSplit(e.replies);
    MakeRequest(p, e)
  }

  /** The gate's invariant: sent requests are at least 30 s apart, and the
      gate remembers when the latest one left. */
  ghost predicate GateInvariant(e: Env) {
    && (forall i :: 0 < i < |e.sent| ==> e.sent[i - 1].at + DelayBetweenRequests <= e.sent[i].at)
    && (|e.sent| > 0 ==> e.lastRequestTime == e.sent[|e.sent| - 1].at)
  }

  /** The environment after the first attempt of a request: the gate opened,
      the request counted, stamped and answered by the next reply. */
  function AfterAttempt(p: Prompt, e: Env): (e': Env)
    requires |e.replies| >= 1
    ensures e'.requestCount == e.requestCount + 1
    ensures e'.sent == e.sent + [Sent(p, Max(e.clock, e.lastRequestTime + DelayBetweenRequests))]
    ensures e'.lastRequestTime == e'.sent[|e.sent|].at
    ensures e'.clock == e'.lastRequestTime + e.replies[0].latency
    ensures e'.replies == e.replies[1..]
  {
    var start := e.clock + WaitTime(e.clock, e.lastRequestTime);
    e.(
      requestCount := e.requestCount + 1,
      lastRequestTime := start,
      clock := start + e.replies[0].latency,
      replies := e.replies[1..],
      sent := e.sent + [Sent(p, start)])
  }

  /** `makeAIRequest(prompt)`: wait for the gate, count the request, stamp
      it, and ask the endpoint; on a throttle wait 60 s and start over, on any
      other error give the error back. The chain ends at the first reply that
      is not a throttle, which must exist (otherwise the source never returns). */
  function MakeRequest(p: Prompt, e: Env): (r: Step<Answer>)
    requires Settles(e.replies)
    // the chain is answered by the first non-throttle reply and consumes
    // exactly the replies up to it, one attempt and one count for each
    ensures r.value == e.replies[FirstFinal(e.replies)].answer
    ensures r.env.replies == e.replies[FirstFinal(e.replies) + 1..]
    ensures r.env.requestCount == e.requestCount + FirstFinal(e.replies) + 1
    ensures |r.env.sent| == |e.sent| + FirstFinal(e.replies) + 1
    decreases |e.replies|
  {
    var e1 := AfterAttempt(p, e);
    if IsThrottle(e.replies[0].answer) then
      var r := MakeRequest(p, Delay(e1, ThrottleBackoff));
      assert e.replies[1..][FirstFinal(e.replies[1..]) + 1..] == e.replies[FirstFinal(e.replies) + 1..];
      r
    else
      Step(e.replies[0].answer, e1)
  }

  /** One unfolding of the retry chain. */
  lemma MakeRequestUnfold(p: Prompt, e: Env)
    requires Settles(e.replies)
    ensures IsThrottle(e.replies[0].answer) ==>
      Settles(AfterAttempt(p, e).replies) &&
      MakeRequest(p, e) == MakeRequest(p, Delay(AfterAttempt(p, e), ThrottleBackoff))
    ensures !IsThrottle(e.replies[0].answer) ==>
      MakeRequest(p, e) == Step(e.replies[0].answer, AfterAttempt(p, e))
  {
  }

  /** Every attempt is logged with the request's prompt, after what was
      logged before, which is left unchanged. */
  lemma {:induction false} MakeRequestLogs(p: Prompt, e: Env)
    requires Settles(e.replies)
    ensures var r := MakeRequest(p, e);
      && r.env.sent[..|e.sent|] == e.sent
      && (forall i :: |e.sent| <= i < |r.env.sent| ==> r.env.sent[i].prompt == p)
    decreases |e.replies|
  {
    MakeRequestUnfold(p, e);
    if IsThrottle(e.replies[0].answer) {
      var e2 := Delay(AfterAttempt(p, e), ThrottleBackoff);
      MakeRequestLogs(p, e2);
      var r := MakeRequest(p, e2);
      assert r.env.sent[..|e2.sent|][..|e.sent|] == r.env.sent[..|e.sent|];
    }
  }

  /** The first attempt of a request chain leaves when the gate opens: at
      the later of now and 30 s after the previous request. */
  lemma MakeRequestFirstAttempt(p: Prompt, e: Env)
    requires Settles(e.replies)
    ensures |MakeRequest(p, e).env.sent| > |e.sent|
    ensures MakeRequest(p, e).env.sent[|e.sent|].at == Max(e.clock, e.lastRequestTime + DelayBetweenRequests)
  {
    MakeRequestUnfold(p, e);
    var e1 := AfterAttempt(p, e);
    if IsThrottle(e.replies[0].answer) {
      var e2 := Delay(e1, ThrottleBackoff);
      MakeRequestLogs(p, e2);
      assert MakeRequest(p, e).env.sent[..|e2.sent|] == e2.sent;
    }
  }

  /** A throttled first attempt is retried 60 s after its reply arrived. */
  lemma MakeRequestFirstRetry(p: Prompt, e: Env)
    requires Settles(e.replies) && IsThrottle(e.replies[0].answer)
    ensures var sent := MakeRequest(p, e).env.sent;
      && |sent| >= |e.sent| + 2
      && sent[|e.sent| + 1].at == sent[|e.sent|].at + e.replies[0].latency + ThrottleBackoff
  {
    var n := |e.sent|;
    MakeRequestUnfold(p, e);
    var e2 := Delay(AfterAttempt(p, e), ThrottleBackoff);
    MakeRequestFirstAttempt(p, e2);
    MakeRequestLogs(p, e2);
    var sent := MakeRequest(p, e2).env.sent;
    assert sent[n] == sent[..n + 1][n] == e2.sent[n];
  }

  /** Each retry leaves 60 s after the throttled reply before it arrived. */
  lemma {:induction false} MakeRequestRetries(p: Prompt, e: Env)
    requires Settles(e.replies)
    ensures var sent := MakeRequest(p, e).env.sent;
      forall i :: |e.sent| < i < |sent| ==>
        sent[i].at == sent[i - 1].at + e.replies[i - 1 - |e.sent|].latency + ThrottleBackoff
    decreases |e.replies|
  {
    var n := |e.sent|;
    MakeRequestUnfold(p, e);
    if IsThrottle(e.replies[0].answer) {
      var e2 := Delay(AfterAttempt(p, e), ThrottleBackoff);
      MakeRequestRetries(p, e2);
      MakeRequestFirstRetry(p, e);
      var sent := MakeRequest(p, e2).env.sent;
      assert |e2.sent| == n + 1 && e2.replies == e.replies[1..];
      forall i | n + 1 < i < |sent|
        ensures sent[i].at == sent[i - 1].at + e.replies[i - 1 - n].latency + ThrottleBackoff
      {
        assert sent[i].at == sent[i - 1].at + e2.replies[i - 1 - (n + 1)].latency + ThrottleBackoff;
        assert e2.replies[i - 1 - (n + 1)] == e.replies[i - 1 - n];
      }
    }
  }

  /** After a request chain the gate remembers when its last attempt left. */
  lemma {:induction false} MakeRequestRemembersLast(p: Prompt, e: Env)
    requires Settles(e.replies)
    ensures var r := MakeRequest(p, e);
      |r.env.sent| > 0 && r.env.lastRequestTime == r.env.sent[|r.env.sent| - 1].at
    decreases |e.replies|
  {
    MakeRequestUnfold(p, e);
    if IsThrottle(e.replies[0].answer) {
      MakeRequestRemembersLast(p, Delay(AfterAttempt(p, e), ThrottleBackoff));
    }
  }

  /** After a request chain the clock stands where its last reply arrived. */
  lemma {:induction false} MakeRequestEndsAtReply(p: Prompt, e: Env)
    requires Settles(e.replies)
    ensures var r := MakeRequest(p, e);
      r.env.clock == r.env.lastRequestTime + e.replies[FirstFinal(e.replies)].latency
    decreases |e.replies|
  {
    MakeRequestUnfold(p, e);
    var e1 := AfterAttempt(p, e);
    if IsThrottle(e.replies[0].answer) {
      var e2 := Delay(e1, ThrottleBackoff);
      assert e2.replies == e.replies[1..];
      MakeRequestEndsAtReply(p, e2);
      var k := FirstFinal(e2.replies);
      assert FirstFinal(e.replies) == k + 1;
      assert e2.replies[k] == e.replies[k + 1];
    }
  }

  /** A request ends when its final reply arrives: that reply's latency
      after its last attempt left, which the gate remembers. */
  lemma AskEndsAtReply(p: Prompt, e: Env)
    requires |Finals(e.replies)| >= 1
    ensures Settles(e.replies)
    ensures var r := Ask(p, e).env;
      && |r.sent| > 0
      && r.lastRequestTime == r.sent[|r.sent| - 1].at
      && r.clock == r.lastRequestTime + e.replies[FirstFinal(e.replies)].latency
  {
    FinalsSplit(e.replies);
    MakeRequestEndsAtReply(p, e);
    MakeRequestRemembersLast(p, e);
  }

  /** The clock never runs backwards across a request chain. */
  lemma {:induction false} MakeRequestClock(p: Prompt, e: Env)
    requires Settles(e.replies)
    ensures MakeRequest(p, e).env.clock >= e.clock
    decreases |e.replies|
  {
    MakeRequestUnfold(p, e);
    var e1 := AfterAttempt(p, e);
    assert e1.clock >= e.clock;
    if IsThrottle(e.replies[0].answer) {
      var e2 := Delay(e1, ThrottleBackoff);
      assert e2.replies == e.replies[1..];
      MakeRequestClock(p, e2);
    }
  }

  /** One attempt keeps the gate's invariant: it leaves at least 30 s after
      the previous request, and the gate remembers it. */
  lemma AfterAttemptKeepsGateInvariant(p: Prompt, e: Env)
    requires |e.replies| >= 1
    requires GateInvariant(e)
    ensures GateInvariant(AfterAttempt(p, e))
  {
    var e1 := AfterAttempt(p, e);
    var n := |e.sent|;
    forall i | 0 < i < |e1.sent|
      ensures e1.sent[i - 1].at + DelayBetweenRequests <= e1.sent[i].at
    {
      if i < n {
        assert e1.sent[i] == e.sent[i] && e1.sent[i - 1] == e.sent[i - 1];
      } else {
        assert e1.sent[i - 1] == e.sent[n - 1];
      }
    }
  }

  /** Every request the gate lets through, retries included, leaves at least
      30 s after the one before it. */
  lemma {:induction false} MakeRequestKeepsGateInvariant(p: Prompt, e: Env)
    requires Settles(e.replies)
    requires GateInvariant(e)
    ensures GateInvariant(MakeRequest(p, e).env)
    decreases |e.replies|
  {
    MakeRequestUnfold(p, e);
    AfterAttemptKeepsGateInvariant(p, e);
    if IsThrottle(e.replies[0].answer) {
      MakeRequestKeepsGateInvariant(p, Delay(AfterAttempt(p, e), ThrottleBackoff));
    }
  }
}
