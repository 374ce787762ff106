# Terms-and-conditions analyzer: the analysis service, modelled in Dafny

This project models the analysis service of a terms-and-conditions analyzer
(`src/services/ai.ts`). The service sends a document to a generative-language
endpoint in five prompts and assembles the replies into an analysis. The five
prompts are a summary, three sections (privacy policy, data sharing, user
responsibilities) and a list of risks. The service also answers free-form
questions about a document. The model covers:

- the **rate gate** of `makeAIRequest`: it keeps requests at least 30 s
  apart, counts and stamps every attempt, and on a throttle (an error whose
  message includes "429") waits 60 s and starts over;
- the **JSON-span extraction** `text.match(/\{[\s\S]*\}/)`, computed as the
  span from the first `{` to the last `}` and proved equal to the
  leftmost-longest match of the pattern;
- the **per-analyzer validation** and its fixed fallbacks. The privacy
  analyzer requires two non-empty strings and rebuilds the section from them.
  The data-sharing and responsibilities analyzers only require truthy fields
  and hand back the parsed object as it is. The summary analyzer requires a
  truthy `summary`;
- the **risk filter and tagging**. Entries whose severity lower-cases to
  high, medium or low and whose description is truthy are kept in order and
  tagged `ai-identified`. The filter throws on entries where JavaScript would
  throw, and every failure yields the single fallback risk;
- **`analyzeDocument` / `analyzeSequentially`**: blank input is rejected
  before any request. Otherwise the five analyses run in a fixed order with a
  30 s pause after each of the first four. The outer safety net's result is
  modelled as a value of its own;
- **`queryDocument`**: one gated request; its reply text, or a fixed
  message when the request fails.

The environment is explicit. `RateGate.Env` holds:

- the gate's two module-level counters;
- a millisecond clock;
- the replies the endpoint will give, each with a latency;
- a log of the requests sent, which is an observation used by the theorems
  and not program state.

The clock advances only through the gate's wait, the caller's delays and the
latency of each reply. `JSON.parse` is a parameter (`JsonValues.Parser`). A
parsed value is a `JsonValues.Json`, and property reads and truthiness follow
JavaScript: reading a property of `null` throws a TypeError, `""`, `0` and
`null` are falsy, and arrays and objects are truthy.

Where the code and its comments or declared types differ, the model follows
the code:

- The 429 handling recurses with no bound. The comment beside it says "Retry
  once" (`src/services/ai.ts:62`).
- The summary, and the title and content of the data-sharing and
  responsibilities sections, are whatever truthy JSON value the reply holds.
  They need not be strings, although `AnalysisResult` and `Section` declare
  `summary: string`, `title: string` and `content: string`
  (`src/services/ai.ts:6-21`).
- A kept risk keeps its severity as written (`"HIGH"` stays `"HIGH"`), along
  with any further fields of the entry, although `Risk` declares
  `severity: 'high' | 'medium' | 'low'` (`src/services/ai.ts:11-15`).
- The safety net of `analyzeDocument` cannot be reached. Every analyzer
  catches everything its own request and parsing can throw, so no error
  reaches it.

## Model

| member | source | states |
|---|---|---|
| Strings.TrimStart | src/services/ai.ts:348 | the result is a suffix of the input; everything dropped is whitespace and the result does not start with whitespace |
| Strings.TrimEnd | src/services/ai.ts:348 | the result is a prefix of the input; everything dropped is whitespace and the result does not end with whitespace |
| Strings.TrimEmptyIffAllWhitespace | src/services/ai.ts:348 | `content.trim().length === 0` holds exactly when the content is empty or all ECMAScript whitespace and line terminators |
| Strings.IncludesIffOccurs | src/services/ai.ts:59 | `includes` holds exactly when the pattern occurs at some position of the string |
| Strings.ToLower | src/services/ai.ts:280 | lower-casing keeps the length of the severity string |
| ResponseExtractor.ExtractJsonSpanMatchesPattern | src/services/ai.ts:130-133 | a span is found exactly when some `{` precedes some `}`, and the span found is the leftmost-longest match of `/\{[\s\S]*\}/` |
| ResponseExtractor.SpanIsBraced | src/services/ai.ts:130 | every extracted span opens with `{` and closes with `}` |
| ResponseExtractor.ExtractIgnoresSurroundingProse | src/services/ai.ts:129-133 | prose before the object without `{` and after it without `}` is dropped, leaving exactly the object |
| ResponseExtractor.ExtractFromChattyReply | src/services/ai.ts:129-133 | a concrete chatty reply yields exactly the embedded object |
| RateGate.Initial | src/services/ai.ts:30-31 | the state at module load, with both counters zero, satisfies the gate's spacing invariant |
| RateGate.WaitTime | src/services/ai.ts:39-46 | the wait is never negative, and the request leaves at the later of now and 30 s after the previous request |
| RateGate.FirstFinal | src/services/ai.ts:59-62 | the reply that ends a retry chain is the first non-throttle one: every earlier reply is a throttle |
| RateGate.FinalsSplit | src/services/ai.ts:59-64 | a retry chain ends exactly when a non-throttle answer is left; it gets the first such answer and leaves the later ones, in order, for later requests |
| RateGate.Ask | src/services/ai.ts:37-66 | a request whose replies hold a final answer settles, returns the first final answer and leaves exactly the later final answers |
| RateGate.AfterAttempt | src/services/ai.ts:39-57 | one attempt adds one to the counter, logs the prompt at the gate's opening time, which the gate remembers, and ends when its reply arrives |
| RateGate.MakeRequest | src/services/ai.ts:37-66 | a request chain returns the first non-throttle answer, a reply text or a non-throttle error, and uses one attempt and one count per reply consumed up to it |
| RateGate.MakeRequestLogs | src/services/ai.ts:49-50 | every attempt of a chain, retries included, is logged with the request's prompt after the earlier log, which is kept |
| RateGate.MakeRequestFirstAttempt | src/services/ai.ts:39-50 | the first attempt leaves at the later of now and 30 s after the previous request |
| RateGate.MakeRequestFirstRetry | src/services/ai.ts:59-62 | a throttled first attempt is sent again 60 s after its reply arrived |
| RateGate.MakeRequestRetries | src/services/ai.ts:59-62 | each retry leaves 60 s after the throttled reply before it arrived |
| RateGate.MakeRequestRemembersLast | src/services/ai.ts:50 | after a chain the gate's `lastRequestTime` is the time its last attempt left |
| RateGate.MakeRequestEndsAtReply | src/services/ai.ts:50-57 | after a chain the clock stands where the final reply arrived |
| RateGate.AskEndsAtReply | src/services/ai.ts:50-57 | a settled request ends with the gate remembering its last attempt, and the clock stands that attempt's reply latency later |
| RateGate.MakeRequestClock | src/services/ai.ts:37-66 | the clock never runs backwards across a request chain |
| RateGate.AfterAttemptKeepsGateInvariant | src/services/ai.ts:39-50 | one attempt keeps sent requests at least 30 s apart and the gate's memory of the last one |
| RateGate.MakeRequestKeepsGateInvariant | src/services/ai.ts:37-66 | every attempt of a chain, retries included, leaves at least 30 s after the one before it |
| SectionAnalyzers.SectionFromObject | src/services/ai.ts:181 | the section built from a parsed object is that object, with nothing shadowed |
| SectionAnalyzers.SectionFromObjectInverse | src/services/ai.ts:181 | viewing a section as an object and back loses nothing |
| SectionAnalyzers.ParseReplyMatchesPattern | src/services/ai.ts:130-135 | 'No JSON object found' exactly when the reply holds no `{` before a `}`; a value exactly when the leftmost-longest match of `/\{[\s\S]*\}/` parses, and then the value parsed from that match; any other failure is a SyntaxError |
| SectionAnalyzers.ValidatePrivacy | src/services/ai.ts:136-144 | accepted exactly when title and content are non-empty strings; the section is rebuilt from those two alone |
| SectionAnalyzers.ValidatePassThrough | src/services/ai.ts:178-181 | accepted exactly when title and content are truthy; the section is the parsed object itself |
| SectionAnalyzers.ValidateSummary | src/services/ai.ts:332-335 | accepted exactly when `summary` is truthy; the result is that value as parsed |
| SectionAnalyzers.PrivacyOf | src/services/ai.ts:124-155 | the rebuilt section when the reply parsed to an object with two non-empty strings, otherwise the privacy fallback (a failed request and a reply without a span included) |
| SectionAnalyzers.PassThroughOf | src/services/ai.ts:169-192 | the parsed object itself when its title and content are truthy, otherwise the analyzer's fallback |
| SectionAnalyzers.SummaryOf | src/services/ai.ts:323-343 | the parsed truthy `summary`, otherwise the summary fallback; always truthy |
| SectionAnalyzers.AnalyzePrivacyPolicy | src/services/ai.ts:102-156 | one gated request chain; the section is decided by its final answer and no failure escapes |
| SectionAnalyzers.AnalyzeDataSharing | src/services/ai.ts:158-193 | one gated request chain; the section is decided by its final answer and no failure escapes |
| SectionAnalyzers.AnalyzeUserResponsibilities | src/services/ai.ts:195-230 | one gated request chain; the section is decided by its final answer and no failure escapes |
| SectionAnalyzers.GenerateSummary | src/services/ai.ts:313-344 | one gated request chain; the summary is decided by its final answer and no failure escapes |
| SectionAnalyzers.SectionsAreTruthy | src/services/ai.ts:136-154 | every section an analyzer returns, model-derived or fallback, has a truthy title and content |
| RiskAnalyzer.KeepRisk | src/services/ai.ts:277-286 | the test throws exactly on `null` or on a truthy non-string severity with a truthy description, and keeps exactly the valid entries |
| RiskAnalyzer.FilterRisks | src/services/ai.ts:277-286 | the filter throws exactly when the test throws on some entry, and otherwise keeps only valid entries |
| RiskAnalyzer.FilterRisksKeepsValidInOrder | src/services/ai.ts:277-286 | the entries kept are a subsequence of the input and as many as its valid positions, so exactly the valid entries in order |
| RiskAnalyzer.TagRisk | src/services/ai.ts:293-296 | a tagged risk is the entry with `tags` set to `['ai-identified']` and its severity as written |
| RiskAnalyzer.ValidateRisks | src/services/ai.ts:271-296 | accepted exactly when `risks` is an array that filters without throwing to a non-empty list; the result is those entries tagged, each with a valid severity |
| RiskAnalyzer.RisksOf | src/services/ai.ts:261-310 | never empty; either the single fallback risk or the tagged valid entries, each with a valid severity |
| RiskAnalyzer.AnalyzeRisks | src/services/ai.ts:232-311 | one gated request chain; the risks are decided by its final answer, never empty, and no failure escapes |
| Orchestrator.RisksOfWellFormed | src/services/ai.ts:293-309 | every risk returned has a valid severity and either the identified tags or the error tags |
| Orchestrator.RunChains | src/services/ai.ts:69-94 | request chains in sequence use one final answer each and send at least one request each |
| Orchestrator.AnalyzeSequentially | src/services/ai.ts:69-99 | the sequential analysis leaves the environment of the five request chains for summary, privacy, sharing, responsibilities and risks in that order, with a 30 s pause between consecutive chains |
| Orchestrator.AnalyzeSequentiallyParts | src/services/ai.ts:72-98 | the i-th part is decided by the i-th final answer, in the order summary, privacy, sharing, responsibilities, risks |
| Orchestrator.RunChainsLog | src/services/ai.ts:69-94 | chains in sequence keep the earlier log, add their prompts as stages in order, and count every attempt |
| Orchestrator.RunChainsKeepGateInvariant | src/services/ai.ts:69-94 | chains in sequence keep every request at least 30 s after the one before it |
| Orchestrator.RunChainsClock | src/services/ai.ts:75-90 | after n chains the clock is at least (n-1) x 30 s later |
| Orchestrator.RunChainsKeepsLog | src/services/ai.ts:69-94 | chains in sequence keep the log they found as a prefix |
| Orchestrator.RunChainsFirstAttempt | src/services/ai.ts:39-50 | the first request of a run of chains leaves at the later of now and 30 s after the previous request |
| Orchestrator.RunChainsPause | src/services/ai.ts:74-80 | the first chain ends when its final reply arrives, and the next chain's first request leaves exactly 30 s after that |
| Orchestrator.RunChainsPauses | src/services/ai.ts:74-90 | after each chain but the last, the next request leaves exactly 30 s after that chain ended |
| Orchestrator.AnalysisRequestOrder | src/services/ai.ts:69-94 | an analysis keeps the earlier log and sends summary, privacy, sharing, responsibilities and risks requests in that order, retries folded; the counter counts every attempt, at least five |
| Orchestrator.AnalysisKeepsGateInvariant | src/services/ai.ts:69-94 | across a whole analysis requests stay at least 30 s apart, and the clock moves on by at least two minutes |
| Orchestrator.AnalysisPauses | src/services/ai.ts:74-90 | after each of the first four analyses the next request leaves exactly 30 s after that analysis's final reply arrived |
| Orchestrator.AssembledIsWellFormed | src/services/ai.ts:360-364 | truthy parts and well-formed risks assemble into a well-formed result |
| Orchestrator.AnalyzeDocument | src/services/ai.ts:347-364 | rejects exactly blank content, with 'Empty content provided'; otherwise the summary, the three sections in order and the risks are decided by the five final answers, and the environment left is that of the five request chains run in order with their pauses |
| Orchestrator.AnalyzeDocumentWellFormed | src/services/ai.ts:347-364 | every result returned has a truthy summary, exactly three truthy sections and well-formed risks |
| Orchestrator.AnalysisDependsOnlyOnFinalAnswers | src/services/ai.ts:354-364 | the result depends only on the first five final answers, not on throttles, latencies, the clock or the counters |
| Orchestrator.FailureResult | src/services/ai.ts:365-375 | the safety net's result is well-formed, with one error section and one error risk, and its summary is the error's message after a fixed prefix |
| Orchestrator.SuccessIsNotFailure | src/services/ai.ts:354-375 | non-blank content always succeeds, and never with the safety net's result |
| Orchestrator.QueryDocument | src/services/ai.ts:379-395 | one gated request chain; the reply text of its final answer, or the fixed failure reply when that is an error |
| Orchestrator.QueryAfterThrottle | src/services/ai.ts:379-395 | a throttled query is sent again 60 s after the throttle came back, and the caller gets the answer to the second attempt |

## Left out

- RateGate.MakeRequest: the 429 recursion has no bound in the code, so a chain returns only when some reply is not a throttle. Every gated operation therefore requires enough non-throttle answers ahead: one per request, five for an analysis. An endpoint that throttles forever makes the code wait forever, which is not modelled.
- Strings.ToLower: only ASCII letters are lower-cased and the contract states only the length. For deciding membership in {high, medium, low} this agrees with full Unicode `toLowerCase`: no non-ASCII character lower-cases to a plain ASCII letter of those words.
- Orchestrator.FailureResult: it models the safety net's value, but the model has no path that reaches it, because no analyzer lets an error escape.
- The endpoint client (`@google/generative-ai`), the API key and the model name are not modelled. An endpoint call is a scripted reply with a latency.
- `JSON.parse` is a parameter and is not modelled. The key order of objects and the spread `{...risk}` are modelled as maps, so property order is not kept.
- `requestsPerMinute` and `requestsPerDay` are configured but never enforced by the code. The first is unused and the second appears only in a log line, so both are left out.
- Console logging, real time (`Date.now()`, `setTimeout`) and asynchronous scheduling are not modelled. Time is an explicit clock.
- The prompt texts are not modelled. A prompt is the task it asks for and the document.
- `content` that is not a string (`!content` on `undefined` or `null`) is not modelled. The TypeScript signature rules it out.
- An error whose `message` is not a string is not modelled. Answers carry `Option<string>` messages.
- The user interface, styles and the other files of the repository are not part of this model.
