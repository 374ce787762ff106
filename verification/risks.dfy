/** The risk analyzer: one gated request for a `risks` array, of which the
    entries with a truthy description and a high, medium or low severity
    (in any letter case) are kept, in order, each tagged "ai-identified".
    Any failure, an empty result included, yields the single fallback risk. */
module RiskAnalyzer {
  import opened Results
  import opened Strings
  import opened JsonValues
  import opened ResponseExtractor
  import opened RateGate
  import opened SectionAnalyzers

  /** A risk of the analysis. A model-derived risk keeps its severity as
      written ("HIGH" stays "HIGH") and its description as parsed; `others`
      holds any further fields of the entry, which ride along. */
  datatype Risk = Risk(severity: string, description: Json, tags: seq<string>, others: map<string, Json>)

  const Severities: set<string> := {"high", "medium", "low"}

  const AITags: seq<string> := ["ai-identified"]

  const ErrorTags: seq<string> := ["error", "analysis-failed"]

  const RiskFallback: Risk := Risk(
    "high",
    Str("Unable to analyze risks due to an error. Please try again or review the document manually."),
    ErrorTags,
    map[])

  /** The tags as the JSON array the caller receives. */
  function TagsJson(tags: seq<string>): Json {
    Arr(seq(|tags|, i requires 0 <= i < |tags| => Str(tags[i])))
  }

  /** The risk as the JavaScript object the caller receives. */
  function RiskObject(r: Risk): map<string, Json> {
    r.others["severity" := Str(r.severity)]["description" := r.description]["tags" := TagsJson(r.tags)]
  }

  /** An entry the filter keeps: an object whose severity is a string that
      lower-cases to high, medium or low, and whose description is truthy. */
  predicate IsValidEntry(item: Json) {
    && item.Obj?
    && "severity" in item.fields
    && item.fields["severity"].Str?
    && ToLower(item.fields["severity"].s) in Severities
    && TruthyField(item, "description")
  }

  /** The filter's test on one entry, `risk.severity && risk.description &&
      [...].includes(risk.severity.toLowerCase())`. It throws when the entry
      is null, and when both fields are truthy but the severity is not a
      string (it has no toLowerCase); otherwise it keeps the valid entries. */
  function KeepRisk(item: Json): (r: Result<bool>)
    ensures r.Err? <==>
      item.Null? || (TruthyField(item, "severity") && TruthyField(item, "description") && !item.fields["severity"].Str?)
    ensures r == Ok(true) <==> IsValidEntry(item)
  {
    var severity :- Member(item, "severity");
    if !Truthy(severity) then Ok(false)
    else
      var description := Get(item, "description");
      if !Truthy(description) then Ok(false)
      else if !IsString(severity) then Err(TypeError)
      else Ok(ToLower(severity.v.s) in Severities)
  }

  /** `a` is `b` with some entries left out, the rest in their order. */
  ghost predicate IsSubsequence<T>(a: seq<T>, b: seq<T>)
    decreases |b|
  {
    if |a| == 0 then true
    else if |b| == 0 then false
    else (a[|a| - 1] == b[|b| - 1] && IsSubsequence(a[..|a| - 1], b[..|b| - 1])) || IsSubsequence(a, b[..|b| - 1])
  }

  /** The positions of the entries the filter keeps. */
  ghost function KeptPositions(items: seq<Json>): set<int> {
    set i | 0 <= i < |items| && IsValidEntry(items[i])
  }

  lemma KeptPositionsSnoc(items: seq<Json>, x: Json)
    ensures KeptPositions(items + [x]) == KeptPositions(items) + (if IsValidEntry(x) then {|items|} else {})
  {
    var all := items + [x];
    assert forall i :: 0 <= i < |items| ==> all[i] == items[i];
  }

  /** `parsed.risks.filter(...)`, evaluated left to right: it throws when
      the test throws on any entry, and otherwise keeps only valid entries. */
  function FilterRisks(items: seq<Json>): (r: Result<seq<Json>>)
    ensures r.Err? <==> exists i :: 0 <= i < |items| && KeepRisk(items[i]).Err?
    ensures r.Ok? ==> forall k :: 0 <= k < |r.value| ==> IsValidEntry(r.value[k])
    decreases |items|
  {
    if |items| == 0 then Ok([])
    else
      var init, last := items[..|items| - 1], items[|items| - 1];
      assert forall i :: 0 <= i < |init| ==> items[i] == init[i];
      match FilterRisks(init)
      case Err(e) => Err(e)
      case Ok(kept) =>
        match KeepRisk(last)
        case Err(e) => Err(e)
        case Ok(keep) => Ok(if keep then kept + [last] else kept)
  }

  /** The filter keeps exactly the valid entries, in their order: the result
      is a subsequence of the entries, all of it valid, and as long as the
      number of valid positions. */
  lemma {:induction false} FilterRisksKeepsValidInOrder(items: seq<Json>)
    requires FilterRisks(items).Ok?
    ensures IsSubsequence(FilterRisks(items).value, items)
    ensures |FilterRisks(items).value| == |KeptPositions(items)|
    decreases |items|
  {
    if |items| > 0 {
      var init, last := items[..|items| - 1], items[|items| - 1];
      assert items == init + [last];
      FilterRisksKeepsValidInOrder(init);
      KeptPositionsSnoc(init, last);
      var kept := FilterRisks(init).value;
      assert |init| !in KeptPositions(init);
      if IsValidEntry(last) {
        var r := kept + [last];
        assert r[..|r| - 1] == kept;
      }
    }
  }

  /** `{...risk, tags: ['ai-identified']}` for a kept entry. */
  function TagRisk(item: Json): (r: Risk)
    requires IsValidEntry(item)
    ensures RiskObject(r) == item.fields["tags" := TagsJson(AITags)]
    ensures r.severity == item.fields["severity"].s && r.tags == AITags
  {
    var o := item.fields;
    var r := Risk(o["severity"].s, o["description"], AITags, o - {"severity", "description", "tags"});
    assert RiskObject(r).Keys == o["tags" := TagsJson(AITags)].Keys;
    r
  }

  /** The fallback and every tagged risk name a valid severity. */
  predicate HasValidSeverity(r: Risk) {
    ToLower(r.severity) in Severities
  }

  /** The risks check on a parsed reply: `risks` must be an array; the
      entries are filtered and the survivors, if any, tagged. */
  function ValidateRisks(parsed: Json): (r: Result<seq<Risk>>)
    ensures r.Ok? <==>
      && parsed.Obj? && "risks" in parsed.fields && parsed.fields["risks"].Arr?
      && FilterRisks(parsed.fields["risks"].items).Ok?
      && |FilterRisks(parsed.fields["risks"].items).value| > 0
    ensures r.Ok? ==>
      var kept := FilterRisks(parsed.fields["risks"].items).value;
      && |r.value| == |kept|
      && forall k :: 0 <= k < |kept| ==> RiskObject(r.value[k]) == kept[k].fields["tags" := TagsJson(AITags)]
    ensures r.Ok? ==> forall k :: 0 <= k < |r.value| ==> r.value[k].tags == AITags && HasValidSeverity(r.value[k])
  {
    var risks :- Member(parsed, "risks");
    if !(risks.Value? && risks.v.Arr?) then Err(InvalidStructure)
    else
      var kept :- FilterRisks(risks.v.items);
      if |kept| == 0 then Err(NoValidRisks)
      else Ok(seq(|kept|, k requires 0 <= k < |kept| => TagRisk(kept[k])))
  }

  /** The risks a final answer yields: never empty; either the single
      fallback risk, or the tagged valid entries of the parsed reply. */
  function RisksOf(a: Answer, parse: Parser): (r: seq<Risk>)
    ensures |r| >= 1
    ensures forall k :: 0 <= k < |r| ==> HasValidSeverity(r[k])
    ensures r == [RiskFallback] || forall k :: 0 <= k < |r| ==> r[k].tags == AITags
    ensures a.Failed? || ExtractJsonSpan(a.text).None? ==> r == [RiskFallback]
    ensures var parsed := ParsedReply(a, parse);
      r == if parsed.Some? && ValidateRisks(parsed.value).Ok? then ValidateRisks(parsed.value).value else [RiskFallback]
  {
    assert ToLower("high") == "high";
    match a
    case Failed(_) => [RiskFallback]
    case Text(text) =>
      (var parsed :- ParseReply(text, parse); ValidateRisks(parsed)).GetOr([RiskFallback])
  }

  /** `analyzeRisks(content)`: one gated request chain; its final answer
      decides the risks, and no failure escapes. */
  function AnalyzeRisks(content: string, e: Env, parse: Parser): (r: Step<seq<Risk>>)
    requires |Finals(e.replies)| >= 1
    ensures Settles(e.replies)
    ensures |r.value| >= 1
    ensures r.value == RisksOf(Finals(e.replies)[0], parse)
    ensures r.env == Ask(Prompt(RisksTask, content), e).env
    ensures Finals(r.env.replies) == Finals(e.replies)[1..]
  {
    var s := Ask(Prompt(RisksTask, content), e);
    Step(RisksOf(s.value, parse), s.env)
  }
}
