/** The summary and the three section analyzers. Each issues one gated
    request, extracts and parses the JSON object in the reply, validates it,
    and on any failure along the way returns its fixed fallback instead. */
module SectionAnalyzers {
  import opened Results
  import opened JsonValues
  import opened ResponseExtractor
  import opened RateGate

  /** A section of the analysis. The privacy analyzer rebuilds it from two
      strings; the other two hand back the parsed object itself, so its title
      and content may be any truthy JSON value and further fields ride along
      in `others`. */
  datatype Section = Section(title: Json, content: Json, others: map<string, Json>)

  const PrivacyFallback: Section := Section(
    Str("Privacy Policy"),
    Str("Unable to analyze privacy policy due to an error. Please try again or review the document manually."),
    map[])

  const SharingFallback: Section := Section(
    Str("Data Sharing"),
    Str("Unable to analyze data sharing due to an error. Please try again or review the document manually."),
    map[])

  const ResponsibilitiesFallback: Section := Section(
    Str("User Responsibilities"),
    Str("Unable to analyze user responsibilities due to an error. Please try again or review the document manually."),
    map[])

  const SummaryFallback: Json :=
    Str("Unable to generate summary due to an error. Please try again or review the document manually.")

  /** A section whose `others` do not shadow its title or content. */
  predicate WellFormed(s: Section) {
    "title" !in s.others && "content" !in s.others
  }

  /** The section as the JavaScript object the caller receives. */
  function SectionObject(s: Section): map<string, Json> {
    s.others["title" := s.title]["content" := s.content]
  }

  /** The section that is the object `o` itself. */
  function SectionFromObject(o: map<string, Json>): (s: Section)
    requires "title" in o && "content" in o
    ensures WellFormed(s) && SectionObject(s) == o
  {
    var s := Section(o["title"], o["content"], o - {"title", "content"});
    assert SectionObject(s).Keys == o.Keys;
    s
  }

  /** Viewing a well-formed section as an object and back loses nothing. */
  lemma SectionFromObjectInverse(s: Section)
    requires WellFormed(s)
    ensures SectionFromObject(SectionObject(s)) == s
  {
    assert SectionObject(s) - {"title", "content"} == s.others;
  }

  /** Extraction and parsing, common to every analyzer: the JSON span of the
      reply text, parsed. */
  function ParseReply(text: string, parse: Parser): (r: Result<Json>) {
    match ExtractJsonSpan(text)
    case None => Err(NoJsonObject)
    case Some(span) =>
      match parse(span)
      case None => Err(SyntaxError)
      case Some(parsed) => Ok(parsed)
  }

  /** Parsing a reply, against the pattern it matches: 'No JSON object found'
      exactly when no '{' precedes a '}'; a value exactly when the
      leftmost-longest match parses, and then that parse; a SyntaxError
      otherwise. */
  lemma ParseReplyMatchesPattern(text: string, parse: Parser)
    ensures var r := ParseReply(text, parse);
      && (r == Err(NoJsonObject) <==> forall a, b :: !Span(text, a, b))
      && (r.Ok? <==> exists a, b :: LeftmostLongest(text, a, b) && parse(text[a..b + 1]).Some?)
      && (r.Ok? ==> forall a, b :: LeftmostLongest(text, a, b) ==> r.value == parse(text[a..b + 1]).value)
      && (r.Err? ==> r.error == NoJsonObject || r.error == SyntaxError)
  {
    ExtractJsonSpanMatchesPattern(text);
    if ExtractJsonSpan(text).Some? {
      var a, b :| LeftmostLongest(text, a, b) && ExtractJsonSpan(text).value == text[a..b + 1];
      forall a', b' | LeftmostLongest(text, a', b')
        ensures a' == a && b' == b
      {
        assert Span(text, a, b) && Span(text, a', b');
      }
    }
  }

  /** The parsed value a reply carries, when the request succeeded, a span
      was found and it parsed. */
  function ParsedReply(a: Answer, parse: Parser): Option<Json> {
    if a.Text? && ParseReply(a.text, parse).Ok? then Some(ParseReply(a.text, parse).value) else None
  }

  /** The privacy check: title and content must both be truthy and both be
      strings; the section is rebuilt from just those two. */
  function ValidatePrivacy(parsed: Json): (r: Result<Section>)
    ensures r.Ok? <==> NonEmptyStringField(parsed, "title") && NonEmptyStringField(parsed, "content")
    ensures r.Ok? ==> r.value == Section(parsed.fields["title"], parsed.fields["content"], map[])
  {
    var title :- Member(parsed, "title");
    if !Truthy(title) then Err(InvalidStructure)
    else
      var content := Get(parsed, "content");
      if !Truthy(content) || !IsString(title) || !IsString(content) then Err(InvalidStructure)
      else Ok(Section(title.v, content.v, map[]))
  }

  /** The data-sharing and responsibilities check: title and content must
      be truthy, nothing more; the parsed object is returned as it is. */
  function ValidatePassThrough(parsed: Json): (r: Result<Section>)
    ensures r.Ok? <==> TruthyField(parsed, "title") && TruthyField(parsed, "content")
    ensures r.Ok? ==> parsed.Obj? && WellFormed(r.value) && SectionObject(r.value) == parsed.fields
  {
    var title :- Member(parsed, "title");
    var content := Get(parsed, "content");
    if !Truthy(title) || !Truthy(content) then Err(InvalidStructure)
    else Ok(SectionFromObject(parsed.fields))
  }

  /** The summary check: the `summary` field must be truthy, and is returned
      as it is (it need not be a string). */
  function ValidateSummary(parsed: Json): (r: Result<Json>)
    ensures r.Ok? <==> TruthyField(parsed, "summary")
    ensures r.Ok? ==> r.value == parsed.fields["summary"]
  {
    var summary :- Member(parsed, "summary");
    if !Truthy(summary) then Err(InvalidStructure) else Ok(summary.v)
  }

  /** The privacy section a final answer yields: the rebuilt title and
      content when the reply held an object with two non-empty strings there,
      otherwise the privacy fallback. */
  function PrivacyOf(a: Answer, parse: Parser): (r: Section)
    ensures a.Failed? || ExtractJsonSpan(a.text).None? ==> r == PrivacyFallback
    ensures var parsed := ParsedReply(a, parse);
      r == if parsed.Some? && NonEmptyStringField(parsed.value, "title") && NonEmptyStringField(parsed.value, "content")
           then Section(parsed.value.fields["title"], parsed.value.fields["content"], map[])
           else PrivacyFallback
  {
    match a
    case Failed(_) => PrivacyFallback
    case Text(text) =>
      (var parsed :- ParseReply(text, parse); ValidatePrivacy(parsed)).GetOr(PrivacyFallback)
  }

  /** A pass-through section a final answer yields: the parsed object itself
      when its title and content are truthy, otherwise `fallback`. */
  function PassThroughOf(a: Answer, parse: Parser, fallback: Section): (r: Section)
    ensures a.Failed? || ExtractJsonSpan(a.text).None? ==> r == fallback
    ensures var parsed := ParsedReply(a, parse);
      if parsed.Some? && TruthyField(parsed.value, "title") && TruthyField(parsed.value, "content")
      then WellFormed(r) && SectionObject(r) == parsed.value.fields
      else r == fallback
  {
    match a
    case Failed(_) => fallback
    case Text(text) =>
      (var parsed :- ParseReply(text, parse); ValidatePassThrough(parsed)).GetOr(fallback)
  }

  /** The summary a final answer yields: the truthy `summary` field of the
      parsed reply, otherwise the summary fallback. */
  function SummaryOf(a: Answer, parse: Parser): (r: Json)
    ensures a.Failed? || ExtractJsonSpan(a.text).None? ==> r == SummaryFallback
    ensures var parsed := ParsedReply(a, parse);
      r == if parsed.Some? && TruthyField(parsed.value, "summary") then parsed.value.fields["summary"] else SummaryFallback
    ensures TruthyJson(r)
  {
    match a
    case Failed(_) => SummaryFallback
    case Text(text) =>
      (var parsed :- ParseReply(text, parse); ValidateSummary(parsed)).GetOr(SummaryFallback)
  }

  /** `analyzePrivacyPolicy(content)`: one gated request chain; its final
      answer decides the section, and no failure escapes. */
  function AnalyzePrivacyPolicy(content: string, e: Env, parse: Parser): (r: Step<Section>)
    requires |Finals(e.replies)| >= 1
    ensures Settles(e.replies)
    ensures r.value == PrivacyOf(Finals(e.replies)[0], parse)
    ensures r.env == Ask(Prompt(PrivacyTask, content), e).env
    ensures Finals(r.env.replies) == Finals(e.replies)[1..]
  {
    var s := Ask(Prompt(PrivacyTask, content), e);
    Step(PrivacyOf(s.value, parse), s.env)
  }

  /** `analyzeDataSharing(content)`. */
  function AnalyzeDataSharing(content: string, e: Env, parse: Parser): (r: Step<Section>)
    requires |Finals(e.replies)| >= 1
    ensures Settles(e.replies)
    ensures r.value == PassThroughOf(Finals(e.replies)[0], parse, SharingFallback)
    ensures r.env == Ask(Prompt(SharingTask, content), e).env
    ensures Finals(r.env.replies) == Finals(e.replies)[1..]
  {
    var s := Ask(Prompt(SharingTask, content), e);
    Step(PassThroughOf(s.value, parse, SharingFallback), s.env)
  }

  /** `analyzeUserResponsibilities(content)`. */
  function AnalyzeUserResponsibilities(content: string, e: Env, parse: Parser): (r: Step<Section>)
    requires |Finals(e.replies)| >= 1
    ensures Settles(e.replies)
    ensures r.value == PassThroughOf(Finals(e.replies)[0], parse, ResponsibilitiesFallback)
    ensures r.env == Ask(Prompt(ResponsibilitiesTask, content), e).env
    ensures Finals(r.env.replies) == Finals(e.replies)[1..]
  {
    var s := Ask(Prompt(ResponsibilitiesTask, content), e);
    Step(PassThroughOf(s.value, parse, ResponsibilitiesFallback), s.env)
  }

  /** `generateSummary(content)`. */
  function GenerateSummary(content: string, e: Env, parse: Parser): (r: Step<Json>)
    requires |Finals(e.replies)| >= 1
    ensures Settles(e.replies)
    ensures r.value == SummaryOf(Finals(e.replies)[0], parse)
    ensures r.env == Ask(Prompt(SummaryTask, content), e).env
    ensures Finals(r.env.replies) == Finals(e.replies)[1..]
  {
    var s := Ask(Prompt(SummaryTask, content), e);
    Step(SummaryOf(s.value, parse), s.env)
  }

  /** Every section an analyzer hands back has a truthy title and content,
      whether it came from the model or from a fallback. */
  lemma SectionsAreTruthy(a: Answer, parse: Parser)
    ensures var s := PrivacyOf(a, parse); TruthyJson(s.title) && TruthyJson(s.content)
    ensures var s := PassThroughOf(a, parse, SharingFallback); TruthyJson(s.title) && TruthyJson(s.content)
    ensures var s := PassThroughOf(a, parse, ResponsibilitiesFallback); TruthyJson(s.title) && TruthyJson(s.content)
  {
  }
}
