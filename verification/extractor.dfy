/** Recovery of the JSON object from a free-form reply: what the greedy
    pattern /\{[\s\S]*\}/ matches, computed directly as the span from the
    first '{' to the last '}'. */
module ResponseExtractor {
  import opened Results

  /** `text[a..b+1]` is a candidate match: it opens with '{' and closes with '}'. */
  ghost predicate Span(text: string, a: int, b: int) {
    0 <= a < b < |text| && text[a] == '{' && text[b] == '}'
  }

  /** The match a backtracking regex engine reports: the leftmost start among
      all candidates and, being greedy, the longest end from there. */
  ghost predicate LeftmostLongest(text: string, a: int, b: int) {
    && Span(text, a, b)
    && forall a', b' :: Span(text, a', b') ==> a <= a' && b' <= b
  }

  /** The position of the first `c` in `s`. */
  function IndexOf(s: string, c: char): (r: Option<nat>)
    ensures r.None? <==> forall i :: 0 <= i < |s| ==> s[i] != c
    ensures r.Some? ==> r.value < |s| && s[r.value] == c
    ensures r.Some? ==> forall i :: 0 <= i < r.value ==> s[i] != c
  {
    if |s| == 0 then None
    else if s[0] == c then Some(0)
    else match IndexOf(s[1..], c)
      case None => None
      case Some(k) => Some(k + 1)
  }

  /** The position of the last `c` in `s`. */
  function LastIndexOf(s: string, c: char): (r: Option<nat>)
    ensures r.None? <==> forall i :: 0 <= i < |s| ==> s[i] != c
    ensures r.Some? ==> r.value < |s| && s[r.value] == c
    ensures r.Some? ==> forall i :: r.value < i < |s| ==> s[i] != c
  {
    if |s| == 0 then None
    else if s[|s| - 1] == c then Some(|s| - 1)
    else LastIndexOf(s[..|s| - 1], c)
  }

  /** `text.match(/\{[\s\S]*\}/)?.[0]`: the span from the first '{' to the
      last '}', when the first comes before the last. */
  function ExtractJsonSpan(text: string): Option<string> {
    match IndexOf(text, '{')
    case None => None
    case Some(a) =>
      match LastIndexOf(text, '}')
      case None => None
      case Some(b) => if a < b then Some(text[a..b + 1]) else None
  }

  /** The extraction agrees with the pattern: a match exists exactly when
      some '{' comes before some '}', and it is the leftmost-longest such
      span. */
  lemma ExtractJsonSpanMatchesPattern(text: string)
    ensures ExtractJsonSpan(text).Some? <==> exists a, b :: Span(text, a, b)
    ensures ExtractJsonSpan(text).Some? ==>
      exists a, b :: LeftmostLongest(text, a, b) && ExtractJsonSpan(text).value == text[a..b + 1]
  {
    var first, last := IndexOf(text, '{'), LastIndexOf(text, '}');
    if first.Some? && last.Some? && first.value < last.value {
      assert LeftmostLongest(text, first.value, last.value);
    }
  }

  /** An extracted span always opens with '{' and closes with '}'. */
  lemma SpanIsBraced(text: string)
    requires ExtractJsonSpan(text).Some?
    ensures var s := ExtractJsonSpan(text).value; |s| >= 2 && s[0] == '{' && s[|s| - 1] == '}'
  {
    ExtractJsonSpanMatchesPattern(text);
    var a, b :| LeftmostLongest(text, a, b) && ExtractJsonSpan(text).value == text[a..b + 1];
  }

  /** Prose around the object is dropped, provided the prose before it has
      no '{' and the prose after it has no '}'. */
  lemma ExtractIgnoresSurroundingProse(before: string, json: string, after: string)
    requires '{' !in before && '}' !in after
    requires |json| >= 2 && json[0] == '{' && json[|json| - 1] == '}'
    ensures ExtractJsonSpan(before + json + after) == Some(json)
  {
    var text := before + json + after;
    var a, b := |before|, |before| + |json| - 1;
    assert text[a] == json[0] && text[b] == json[|json| - 1];
    assert LeftmostLongest(text, a, b);
    assert text[a..b + 1] == json;
    ExtractJsonSpanMatchesPattern(text);
  }

  /** A reply that wraps its JSON object in prose yields exactly the object. */
  lemma ExtractFromChattyReply()
    ensures var json := "{\"title\":\"Privacy Policy\",\"content\":\"X\"}";
      ExtractJsonSpan("Sure, here it is: " + json + " \U{2014} hope that helps") == Some(json)
  {
    var json := "{\"title\":\"Privacy Policy\",\"content\":\"X\"}";
    assert '{' !in "Sure, here it is: ";
    assert '}' !in " \U{2014} hope that helps";
    ExtractIgnoresSurroundingProse("Sure, here it is: ", json, " \U{2014} hope that helps");
  }
}
