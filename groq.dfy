/** `GroqAPI` (backend/groq.py): the date string the backend stamps on every
    thumbnail and the way `generate_thumbnail_text` turns the language
    model's reply into the thumbnail's text record. The HTTP request, the
    clock and `json.loads` are parameters: the reply arrives as a `Reply`,
    today's date as numbers, and JSON parsing as a function from text to an
    object or failure. */
module Groq {
  import opened Values
  import opened Dates

  /** `get_ordinal_suffix`: "th" when the day modulo 100 lies in 10..20,
      else by the last digit (Python's `%` by a positive number agrees with
      Dafny's). */
  function OrdinalSuffix(day: int): (r: string)
    ensures IsSuffix(r)
    ensures day >= 0 ==> r == EnglishOrdinalSuffix(day)
  {
    if 10 <= day % 100 <= 20 then "th"
    else if day % 10 == 1 then "st"
    else if day % 10 == 2 then "nd"
    else if day % 10 == 3 then "rd"
    else "th"
  }

  /** `get_current_date_formatted`, for the date `datetime.now()` returns.
      The day is written without leading zeros and followed by its English
      ordinal suffix, and the text can be read back, so distinct dates are
      written differently. */
  function FormatDate(day: nat, month: int, year: nat): (r: string)
    requires 1 <= month <= 12
    ensures var i := LeadingDigits(r);
      i + 2 <= |r| && r[..i] == DecimalString(day) && r[i..i + 2] == EnglishOrdinalSuffix(day)
    ensures ParseDate(r) == Some((day, month, year))
  {
    DateStringShape(day, OrdinalSuffix(day), month, year);
    DateStringRoundTrip(day, OrdinalSuffix(day), month, year);
    DateString(day, OrdinalSuffix(day), month, year)
  }

  /** Index of the last `c` in `s`, or `|s|` when there is none. */
  function LastIndexOf(s: string, c: char): (k: nat)
    ensures k <= |s| && (k < |s| ==> s[k] == c)
    ensures k < |s| ==> forall i :: k < i < |s| ==> s[i] != c
    ensures k == |s| ==> forall i :: 0 <= i < |s| ==> s[i] != c
  {
    if s == [] then 0
    else if s[|s| - 1] == c then |s| - 1
    else
      var k := LastIndexOf(s[..|s| - 1], c);
      if k == |s| - 1 then |s| else k
  }

  /** `s[a..b]` matches the pattern `\{.*\}` under `re.DOTALL`: it starts
      with `{`, ends with `}` and has anything in between. */
  predicate MatchesAt(s: string, a: int, b: int) {
    0 <= a && a + 2 <= b <= |s| && s[a] == '{' && s[b - 1] == '}'
  }

  /** The span `re.search(r'\{.*\}', content, re.DOTALL)` finds: from the
      first `{` to the last `}`, provided that `}` comes after it. */
  function JsonSpan(s: string): Option<(int, int)> {
    var a := IndexOf(s, '{');
    var z := LastIndexOf(s, '}');
    if a < |s| && z < |s| && a < z then Some((a, z + 1)) else None
  }

  /** Search semantics: there is a span iff the pattern matches somewhere,
      and the span found is the leftmost match, extended as far as the greedy
      `.*` can take it. */
  lemma JsonSpanIsLeftmostLongest(s: string)
    ensures JsonSpan(s).None? <==> forall a, b :: !MatchesAt(s, a, b)
    ensures JsonSpan(s).Some? ==>
      var (a, b) := JsonSpan(s).value;
      && MatchesAt(s, a, b)
      && (forall a', b' :: MatchesAt(s, a', b') ==> a <= a')
      && (forall b' :: MatchesAt(s, a, b') ==> b' <= b)
  {
    var a := IndexOf(s, '{');
    var z := LastIndexOf(s, '}');
    if JsonSpan(s).None? {
      forall a', b' ensures !MatchesAt(s, a', b') {
        assert MatchesAt(s, a', b') ==> a <= a' && b' <= (z as int) + 1;
      }
    } else {
      assert MatchesAt(s, a, z + 1);
    }
  }

  /** The text of the span, the string handed to `json.loads`. */
  function FindJsonSpan(content: string): (r: Option<string>)
    ensures r.Some? ==> |r.value| >= 2 && r.value[0] == '{' && r.value[|r.value| - 1] == '}'
  {
    match JsonSpan(content)
    case None => None
    case Some((a, b)) => Some(content[a..b])
  }

  /** What the chat-completions call came back with: `NoResponse` when the
      request itself raised; otherwise the HTTP status and, when the body has
      a string at `choices[0].message.content`, that string. */
  datatype Reply = NoResponse | Response(status: int, content: Option<string>)

  /** `generate_thumbnail_text` either raises or returns the text record. */
  datatype Outcome = ValueError(message: string) | Record(fields: map<string, Json>)

  const MissingKeyMessage := "GROQ_API_KEY not found in environment variables"

  /** The record used whenever the model's reply cannot be used. */
  function Fallback(currentDate: string): (m: map<string, Json>)
    ensures m.Keys == {"heading", "subheading", "label", "date"}
    ensures m["date"] == JString(currentDate)
  {
    map["heading" := JString("Amazing Video"),
        "subheading" := JString("You won't believe what happens next"),
        "label" := JString("NEW"),
        "date" := JString(currentDate)]
  }

  /** `raise_for_status` raises for client and server errors. */
  predicate IsHttpError(status: int) {
    400 <= status < 600
  }

  /** The object the reply carries, if the reply can be used at all. */
  function ParsedReply(reply: Reply, parse: string -> Option<map<string, Json>>): Option<map<string, Json>> {
    match reply
    case NoResponse => None
    case Response(status, content) =>
      if IsHttpError(status) || content.None? then None
      else
        match FindJsonSpan(content.value)
        case None => None
        case Some(span) => parse(span)
  }

  /** `generate_thumbnail_text`. A missing or empty API key raises before
      anything else happens; otherwise the parsed object with its `date`
      overwritten by today's date, or the fallback record.
      The error is raised exactly when the key is unset or empty, whatever
      the model would have said. Otherwise the record carries today's date,
      never the model's, and its keys are the fallback's or the model's own
      plus `date`. */
  function GenerateThumbnailText(apiKey: Option<string>, currentDate: string, reply: Reply,
                                 parse: string -> Option<map<string, Json>>): (out: Outcome)
    ensures out.ValueError? <==> apiKey.None? || apiKey.value == ""
    ensures out.ValueError? ==> out.message == MissingKeyMessage
    ensures out.Record? ==> "date" in out.fields && out.fields["date"] == JString(currentDate)
    ensures out.Record? && ParsedReply(reply, parse).None? ==>
      out.fields.Keys == {"heading", "subheading", "label", "date"}
    ensures out.Record? && ParsedReply(reply, parse).Some? ==>
      out.fields.Keys == ParsedReply(reply, parse).value.Keys + {"date"}
  {
    if apiKey.None? || apiKey.value == "" then ValueError(MissingKeyMessage)
    else
      match ParsedReply(reply, parse)
      case None => Record(Fallback(currentDate))
      case Some(parsed) => Record(parsed["date" := JString(currentDate)])
  }

  /** When the reply holds a JSON object, every other field the model wrote
      is kept as it was, and nothing else is added but `date`. */
  lemma ParsedFieldsKept(apiKey: Option<string>, currentDate: string, status: int, content: string,
                         parse: string -> Option<map<string, Json>>)
    requires apiKey.Some? && apiKey.value != "" && !IsHttpError(status)
    requires FindJsonSpan(content).Some? && parse(FindJsonSpan(content).value).Some?
    ensures var out := GenerateThumbnailText(apiKey, currentDate, Response(status, Some(content)), parse);
      var parsed := parse(FindJsonSpan(content).value).value;
      && out.Record?
      && out.fields.Keys == parsed.Keys + {"date"}
      && forall k :: k in parsed && k != "date" ==> out.fields[k] == parsed[k]
  {
  }

  /** A request that fails, an HTTP error, a body without content, content
      with no braces or unparsable braces: each gives the fallback record. */
  lemma FallbackCases(apiKey: Option<string>, currentDate: string, reply: Reply,
                      parse: string -> Option<map<string, Json>>)
    requires apiKey.Some? && apiKey.value != ""
    requires || reply.NoResponse?
             || IsHttpError(reply.status)
             || reply.content.None?
             || FindJsonSpan(reply.content.value).None?
             || parse(FindJsonSpan(reply.content.value).value).None?
    ensures GenerateThumbnailText(apiKey, currentDate, reply, parse) == Record(Fallback(currentDate))
  {
  }
}
