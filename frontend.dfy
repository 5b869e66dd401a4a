/** The pure helpers of the React page (frontend/src/App.jsx): the
    browser's own date string, the merge that fills in a missing date, and
    the guard that refuses an empty video idea. */
module Frontend {
  import opened Values
  import opened Dates
  import Groq

  /** JavaScript's `%`: the remainder of division truncated toward zero, so
      it differs from `a` by a multiple of `b`, is smaller than `b` in size and
      takes the sign of the dividend. */
  function JsRem(a: int, b: int): (r: int)
    requires b > 0
    ensures exists q :: a == b * q + r
    ensures a >= 0 ==> 0 <= r < b
    ensures a < 0 ==> -b < r <= 0
  {
    if a >= 0 then
      DivMod(a, b);
      a % b
    else
      DivMod(-a, b);
      assert a == b * (-((-a) / b)) + -((-a) % b);
      -((-a) % b)
  }

  lemma DivMod(n: nat, b: int)
    requires b > 0
    ensures n == b * (n / b) + n % b
  {
  }

  /** `getOrdinalSuffix`. On every day of a month it gives the backend's
      suffix. */
  function OrdinalSuffix(day: int): (r: string)
    ensures IsSuffix(r)
    ensures 1 <= day <= 31 ==> r == Groq.OrdinalSuffix(day)
  {
    if day > 3 && day < 21 then "th"
    else
      var last := JsRem(day, 10);
      if last == 1 then "st"
      else if last == 2 then "nd"
      else if last == 3 then "rd"
      else "th"
  }

  /** The browser's rule is the English one for every non-negative number
      except those of at least 100 ending in 11, 12 or 13, such as 111. */
  lemma {:induction false} DiffersFromEnglishExactly(n: nat)
    ensures OrdinalSuffix(n) != EnglishOrdinalSuffix(n) <==> n >= 100 && 11 <= n % 100 <= 13
  {
    assert JsRem(n, 10) == n % 10;
    assert n % 100 % 10 == n % 10 by {
      assert n == (n / 100) * 100 + n % 100;
      assert n == (n / 100) * 10 * 10 + n % 100;
    }
  }

  /** Hence the browser and the backend disagree exactly on the numbers of at
      least 100 ending in 11, 12 or 13. */
  lemma {:induction false} DiffersFromBackendExactly(n: nat)
    ensures OrdinalSuffix(n) != Groq.OrdinalSuffix(n) <==> n >= 100 && 11 <= n % 100 <= 13
  {
    DiffersFromEnglishExactly(n);
  }

  /** The two rules part at 111: "111st" in the browser, "111th" in the
      backend. */
  lemma DiffersFromBackendAt111()
    ensures OrdinalSuffix(111) == "st" && Groq.OrdinalSuffix(111) == "th"
  {
  }

  /** `getCurrentDate` for the date `new Date()` reports (its `getDate`,
      month and `getFullYear`). The text reads back as that date, and for
      any real calendar day it is exactly the backend's string. */
  function CurrentDate(day: nat, month: int, year: nat): (r: string)
    requires 1 <= month <= 12
    ensures ParseDate(r) == Some((day, month, year))
    ensures 1 <= day <= 31 ==> r == Groq.FormatDate(day, month, year)
  {
    DateStringRoundTrip(day, OrdinalSuffix(day), month, year);
    DateString(day, OrdinalSuffix(day), month, year)
  }

  /** JavaScript truthiness of a JSON value. */
  predicate Truthy(v: Json) {
    match v
    case JNull => false
    case JBool(b) => b
    case JNumber(n) => n != 0
    case JString(s) => s != ""
    case JArray(_) => true
    case JObject(_) => true
  }

  /** `{ ...textData, date: textData.date || getCurrentDate() }`: every field
      is kept, `date` is added if it was missing, a truthy server date is
      kept and otherwise today's is used. */
  function WithDefaultDate(textData: map<string, Json>, today: string): (merged: map<string, Json>)
    ensures merged.Keys == textData.Keys + {"date"}
    ensures forall k :: k in textData && k != "date" ==> merged[k] == textData[k]
    ensures "date" in textData && Truthy(textData["date"]) ==> merged["date"] == textData["date"]
    ensures !("date" in textData && Truthy(textData["date"])) ==> merged["date"] == JString(today)
  {
    var date := if "date" in textData && Truthy(textData["date"]) then textData["date"] else JString(today);
    textData["date" := date]
  }

  /** Defaulting twice is defaulting once, and a non-empty date makes the
      result truthy. */
  lemma WithDefaultDateIdempotent(textData: map<string, Json>, today: string)
    requires today != ""
    ensures Truthy(WithDefaultDate(textData, today)["date"])
    ensures WithDefaultDate(WithDefaultDate(textData, today), today) == WithDefaultDate(textData, today)
  {
  }

  /** The backend always stamps a non-empty date, so the browser's default
      never replaces it. */
  lemma BackendDateKept(apiKey: Option<string>, serverDate: string, reply: Groq.Reply,
                        parse: string -> Option<map<string, Json>>, today: string)
    requires serverDate != ""
    requires Groq.GenerateThumbnailText(apiKey, serverDate, reply, parse).Record?
    ensures var fields := Groq.GenerateThumbnailText(apiKey, serverDate, reply, parse).fields;
      WithDefaultDate(fields, today) == fields
  {
  }

  /** The characters `String.prototype.trim` removes: white space and line
      terminators. */
  predicate IsJsSpace(c: char) {
    || ('\t' <= c <= '\r')
    || c == ' ' || c == '\U{00A0}' || c == '\U{1680}'
    || ('\U{2000}' <= c <= '\U{200A}')
    || c == '\U{2028}' || c == '\U{2029}' || c == '\U{202F}' || c == '\U{205F}'
    || c == '\U{3000}' || c == '\U{FEFF}'
  }

  function TrimStart(s: string): (r: string)
    ensures r == [] || !IsJsSpace(r[0])
  {
    if s != [] && IsJsSpace(s[0]) then TrimStart(s[1..]) else s
  }

  function TrimEnd(s: string): string {
    if s != [] && IsJsSpace(s[|s| - 1]) then TrimEnd(s[..|s| - 1]) else s
  }

  /** `trim`. */
  function Trim(s: string): string {
    TrimEnd(TrimStart(s))
  }

  lemma {:induction false} TrimStartEmpty(s: string)
    ensures TrimStart(s) == [] <==> forall i :: 0 <= i < |s| ==> IsJsSpace(s[i])
  {
    if s != [] {
      TrimStartEmpty(s[1..]);
      if IsJsSpace(s[0]) {
        forall i | 0 < i < |s| ensures s[i] == s[1..][i - 1] { }
      }
    }
  }

  lemma {:induction false} TrimEndEmpty(s: string)
    requires s == [] || !IsJsSpace(s[0])
    ensures TrimEnd(s) == [] <==> s == []
  {
    if s != [] && IsJsSpace(s[|s| - 1]) {
      TrimEndEmpty(s[..|s| - 1]);
    }
  }

  /** A string trims to nothing exactly when every character is white
      space. */
  lemma TrimEmpty(s: string)
    ensures Trim(s) == [] <==> forall i :: 0 <= i < |s| ==> IsJsSpace(s[i])
  {
    TrimStartEmpty(s);
    TrimEndEmpty(TrimStart(s));
  }

  /** What `generateThumbnails` does first: show an error and stop, or post
      the idea as typed. */
  datatype Action = ShowError(message: string) | PostIdea(videoIdea: string)

  const EmptyIdeaMessage := "Please enter a video idea"

  /** No request is made for an idea that is empty or only white space, and
      any other idea is sent untrimmed. */
  function GenerateStart(videoIdea: string): (a: Action)
    ensures a == ShowError(EmptyIdeaMessage) <==> forall i :: 0 <= i < |videoIdea| ==> IsJsSpace(videoIdea[i])
    ensures a.PostIdea? <==> exists i :: 0 <= i < |videoIdea| && !IsJsSpace(videoIdea[i])
    ensures a.PostIdea? ==> a.videoIdea == videoIdea
  {
    TrimEmpty(videoIdea);
    if Trim(videoIdea) == "" then ShowError(EmptyIdeaMessage) else PostIdea(videoIdea)
  }
}
