/**
 The weather side of the system (src/weather.py): cleaning a location name,
 fetching current conditions with the single not-found retry, and the
 deterministic summary used whenever the language model cannot be used.

 The HTTP request is a parameter `http` mapping the `q` query to the reply the
 weather service gives; the API key is passed in.
 */
module Weather {
  import opened Results
  import opened Text

  /** Temporal filler words dropped from a location */
  const Stopwords: set<string> := {"now", "today", "tonight", "tomorrow", "please"}

  /** A token is dropped when its lower-cased form is a stop-word */
  predicate IsStopword(w: string) {
    Lower(w) in Stopwords
  }

  /** The character class `[?!.,]` */
  predicate IsTrailingPunct(c: char) {
    c == '?' || c == '!' || c == '.' || c == ','
  }

  predicate EndsInNewline(s: string) {
    |s| > 0 && s[|s| - 1] == '\n'
  }

  /** `re.sub(r"[?!.,]+$", "", s)`: the longest trailing run of punctuation goes. Python's `$`
      also matches just before a final newline, so then the run before that newline goes and
      the newline stays. */
  function DropTrailingPunct(s: string): (r: string)
    ensures !EndsInNewline(s) ==>
      && IsPrefix(r, s)
      && (r == [] || !IsTrailingPunct(r[|r| - 1]))
      && (forall i :: |r| <= i < |s| ==> IsTrailingPunct(s[i]))
    ensures EndsInNewline(s) ==>
      && EndsInNewline(r)
      && var kept, body := r[..|r| - 1], s[..|s| - 1];
      && IsPrefix(kept, body)
      && (kept == [] || !IsTrailingPunct(kept[|kept| - 1]))
      && (forall i :: |kept| <= i < |body| ==> IsTrailingPunct(body[i]))
  {
    if EndsInNewline(s) then
      var kept := TrimEnd(s[..|s| - 1], IsTrailingPunct);
      assert (kept + "\n")[..|kept|] == kept;
      kept + "\n"
    else TrimEnd(s, IsTrailingPunct)
  }

  /** The text that is tokenised: punctuation run removed, then whitespace stripped */
  function Cleaned(city: string): string {
    Strip(DropTrailingPunct(city))
  }

  /** The tokens that survive the stop-word filter, in their original order */
  function KeepNonStop(ws: seq<string>): (r: seq<string>)
    ensures |r| <= |ws|
    ensures forall k :: 0 <= k < |r| ==> !IsStopword(r[k]) && r[k] in ws
    ensures forall w :: w in ws && !IsStopword(w) ==> w in r
    ensures (forall k :: 0 <= k < |ws| ==> IsWord(ws[k])) ==> forall k :: 0 <= k < |r| ==> IsWord(r[k])
  {
    if ws == [] then []
    else (if IsStopword(ws[0]) then [] else [ws[0]]) + KeepNonStop(ws[1..])
  }

  /** `_sanitize_city_name`: the surviving tokens joined by single spaces */
  function SanitizeCity(city: string): (r: string)
    ensures Words(r) == KeepNonStop(Words(Cleaned(city)))
    ensures forall k :: 0 <= k < |Words(r)| ==> !IsStopword(Words(r)[k])
    ensures r == [] || (!IsSpace(r[0]) && !IsSpace(r[|r| - 1]))
    ensures r == Join(" ", Words(r))
  {
    var ws := KeepNonStop(Words(Cleaned(city)));
    WordsOfJoin(ws);
    JoinOfWordsHasNoEdgeSpace(ws);
    Join(" ", ws)
  }

  /** The filter decides token by token */
  lemma KeepNonStopCons(w: string, rest: seq<string>)
    ensures KeepNonStop([w] + rest) == (if IsStopword(w) then [] else [w]) + KeepNonStop(rest)
  {
    assert ([w] + rest)[1..] == rest;
  }

  /** A single token survives exactly when it is not a stop-word */
  lemma KeepNonStopSingle(w: string)
    ensures KeepNonStop([w]) == (if IsStopword(w) then [] else [w])
  {
    KeepNonStopCons(w, []);
  }

  /** Filtering distributes over concatenation: with `KeepNonStopSingle` this pins the result
      down to the non-stop-words of the input, in order and with their repetitions */
  lemma {:induction false} KeepNonStopAppend(a: seq<string>, b: seq<string>)
    ensures KeepNonStop(a + b) == KeepNonStop(a) + KeepNonStop(b)
    decreases |a|
  {
    if a == [] {
      assert a + b == b;
    } else {
      var h, t := a[0], a[1..];
      var head := if IsStopword(h) then [] else [h];
      assert a == [h] + t;
      assert a + b == [h] + (t + b);
      KeepNonStopCons(h, t + b);
      KeepNonStopCons(h, t);
      KeepNonStopAppend(t, b);
      AppendAssociative(head, KeepNonStop(t), KeepNonStop(b));
    }
  }

  /** The stop-word test on the tokens of the examples below, one word at a time */
  lemma NowAndTodayAreStopwords()
    ensures IsStopword("now") && IsStopword("today")
  {
    LowerOfLowercase("now");
    LowerOfLowercase("today");
  }

  lemma ParisIsNotStopword()
    ensures !IsStopword("Paris") && !IsStopword("Paris.")
  {
    assert Lower("Paris")[0] == 'p';
    assert Lower("Paris.")[1] == 'a';
  }

  lemma NewYorkAreNotStopwords()
    ensures !IsStopword("New") && !IsStopword("York")
  {
    assert Lower("New")[1] == 'e';
    assert |Lower("York")| == 4;
  }

  lemma CleanedParisNow()
    ensures Cleaned("Paris now?") == "Paris now"
  {
    var s := "Paris now?";
    assert s[..9] == "Paris now";
    assert TrimEnd(s[..9], IsTrailingPunct) == "Paris now";
    assert DropTrailingPunct(s) == "Paris now";
    TrimUnchanged("Paris now", IsSpace);
  }

  lemma WordsParisNow()
    ensures Words("Paris now") == ["Paris", "now"]
  {
    WordsOfTwo("Paris", "now");
    assert "Paris" + " " + "now" == "Paris now";
  }

  /** A token that is no stop-word followed by `"now"` keeps just the token */
  lemma KeepWordThenNow(w: string)
    requires !IsStopword(w)
    ensures KeepNonStop([w, "now"]) == [w]
  {
    NowAndTodayAreStopwords();
    KeepNonStopCons("now", []);
    KeepNonStopCons(w, ["now"]);
  }

  /** `"Paris now?"` is cleaned to `"Paris"` */
  lemma SanitizeParisNow()
    ensures SanitizeCity("Paris now?") == "Paris"
  {
    CleanedParisNow();
    WordsParisNow();
    ParisIsNotStopword();
    KeepWordThenNow("Paris");
  }

  lemma WordsNewYorkToday()
    ensures Words("New York today") == ["New", "York", "today"]
  {
    assert "New" + " " + "York" + " " + "today" == "New York today";
    WordsOfThree("New", "York", "today");
  }

  lemma KeepYorkToday()
    ensures KeepNonStop(["York", "today"]) == ["York"]
  {
    NowAndTodayAreStopwords();
    NewYorkAreNotStopwords();
    KeepNonStopCons("today", []);
    KeepNonStopCons("York", ["today"]);
  }

  lemma KeepNewYorkToday()
    ensures KeepNonStop(["New", "York", "today"]) == ["New", "York"]
  {
    NewYorkAreNotStopwords();
    KeepYorkToday();
    KeepNonStopCons("New", ["York", "today"]);
  }

  lemma JoinNewYork()
    ensures Join(" ", ["New", "York"]) == "New York"
  {
    assert ["New", "York"][1..] == ["York"];
  }

  /** `"New York today"` is cleaned to `"New York"` */
  lemma SanitizeNewYorkToday()
    ensures SanitizeCity("New York today") == "New York"
  {
    assert DropTrailingPunct("New York today") == "New York today";
    TrimUnchanged("New York today", IsSpace);
    WordsNewYorkToday();
    KeepNewYorkToday();
    JoinNewYork();
  }

  lemma WordsParisDotNow()
    ensures Words("Paris. now") == ["Paris.", "now"]
  {
    WordsOfTwo("Paris.", "now");
    assert "Paris." + " " + "now" == "Paris. now";
  }

  lemma SanitizeParisDotNow()
    ensures SanitizeCity("Paris. now") == "Paris."
  {
    assert DropTrailingPunct("Paris. now") == "Paris. now";
    TrimUnchanged("Paris. now", IsSpace);
    WordsParisDotNow();
    ParisIsNotStopword();
    KeepWordThenNow("Paris.");
  }

  lemma CleanedParisDot()
    ensures Cleaned("Paris.") == "Paris"
  {
    assert "Paris."[..5] == "Paris";
    assert DropTrailingPunct("Paris.") == "Paris";
    TrimUnchanged("Paris", IsSpace);
  }

  lemma KeepParis()
    ensures KeepNonStop(["Paris"]) == ["Paris"]
  {
    ParisIsNotStopword();
    KeepNonStopCons("Paris", []);
  }

  lemma WordsParis()
    ensures Words("Paris") == ["Paris"]
  {
    assert IsWord("Paris");
    WordsOfWord("Paris");
  }

  lemma SanitizeParisDot()
    ensures SanitizeCity("Paris.") == "Paris"
  {
    CleanedParisDot();
    WordsParis();
    KeepParis();
    assert SanitizeCity("Paris.") == Join(" ", ["Paris"]);
  }

  /** Only a trailing run of punctuation goes, and only before tokenising, so cleaning
      a cleaned name can change it again */
  lemma SanitizeNotIdempotent()
    ensures SanitizeCity("Paris. now") == "Paris."
    ensures SanitizeCity(SanitizeCity("Paris. now")) == "Paris"
  {
    SanitizeParisDotNow();
    SanitizeParisDot();
  }

  /** A JSON field as the summary reads it with `.get(...)`: absent, `null`, or a printable value */
  datatype Field = Missing | Null | Value(text: string)

  /** The parts of the current-conditions payload the model looks at; `raw` is how
      `str(weather_json)` prints the whole payload */
  datatype Reading = Reading(raw: string, description: Field, temp: Field, humidity: Field, wind: Field)

  /** The weather service's answer to one request */
  datatype HttpReply =
    | Reply(status: int, reason: string, json: Result<Reading>)
    | Unreachable(error: Exception)

  /** The current-conditions endpoint */
  const WeatherEndpoint := "https://api.openweathermap.org/data/2.5/weather"

  /** The characters `quote_plus` never escapes */
  predicate IsUnreserved(c: char) {
    ('a' <= c <= 'z') || ('A' <= c <= 'Z') || ('0' <= c <= '9') || c == '_' || c == '.' || c == '-' || c == '~'
  }

  /** The characters an encoded query value is made of */
  predicate IsQuerySafe(c: char) {
    IsUnreserved(c) || c == '+' || c == '%'
  }

  /** The UTF-8 bytes of a character */
  function Utf8(c: char): (bs: seq<nat>)
    ensures 1 <= |bs| <= 4
    ensures forall i :: 0 <= i < |bs| ==> bs[i] < 256
  {
    var n := c as int;
    if n < 0x80 then [n]
    else if n < 0x800 then [0xC0 + n / 0x40, 0x80 + n % 0x40]
    else if n < 0x1_0000 then [0xE0 + n / 0x1000, 0x80 + n / 0x40 % 0x40, 0x80 + n % 0x40]
    else [0xF0 + n / 0x4_0000, 0x80 + n / 0x1000 % 0x40, 0x80 + n / 0x40 % 0x40, 0x80 + n % 0x40]
  }

  function HexDigit(d: nat): (c: char)
    requires d < 16
    ensures IsUnreserved(c)
  {
    "0123456789ABCDEF"[d]
  }

  /** `%XX` for each byte */
  function PercentEscape(bs: seq<nat>): (r: string)
    requires forall i :: 0 <= i < |bs| ==> bs[i] < 256
    ensures |r| == 3 * |bs|
    ensures forall i :: 0 <= i < |r| ==> IsQuerySafe(r[i])
  {
    if bs == [] then [] else ['%', HexDigit(bs[0] / 16), HexDigit(bs[0] % 16)] + PercentEscape(bs[1..])
  }

  /** `quote_plus` of one character: kept when unreserved, `+` for a space, else the
      percent escapes of its UTF-8 bytes */
  function EncodeChar(c: char): (r: string)
    ensures IsUnreserved(c) <==> r == [c]
    ensures forall i :: 0 <= i < |r| ==> IsQuerySafe(r[i])
  {
    if IsUnreserved(c) then [c]
    else if c == ' ' then "+"
    else PercentEscape(Utf8(c))
  }

  /** `quote_plus`, as `urlencode` applies it to each query value */
  function QueryEncode(s: string): (r: string)
    ensures forall i :: 0 <= i < |r| ==> IsQuerySafe(r[i])
  {
    if s == [] then [] else EncodeChar(s[0]) + QueryEncode(s[1..])
  }

  /** A value of unreserved characters goes into the query string as it is */
  lemma {:induction false} QueryEncodeUnreserved(s: string)
    requires forall i :: 0 <= i < |s| ==> IsUnreserved(s[i])
    ensures QueryEncode(s) == s
  {
    if s != [] {
      QueryEncodeUnreserved(s[1..]);
      assert s == [s[0]] + s[1..];
    }
  }

  /** The URL `requests` sends for the parameters `q`, `appid` and `units`, in that order */
  function RequestUrl(q: string, apiKey: string): string {
    WeatherEndpoint + "?q=" + QueryEncode(q) + "&appid=" + QueryEncode(apiKey) + "&" + "units=metric"
  }

  /** The encoded key is a parameter of its own: it follows `&appid=` and is followed by the
      next `&` (an encoded value, being query-safe, holds no `&` or `=` to cut it short) */
  lemma RequestUrlCarriesKey(q: string, apiKey: string)
    ensures Contains(RequestUrl(q, apiKey), "&appid=" + QueryEncode(apiKey) + "&")
  {
    ContainsSpan(WeatherEndpoint + "?q=" + QueryEncode(q), "&appid=", QueryEncode(apiKey), "&", "units=metric");
  }

  /** The text of the error `raise_for_status` raises for an error status; `requests` names
      the URL the reply came from */
  function HttpErrorMessage(status: int, reason: string, url: string): string {
    IntToString(status) + (if status < 500 then " Client Error: " else " Server Error: ")
      + reason + " for url: " + url
  }

  /** The error text ends with the URL that was requested */
  lemma HttpErrorNamesUrl(status: int, reason: string, url: string)
    ensures IsSuffix(url, HttpErrorMessage(status, reason, url))
    ensures Contains(HttpErrorMessage(status, reason, url), url)
  {
    var lead := IntToString(status) + (if status < 500 then " Client Error: " else " Server Error: ") + reason + " for url: ";
    ContainsAtEnd(lead, url);
  }

  /** An error status for a request made with an API key of unreserved characters yields an
      error whose text repeats the key */
  lemma HttpErrorEchoesKey(status: int, reason: string, q: string, apiKey: string)
    requires forall i :: 0 <= i < |apiKey| ==> IsUnreserved(apiKey[i])
    ensures Contains(HttpErrorMessage(status, reason, RequestUrl(q, apiKey)), apiKey)
  {
    var url := RequestUrl(q, apiKey);
    QueryEncodeUnreserved(apiKey);
    ContainsAtEnd(WeatherEndpoint + "?q=" + QueryEncode(q) + "&appid=", apiKey);
    ContainsExtended(WeatherEndpoint + "?q=" + QueryEncode(q) + "&appid=" + apiKey, apiKey, "&");
    ContainsExtended(WeatherEndpoint + "?q=" + QueryEncode(q) + "&appid=" + apiKey + "&", apiKey, "units=metric");
    HttpErrorNamesUrl(status, reason, url);
    ContainsWithin(HttpErrorMessage(status, reason, url), url, apiKey);
  }

  predicate IsNotFound(reply: HttpReply) {
    reply.Reply? && reply.status == 404
  }

  /** `resp.raise_for_status()` followed by `resp.json()`, for the reply to a request sent to `url` */
  function Accept(reply: HttpReply, url: string): (r: Result<Reading>)
    ensures reply.Reply? && 400 <= reply.status < 600 ==>
      r == Err(Exception(HTTPError(reply.status), HttpErrorMessage(reply.status, reply.reason, url)))
    ensures reply.Unreachable? ==> r == Err(reply.error)
    ensures reply.Reply? && !(400 <= reply.status < 600) ==> r == reply.json
    ensures r.Ok? ==> reply.Reply? && !(400 <= reply.status < 600) && reply.json == r
  {
    match reply
    case Unreachable(e) => Err(e)
    case Reply(status, reason, json) =>
      if 400 <= status < 600 then Err(Exception(HTTPError(status), HttpErrorMessage(status, reason, url))) else json
  }

  const MissingKeyMessage := "Missing OPENWEATHER_API_KEY in environment"

  /** The query of the single retry after a 404: the last token of the sanitised name,
      when it is non-empty and differs from the whole name */
  function RetryQuery(primary: string): (r: Option<string>)
    ensures r.Some? ==>
      Words(primary) != [] && r.value == Words(primary)[|Words(primary)| - 1] && r.value != primary
  {
    var ws := Words(primary);
    var last := if ws != [] then ws[|ws| - 1] else primary;
    if last != "" && last != primary then Some(last) else None
  }

  /** A name that is the single-space join of its tokens has a retry query exactly
      when it holds at least two tokens, and the query is the last token */
  lemma RetryQueryWhenSeveralWords(primary: string)
    requires primary == Join(" ", Words(primary))
    ensures RetryQuery(primary).Some? <==> |Words(primary)| >= 2
    ensures RetryQuery(primary).Some? ==> RetryQuery(primary).value == Words(primary)[|Words(primary)| - 1]
  {
    var ws := Words(primary);
    if |ws| >= 2 {
      var last := ws[|ws| - 1];
      assert IsWord(last);
      assert primary == ws[0] + " " + Join(" ", ws[1..]);
      assert primary[|ws[0]|] == ' ';
      assert last != primary by {
        if |last| == |primary| {
          assert !IsSpace(last[|ws[0]|]);
          assert last[|ws[0]|] != primary[|ws[0]|];
        }
      }
    }
  }

  /** What a call of `fetch_weather` did: its result and the `q` values it sent, in order */
  datatype Fetched = Fetched(result: Result<Reading>, queries: seq<string>)

  /** The requests `fetch_weather` sends for an already sanitised name */
  function FetchSanitized(primary: string, apiKey: string, http: string -> HttpReply): (f: Fetched)
    requires primary == Join(" ", Words(primary))
    ensures 1 <= |f.queries| <= 2 && f.queries[0] == primary
    ensures |f.queries| == 2 <==> IsNotFound(http(primary)) && |Words(primary)| >= 2
    ensures |f.queries| == 2 ==> f.queries[1] == Words(primary)[|Words(primary)| - 1]
    ensures f.result == Accept(http(f.queries[|f.queries| - 1]), RequestUrl(f.queries[|f.queries| - 1], apiKey))
  {
    RetryQueryWhenSeveralWords(primary);
    var first := http(primary);
    if IsNotFound(first) && RetryQuery(primary).Some? then
      var last := RetryQuery(primary).value;
      Fetched(Accept(http(last), RequestUrl(last, apiKey)), [primary, last])
    else
      Fetched(Accept(first, RequestUrl(primary, apiKey)), [primary])
  }

  /** `fetch_weather`: no request without a key, else the first request uses the sanitised
      name and the result is the reply to the last request sent */
  function FetchWeather(apiKey: string, city: string, http: string -> HttpReply): (f: Fetched)
    ensures apiKey == "" ==> f == Fetched(Err(Exception(ValueError, MissingKeyMessage)), [])
    ensures apiKey != "" ==> 1 <= |f.queries| <= 2 && f.queries[0] == SanitizeCity(city)
    ensures |f.queries| > 0 ==>
      f.result == Accept(http(f.queries[|f.queries| - 1]), RequestUrl(f.queries[|f.queries| - 1], apiKey))
  {
    if apiKey == "" then Fetched(Err(Exception(ValueError, MissingKeyMessage)), [])
    else FetchSanitized(SanitizeCity(city), apiKey, http)
  }

  /** With a key, a second request, with the last token, is sent exactly after a 404 for
      a name of several tokens */
  lemma FetchWeatherRetry(apiKey: string, city: string, http: string -> HttpReply)
    requires apiKey != ""
    ensures var f := FetchWeather(apiKey, city, http);
      var ws := Words(SanitizeCity(city));
      && (|f.queries| == 2 <==> IsNotFound(http(SanitizeCity(city))) && |ws| >= 2)
      && (|f.queries| == 2 ==> |ws| >= 2 && f.queries[1] == ws[|ws| - 1])
  {
    var primary := SanitizeCity(city);
    assert primary == Join(" ", Words(primary));
    assert FetchWeather(apiKey, city, http) == FetchSanitized(primary, apiKey, http);
  }

  /** `fetch_weather` sent a request and the last one was answered with an error status */
  predicate LastReplyFailed(apiKey: string, city: string, http: string -> HttpReply) {
    var f := FetchWeather(apiKey, city, http);
    |f.queries| > 0 && http(f.queries[|f.queries| - 1]).Reply? && 400 <= http(f.queries[|f.queries| - 1]).status < 600
  }

  /** When the last request is answered with an error status, the error `fetch_weather`
      raises repeats an API key of unreserved characters */
  lemma FetchErrorEchoesKey(apiKey: string, city: string, http: string -> HttpReply)
    requires forall i :: 0 <= i < |apiKey| ==> IsUnreserved(apiKey[i])
    requires LastReplyFailed(apiKey, city, http)
    ensures FetchWeather(apiKey, city, http).result.Err?
    ensures Contains(FetchWeather(apiKey, city, http).result.error.message, apiKey)
  {
    var f := FetchWeather(apiKey, city, http);
    var q := f.queries[|f.queries| - 1];
    HttpErrorEchoesKey(http(q).status, http(q).reason, q, apiKey);
  }

  /** The description the summary prints: `"weather data"` when absent, `None` for `null` */
  function Description(r: Reading): string {
    match r.description
    case Missing => "weather data"
    case Null => "None"
    case Value(t) => t
  }

  /** The fixed start of every fallback summary */
  const HeadlineLead := "Current conditions in "

  function Headline(city: string, description: string): string {
    HeadlineLead + city + ": " + description + "."
  }

  /** The headline begins by naming the city */
  lemma HeadlineNamesCity(city: string, description: string)
    ensures IsPrefix(HeadlineLead + city + ": ", Headline(city, description))
  {
    PrefixOfAppend(HeadlineLead + city + ": ", description);
    PrefixOfAppend(HeadlineLead + city + ": " + description, ".");
    PrefixTransitive(HeadlineLead + city + ": ", HeadlineLead + city + ": " + description, Headline(city, description));
  }

  /** The sentence for one optional field, as a list of zero or one parts */
  function OptionalSentence(prefix: string, f: Field, suffix: string): seq<string> {
    if f.Value? then [prefix + f.text + suffix] else []
  }

  const TemperaturePrefix := "Temperature: "
  /** The degree sign as the source file spells it (its UTF-8 bytes read as Latin-1) */
  const TemperatureSuffix := "\U{c2}\U{b0}C."
  const HumidityPrefix := "Humidity: "
  const HumiditySuffix := "%."
  const WindPrefix := "Wind: "
  const WindSuffix := " m/s."

  /** The sentences of the fallback summary, in the order they are appended */
  function FallbackParts(r: Reading, city: string): seq<string> {
    [Headline(city, Description(r))]
      + OptionalSentence(TemperaturePrefix, r.temp, TemperatureSuffix)
      + OptionalSentence(HumidityPrefix, r.humidity, HumiditySuffix)
      + OptionalSentence(WindPrefix, r.wind, WindSuffix)
  }

  /** A sentence appended with its separating space, or nothing */
  function Spaced(part: seq<string>): string {
    if part == [] then "" else " " + part[0]
  }

  /** Joining a list and then one optional part */
  lemma JoinOptional(parts: seq<string>, opt: seq<string>)
    requires |parts| > 0 && |opt| <= 1
    ensures Join(" ", parts + opt) == Join(" ", parts) + Spaced(opt)
  {
    if opt != [] {
      assert opt == [opt[0]];
      JoinSnoc(" ", parts, opt[0]);
    } else {
      assert parts + opt == parts;
    }
  }

  /** The deterministic summary: the headline, then each present reading sentence
      after a single space, temperature before humidity before wind */
  function FallbackSummary(r: Reading, city: string): (s: string)
    ensures s == Headline(city, Description(r))
      + Spaced(OptionalSentence(TemperaturePrefix, r.temp, TemperatureSuffix))
      + Spaced(OptionalSentence(HumidityPrefix, r.humidity, HumiditySuffix))
      + Spaced(OptionalSentence(WindPrefix, r.wind, WindSuffix))
    ensures IsPrefix(Headline(city, Description(r)), s)
  {
    var h := [Headline(city, Description(r))];
    var t := OptionalSentence(TemperaturePrefix, r.temp, TemperatureSuffix);
    var u := OptionalSentence(HumidityPrefix, r.humidity, HumiditySuffix);
    var w := OptionalSentence(WindPrefix, r.wind, WindSuffix);
    JoinOptional(h, t);
    JoinOptional(h + t, u);
    JoinOptional(h + t + u, w);
    Join(" ", FallbackParts(r, city))
  }

  /** `summarize_weather`: the model's text when the language-model path succeeds
      (`llm` is that path's outcome), the deterministic summary on any failure */
  function SummarizeWeather(r: Reading, city: string, llm: Result<string>): (s: string)
    ensures llm.Ok? ==> s == llm.value
    ensures llm.Err? ==> s == FallbackSummary(r, city)
    ensures llm.Err? ==> IsPrefix(HeadlineLead + city + ": ", s)
    ensures llm.Err? && r.temp.Missing? && r.humidity.Missing? && r.wind.Missing? ==> s == Headline(city, Description(r))
  {
    match llm
    case Ok(text) => text
    case Err(_) =>
      var s := FallbackSummary(r, city);
      HeadlineNamesCity(city, Description(r));
      PrefixTransitive(HeadlineLead + city + ": ", Headline(city, Description(r)), s);
      s
  }

  /** The system instruction and request the language-model path sends */
  const SummaryInstructions := "You turn raw weather JSON into a brief, user-friendly summary. Be concise and practical."

  function SummaryRequest(city: string): string {
    "Create a 3-sentence weather summary for " + city + "."
  }
}
