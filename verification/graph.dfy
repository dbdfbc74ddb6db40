/**
 The router (src/graph.py): how the question is pulled out of the graph state,
 the keyword classifier that picks a route, the weather and RAG nodes with
 their catch-all degraded answers, and the start edge that dispatches to the
 node the classifier names.

 Every outside capability a node reaches (the weather service, the chat model,
 retrieval, the vector database) is a field of `World`.
 */
module Graph {
  import opened Results
  import opened Text
  import opened Config
  import opened Llm
  import opened Embeddings
  import opened VectorStore
  import opened Weather
  import opened Rag

  /** A value in the graph state: a string, a dict, or anything else; the last two carry
      how `str()` prints them */
  datatype StateValue =
    | Str(text: string)
    | Dict(entries: map<string, StateValue>, shown: string)
    | Opaque(shown: string)

  /** `str(v)` */
  function Rendered(v: StateValue): string {
    match v
    case Str(t) => t
    case Dict(_, shown) => shown
    case Opaque(shown) => shown
  }

  /** `v.get(key)` on a dict; nothing for a missing key or a value that is not a dict */
  function Get(v: StateValue, key: string): Option<StateValue> {
    if v.Dict? && key in v.entries then Some(v.entries[key]) else None
  }

  /** The string at `key`, when `v` is a dict holding a string there */
  function StrAt(v: StateValue, key: string): (r: Option<string>)
    ensures r.Some? <==> v.Dict? && key in v.entries && v.entries[key].Str?
    ensures r.Some? ==> r.value == v.entries[key].text
  {
    match Get(v, key)
    case Some(Str(t)) => Some(t)
    case _ => None
  }

  /** `_extract_question`: a string `question`, else a string `input.question`, else a
      string `input`, else the printed state */
  function ExtractQuestion(state: StateValue): (q: string)
    ensures StrAt(state, "question").Some? ==> q == StrAt(state, "question").value
    ensures StrAt(state, "question").None? && Get(state, "input").Some? && StrAt(state.entries["input"], "question").Some? ==>
      q == StrAt(state.entries["input"], "question").value
    ensures (StrAt(state, "question").None? && (Get(state, "input").None? || StrAt(state.entries["input"], "question").None?)
             && StrAt(state, "input").Some?) ==> q == StrAt(state, "input").value
    ensures (StrAt(state, "question").None? && (Get(state, "input").None? || StrAt(state.entries["input"], "question").None?)
             && StrAt(state, "input").None?) ==> q == Rendered(state)
  {
    if StrAt(state, "question").Some? then StrAt(state, "question").value
    else
      match Get(state, "input")
      case Some(input) =>
        if StrAt(input, "question").Some? then StrAt(input, "question").value
        else if input.Str? then input.text
        else Rendered(state)
      case None => Rendered(state)
  }

  /** A state that is itself a string is its own question; a state with a string `question`
      yields that string whatever else it holds */
  lemma ExtractQuestionOfRouterState(question: string, rest: map<string, StateValue>, shown: string)
    ensures ExtractQuestion(Str(question)) == question
    ensures ExtractQuestion(Dict(rest["question" := Str(question)], shown)) == question
  {
  }

  /** A question wrapped as the `input` of a state without a `question` entry, either as a
      string or as the `question` of a nested dict, is recovered unchanged */
  lemma ExtractQuestionOfWrappedInput(question: string, rest: map<string, StateValue>, shown: string, innerShown: string)
    requires "question" !in rest || !rest["question"].Str?
    ensures ExtractQuestion(Dict(rest["input" := Str(question)], shown)) == question
    ensures ExtractQuestion(Dict(rest["input" := Dict(map["question" := Str(question)], innerShown)], shown)) == question
  {
  }

  /** The two routes */
  datatype Route = WeatherRoute | RagRoute

  function RouteName(r: Route): string {
    match r
    case WeatherRoute => "weather"
    case RagRoute => "rag"
  }

  /** The words whose presence as a substring sends a question to the weather node */
  const Keywords: seq<string> := ["weather", "temperature", "forecast", "rain", "wind", "humidity"]

  /** `any(k in text for k in keywords)` */
  function AnyKeyword(text: string, keywords: seq<string>): (r: bool)
    ensures r <==> exists i :: 0 <= i < |keywords| && Contains(text, keywords[i])
  {
    if keywords == [] then false
    else In(keywords[0], text) || AnyKeyword(text, keywords[1..])
  }

  /** The classification of a question's text */
  function ClassifyQuestion(question: string): (r: Route)
    ensures r == WeatherRoute <==> exists i :: 0 <= i < |Keywords| && Contains(Lower(question), Keywords[i])
  {
    if AnyKeyword(Lower(question), Keywords) then WeatherRoute else RagRoute
  }

  /** `classify_route`: the route of the extracted question; never fails */
  function ClassifyRoute(state: StateValue): (r: Route)
    ensures r == WeatherRoute <==> exists i :: 0 <= i < |Keywords| && Contains(Lower(ExtractQuestion(state)), Keywords[i])
    ensures RouteName(r) in {"weather", "rag"}
  {
    ClassifyQuestion(ExtractQuestion(state))
  }

  /** Upper-case letters do not change the route */
  lemma ClassifyIgnoresCase(question: string)
    ensures ClassifyQuestion(Lower(question)) == ClassifyQuestion(question)
  {
    LowerIdempotent(question);
  }

  /** The keyword test matches inside words: "train" holds "rain" */
  lemma TrainRoutesToWeather()
    ensures ClassifyQuestion("train") == WeatherRoute
  {
    LowerOfLowercase("train");
    assert "train"[1..5] == "rain";
    assert OccursAt("train", "rain", 1);
    assert Keywords[3] == "rain";
  }

  /** The keyword test matches inside words: "window" holds "wind" */
  lemma WindowRoutesToWeather()
    ensures ClassifyQuestion("window") == WeatherRoute
  {
    LowerOfLowercase("window");
    assert "window"[0..4] == "wind";
    assert OccursAt("window", "wind", 0);
    assert Keywords[4] == "wind";
  }

  lemma WeatherIsLowercase()
    ensures Lower("weather") == "weather"
  {
    LowerOfLowercase("weather");
  }

  lemma LondonQuestionNamesWeather()
    ensures Contains(Lower("What's the weather in London?"), "weather")
  {
    var q := "What's the weather in London?";
    assert q[11..18] == "weather";
    assert OccursAt(q, "weather", 11);
    WeatherIsLowercase();
    LowerKeepsLowercaseOccurrence(q, "weather");
  }

  /** A question naming the weather is routed to the weather node */
  lemma WeatherQuestionRoutesToWeather()
    ensures ClassifyQuestion("What's the weather in London?") == WeatherRoute
  {
    LondonQuestionNamesWeather();
    assert Keywords[0] == "weather";
  }

  lemma DocumentQuestionIsLowercase()
    ensures Lower("who wrote the pdf?") == "who wrote the pdf?"
  {
    LowerOfLowercase("who wrote the pdf?");
  }

  lemma DocumentQuestionLacksWeatherWords()
    ensures !Contains("who wrote the pdf?", "weather")
    ensures !Contains("who wrote the pdf?", "temperature")
    ensures !Contains("who wrote the pdf?", "forecast")
  {
    CharAbsent("who wrote the pdf?", "weather", 2);
    CharAbsent("who wrote the pdf?", "temperature", 2);
    CharAbsent("who wrote the pdf?", "forecast", 4);
  }

  lemma DocumentQuestionLacksOtherWeatherWords()
    ensures !Contains("who wrote the pdf?", "rain")
    ensures !Contains("who wrote the pdf?", "wind")
    ensures !Contains("who wrote the pdf?", "humidity")
  {
    CharAbsent("who wrote the pdf?", "rain", 1);
    CharAbsent("who wrote the pdf?", "wind", 1);
    CharAbsent("who wrote the pdf?", "humidity", 1);
  }

  /** A text holding none of the six words holds no keyword */
  lemma NoKeyword(s: string)
    requires !Contains(s, "weather") && !Contains(s, "temperature") && !Contains(s, "forecast")
    requires !Contains(s, "rain") && !Contains(s, "wind") && !Contains(s, "humidity")
    ensures forall i :: 0 <= i < |Keywords| ==> !Contains(s, Keywords[i])
  {
    forall i | 0 <= i < |Keywords| ensures !Contains(s, Keywords[i]) {
      if i == 0 { assert Keywords[i] == "weather"; }
      else if i == 1 { assert Keywords[i] == "temperature"; }
      else if i == 2 { assert Keywords[i] == "forecast"; }
      else if i == 3 { assert Keywords[i] == "rain"; }
      else if i == 4 { assert Keywords[i] == "wind"; }
      else { assert Keywords[i] == "humidity"; }
    }
  }

  /** A question with none of the keywords is routed to the RAG node */
  lemma DocumentQuestionRoutesToRag()
    ensures ClassifyQuestion("who wrote the pdf?") == RagRoute
  {
    DocumentQuestionIsLowercase();
    DocumentQuestionLacksWeatherWords();
    DocumentQuestionLacksOtherWeatherWords();
    NoKeyword("who wrote the pdf?");
  }

  /** The characters stripped from both ends of the city */
  predicate IsCityEdge(c: char) {
    c == ' ' || c == '?' || c == '!' || c == '.' || c == ','
  }

  /** The city used when none can be found */
  const DefaultCity := "London"

  /** The city heuristic of `weather_node`: the test for `" in "` runs on the lower-cased
      question, the split on the question as written; the last piece is trimmed of
      ` ?!.,` and an empty result becomes the default city */
  function ExtractCity(question: string): (city: string)
    ensures city != ""
    ensures !Contains(Lower(question), " in ") ==> city == DefaultCity
    ensures Contains(Lower(question), " in ") ==>
      city == DefaultCity
      || (Contains(SplitLast(question, " in "), city) && !IsCityEdge(city[0]) && !IsCityEdge(city[|city| - 1]))
    ensures Contains(Lower(question), " in ") && Trim(SplitLast(question, " in "), IsCityEdge) != "" ==>
      city == Trim(SplitLast(question, " in "), IsCityEdge)
  {
    var found := if In(" in ", Lower(question)) then Trim(SplitLast(question, " in "), IsCityEdge) else "";
    if found == "" then DefaultCity else found
  }

  /** The city comes from after the last `" in "`: it holds no `" in "` itself, and the
      question ends with `" in "`, the city's surroundings and the city */
  lemma CityFollowsLastIn(question: string)
    requires Contains(question, " in ")
    requires Trim(SplitLast(question, " in "), IsCityEdge) != ""
    ensures !Contains(ExtractCity(question), " in ")
    ensures IsSuffix(" in " + SplitLast(question, " in "), question)
    ensures Contains(SplitLast(question, " in "), ExtractCity(question))
  {
    var tail := SplitLast(question, " in ");
    var city := ExtractCity(question);
    InIsLowercase();
    LowerKeepsLowercaseOccurrence(question, " in ");
    assert Contains(tail, city);
    NotContainsInPart(tail, city, " in ");
  }

  /** The case quirk: when only the lower-cased question holds `" in "`, the split finds
      nothing to split on and the city is the whole trimmed question */
  lemma UpperCaseInKeepsWholeQuestion(question: string)
    requires Contains(Lower(question), " in ") && !Contains(question, " in ")
    requires Trim(question, IsCityEdge) != ""
    ensures ExtractCity(question) == Trim(question, IsCityEdge)
  {
  }

  /** No `i` comes before the `" in "` that precedes the city */
  lemma TokyoQuestionFrontLacksI()
    ensures " in "[1] !in "What's the weather" + " in "[..1]
  {
    assert " in "[..1] == " ";
    assert " in "[1] == 'i';
  }

  lemma TokyoLacksIn()
    ensures !Contains("Tokyo?", " in ")
  {
    CharAbsent("Tokyo?", " in ", 0);
  }

  lemma TokyoTail()
    ensures SplitLast("What's the weather in Tokyo?", " in ") == "Tokyo?"
  {
    var q := "What's the weather" + " in " + "Tokyo?";
    assert q == "What's the weather in Tokyo?";
    TokyoQuestionFrontLacksI();
    TokyoLacksIn();
    SplitLastAt("What's the weather", " in ", "Tokyo?", 1);
  }

  lemma TokyoTrimmed()
    ensures Trim("Tokyo?", IsCityEdge) == "Tokyo"
  {
    assert "Tokyo?"[..5] == "Tokyo";
    assert TrimStart("Tokyo?", IsCityEdge) == "Tokyo?";
    TrimUnchanged("Tokyo", IsCityEdge);
    assert TrimEnd("Tokyo", IsCityEdge) == "Tokyo";
  }

  lemma InIsLowercase()
    ensures Lower(" in ") == " in "
  {
    LowerOfLowercase(" in ");
  }

  lemma TokyoQuestionHasIn()
    ensures Contains(Lower("What's the weather in Tokyo?"), " in ")
  {
    var q := "What's the weather in Tokyo?";
    assert q[18..22] == " in ";
    assert OccursAt(q, " in ", 18);
    InIsLowercase();
    LowerKeepsLowercaseOccurrence(q, " in ");
  }

  /** "What's the weather in Tokyo?" asks about Tokyo */
  lemma CityOfTokyoQuestion()
    ensures ExtractCity("What's the weather in Tokyo?") == "Tokyo"
  {
    TokyoQuestionHasIn();
    TokyoTail();
    TokyoTrimmed();
  }

  lemma NoInQuestionLacksN()
    ensures 'n' !in "What's the weather?" && ('n' as int - 32) as char !in "What's the weather?"
  {
    assert ('n' as int - 32) as char == 'N';
  }

  lemma NoInQuestionLowerLacksN()
    ensures 'n' !in Lower("What's the weather?")
  {
    NoInQuestionLacksN();
    LowerLacksLetter("What's the weather?", 'n');
  }

  lemma NoInQuestionLacksIn()
    ensures !Contains(Lower("What's the weather?"), " in ")
  {
    NoInQuestionLowerLacksN();
    CharAbsent(Lower("What's the weather?"), " in ", 2);
  }

  /** A question without `" in "` asks about the default city */
  lemma CityOfQuestionWithoutIn()
    ensures ExtractCity("What's the weather?") == DefaultCity
  {
    NoInQuestionLacksIn();
  }

  /** What a node writes back into the state; `sources` is absent for the weather node */
  datatype NodeResult = NodeResult(answer: string, route: string, sources: Option<seq<Metadata>>)

  /** Everything outside the router that the nodes reach, as values and outcomes */
  datatype World = World(
    settings: Settings,
    env: Env,
    libs: Libraries,
    /** the outcomes of building the local chat pipeline, the Google chat model and the
        inference client */
    localBuild: Outcome,
    chatGoogleInit: Outcome,
    clientInit: Outcome,
    /** whether the remote embeddings endpoint answered the `"ping"` embed */
    hfPing: bool,
    /** the outcomes of constructing the Google and the local embeddings objects */
    embedGoogleInit: Outcome,
    embedLocalInit: Outcome,
    /** the embedding of `"dimension probe"` with the active embeddings */
    probe: Result<seq<real>>,
    store: Store,
    /** the outcomes of the collection writes reconciliation may issue */
    writes: Writes,
    /** the weather service's reply to a `q` value */
    http: string -> HttpReply,
    /** generation by the chosen chat backend */
    chat: (ChatBackend, seq<ChatMessage>) -> Result<Generated>,
    /** the retriever's `invoke` and legacy search for a question */
    search: string -> Result<seq<Document>>,
    legacySearch: string -> Result<seq<Document>>,
    /** adding a weather summary for a city to the collection */
    persist: (string, string) -> Outcome
  )

  /** `build_llm()` in this world */
  function ChatModel(w: World): Result<ChatBackend> {
    BuildLlm(w.env, w.settings, w.libs, w.localBuild, w.chatGoogleInit, w.clientInit)
  }

  /** `build_embeddings()` in this world */
  function EmbeddingModel(w: World): Result<EmbeddingBackend> {
    BuildEmbeddings(w.env, w.settings, w.libs, w.hfPing, w.embedGoogleInit, w.embedLocalInit, DefaultModel).result
  }

  /** `summarize_weather(raw, city)`: the chat model's summary, or the fallback one */
  function Summary(w: World, reading: Reading, city: string): string {
    SummarizeWeather(reading, city,
      RunChain(ChatModel(w), SummaryInstructions, reading.raw, SummaryRequest(city), w.chat))
  }

  const WeatherUnavailablePrefix := "Weather lookup unavailable right now. Details: "

  /** `fetch_weather(city)` in this world */
  function Fetch(w: World, city: string): Result<Reading> {
    FetchWeather(w.settings.openweatherApiKey, city, w.http).result
  }

  /** The body of `weather_node`'s `try`: fetch, summarise, build the embeddings, open the
      vector store, then persist the summary; the first failure ends it */
  function WeatherSteps(w: World, city: string): (r: Result<string>)
    ensures Fetch(w, city).Err? ==> r == Err(Fetch(w, city).error)
    ensures r.Ok? ==> Fetch(w, city).Ok? && r.value == Summary(w, Fetch(w, city).value, city)
    ensures Fetch(w, city).Ok? && EmbeddingModel(w).Err? ==> r == Err(EmbeddingModel(w).error)
    ensures Fetch(w, city).Ok? && EmbeddingModel(w).Ok? && w.store.health.Down? ==>
      r == Err(Exception(RuntimeError, UnreachableMessage(w.settings.qdrantUrl)))
    ensures Fetch(w, city).Ok? && EmbeddingModel(w).Ok? && w.store.health.Up? ==>
      var summary := Summary(w, Fetch(w, city).value, city);
      && (w.persist(summary, city).Failed? ==> r == Err(w.persist(summary, city).error))
      && (w.persist(summary, city).Done? ==> r == Ok(summary))
  {
    var reading :- Fetch(w, city);
    var summary := Summary(w, reading, city);
    var _ :- EmbeddingModel(w);
    var _ :- GetVectorstore(w.store, None, w.settings, w.env, w.probe, w.writes);
    var persisted := w.persist(summary, city);
    if persisted.Failed? then Err(persisted.error) else Ok(summary)
  }

  /** The city `weather_node` asks about */
  function NodeCity(state: StateValue): string {
    ExtractCity(ExtractQuestion(state))
  }

  /** `weather_node`: always the weather route and no sources; the answer is the summary of
      a successful fetch or the degraded text */
  function WeatherNode(state: StateValue, w: World): (n: NodeResult)
    ensures n.route == "weather" && n.sources.None?
    ensures WeatherSteps(w, NodeCity(state)).Err? ==>
      n.answer == WeatherUnavailablePrefix + WeatherSteps(w, NodeCity(state)).error.message
    ensures WeatherSteps(w, NodeCity(state)).Ok? ==> n.answer == WeatherSteps(w, NodeCity(state)).value
  {
    match WeatherSteps(w, NodeCity(state))
    case Ok(summary) => NodeResult(summary, "weather", None)
    case Err(e) => NodeResult(WeatherUnavailablePrefix + e.message, "weather", None)
  }

  /** Without an API key the node answers with the missing-key error */
  lemma WeatherNodeWithoutKey(state: StateValue, w: World)
    requires w.settings.openweatherApiKey == ""
    ensures WeatherNode(state, w).answer == WeatherUnavailablePrefix + MissingKeyMessage
  {
  }

  /** A failed fetch is reported with its error text */
  lemma WeatherNodeFetchFailure(state: StateValue, w: World)
    requires Fetch(w, NodeCity(state)).Err?
    ensures WeatherNode(state, w).answer == WeatherUnavailablePrefix + Fetch(w, NodeCity(state)).error.message
  {
  }

  /** When the weather service answers the last request with an error status, the degraded
      answer repeats the API key, which travels in the request URL the error names */
  lemma WeatherNodeEchoesKey(state: StateValue, w: World)
    requires forall i :: 0 <= i < |w.settings.openweatherApiKey| ==> IsUnreserved(w.settings.openweatherApiKey[i])
    requires LastReplyFailed(w.settings.openweatherApiKey, NodeCity(state), w.http)
    ensures Contains(WeatherNode(state, w).answer, w.settings.openweatherApiKey)
  {
    var key := w.settings.openweatherApiKey;
    FetchErrorEchoesKey(key, NodeCity(state), w.http);
    ContainsAtEnd(WeatherUnavailablePrefix, Fetch(w, NodeCity(state)).error.message);
    ContainsWithin(WeatherNode(state, w).answer, Fetch(w, NodeCity(state)).error.message, key);
  }

  /** When every step succeeds the answer is the summary of the fetched reading */
  lemma WeatherNodeSuccess(state: StateValue, w: World)
    requires Fetch(w, NodeCity(state)).Ok? && EmbeddingModel(w).Ok? && w.store.health.Up?
    requires w.persist(Summary(w, Fetch(w, NodeCity(state)).value, NodeCity(state)), NodeCity(state)).Done?
    ensures WeatherNode(state, w).answer == Summary(w, Fetch(w, NodeCity(state)).value, NodeCity(state))
  {
  }

  /** A summary that was produced while no embeddings backend can be built is not shown:
      the answer is the degraded one naming the embeddings error */
  lemma EmbeddingsFailureDiscardsSummary(state: StateValue, w: World)
    requires Fetch(w, NodeCity(state)).Ok? && EmbeddingModel(w).Err?
    ensures WeatherNode(state, w).answer == WeatherUnavailablePrefix + EmbeddingModel(w).error.message
  {
  }

  /** A summary that was produced while the vector store does not answer is not shown: the
      answer is the degraded one naming the unreachable store */
  lemma StoreDownDiscardsSummary(state: StateValue, w: World)
    requires Fetch(w, NodeCity(state)).Ok? && EmbeddingModel(w).Ok? && w.store.health.Down?
    ensures WeatherNode(state, w).answer == WeatherUnavailablePrefix + UnreachableMessage(w.settings.qdrantUrl)
  {
  }

  /** A summary that was produced but could not be stored is not shown: the answer is the
      degraded one naming the storage error */
  lemma PersistFailureDiscardsSummary(state: StateValue, w: World)
    requires Fetch(w, NodeCity(state)).Ok? && EmbeddingModel(w).Ok? && w.store.health.Up?
    requires w.persist(Summary(w, Fetch(w, NodeCity(state)).value, NodeCity(state)), NodeCity(state)).Failed?
    ensures var summary := Summary(w, Fetch(w, NodeCity(state)).value, NodeCity(state));
      WeatherNode(state, w).answer == WeatherUnavailablePrefix + w.persist(summary, NodeCity(state)).error.message
  {
  }

  /** `rag_answer(question)` in this world, opening the default collection */
  function RagAnswerIn(w: World, question: string): Answer {
    var retriever := GetRetriever(EmbeddingModel(w), w.store, None, w.settings, w.env, w.probe, w.writes);
    RagAnswer(question, retriever, w.search(question), w.legacySearch(question), ChatModel(w), w.chat)
  }

  /** `rag_node`: always the RAG route, with the answer's sources. `rag_answer` catches
      every failure itself, so the node's own degraded branch is never reached here. */
  function RagNode(state: StateValue, w: World): (n: NodeResult)
    ensures n.route == "rag" && n.sources.Some?
    ensures n.answer == RagAnswerIn(w, ExtractQuestion(state)).answer
    ensures n.sources.value == RagAnswerIn(w, ExtractQuestion(state)).sources
  {
    var res := RagAnswerIn(w, ExtractQuestion(state));
    NodeResult(res.answer, "rag", Some(res.sources))
  }

  /** A RAG node whose retriever cannot be opened answers with the degraded text and an
      empty source list */
  lemma RagNodeWithoutStore(state: StateValue, w: World)
    requires EmbeddingModel(w).Ok? && w.store.health.Down?
    ensures RagNode(state, w).sources == Some([])
    ensures IsPrefix(UnavailablePrefix, RagNode(state, w).answer)
    ensures RagNode(state, w).answer == UnavailablePrefix + UnreachableMessage(w.settings.qdrantUrl)
  {
  }

  /** The conditional edges out of the start node */
  const Edges: map<string, string> := map["weather" := "weather", "rag" := "rag"]

  /** The node the start edge leads to */
  function NextNode(state: StateValue): (node: string)
    ensures node == RouteName(ClassifyRoute(state))
    ensures node == "weather" <==> ClassifyRoute(state) == WeatherRoute
  {
    Edges[RouteName(ClassifyRoute(state))]
  }

  /** One run of the compiled graph: classify, run the chosen node, stop */
  function Invoke(state: StateValue, w: World): (n: NodeResult)
    ensures n.route == NextNode(state)
    ensures n.route == "weather" ==> n == WeatherNode(state, w)
    ensures n.route == "rag" ==> n == RagNode(state, w)
  {
    if NextNode(state) == "weather" then WeatherNode(state, w) else RagNode(state, w)
  }

  /** The graph's answer comes from exactly the node the classifier names, and the route
      it reports is that node's */
  lemma InvokeFollowsClassifier(state: StateValue, w: World)
    ensures ClassifyRoute(state) == WeatherRoute ==> Invoke(state, w) == WeatherNode(state, w)
    ensures ClassifyRoute(state) == RagRoute ==> Invoke(state, w) == RagNode(state, w)
    ensures Invoke(state, w).route == RouteName(ClassifyRoute(state))
  {
  }
}
