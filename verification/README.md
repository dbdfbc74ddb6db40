# Weather-and-documents question router, modelled in Dafny

The system answers a natural-language question along one of two routes. Questions that
mention the weather go to a live weather lookup, and everything else goes to
retrieval-augmented generation over ingested PDF chunks. Weather summaries and document
chunks are kept in a Qdrant collection. Before using the collection, the system reconciles
its vector size with the dimension of whichever embedding backend is active.

This project models the deterministic decision logic between the outside services. Each
file holds one module:

- `graph.dfy` (`Graph`): the router.
  - How the question is pulled out of the graph state.
  - The case-insensitive substring keyword classifier.
  - The city heuristic: the last piece of the question split on `" in "`.
  - The weather and RAG nodes and their catch-all degraded answers.
  - The start edge that dispatches to the node the classifier names.
- `weather.dfy` (`Weather`):
  - sanitising a location name;
  - fetching current conditions with the single 404 retry on the last token;
  - the deterministic fallback summary.
- `vectorstore.dfy` (`VectorStore`):
  - the reachability check;
  - collection creation;
  - reading a collection's vector size back;
  - the dimension probe, which defaults to 384;
  - the reconciliation of a collection with the probed dimension. A mismatch error is raised there and then discarded.
- `embeddings.dfy` (`Embeddings`): the priority order in which the embeddings backend is chosen.
- `llm.dfy` (`Llm`):
  - the priority order in which the chat backend is chosen;
  - the conversion of chat messages to role/content records;
  - the answer prompt and its default system text;
  - `format_output`.
- `rag.dfy` (`Rag`):
  - opening a retriever (k = 4 by default);
  - retrieval with its legacy fall-back;
  - the context joined by blank lines;
  - one source per retrieved document;
  - the degraded answer;
  - the ingestion record.
- `text.dfy` (`Text`), `config.dfy` (`Config`) and `results.dfy` (`Results`) hold shared pieces:
  - the Python string operations the code relies on: `lower`, `strip`, `in`, `split(sep)[-1]`, `split()` and `join`;
  - the environment, as a map in which an unset variable differs from an empty one;
  - the settings record;
  - the `Option`, `Result` and exception values.

Outside services are parameters and never calls:

- the weather service is a function from the `q` query to the reply;
- chat generation and retrieval are functions of their inputs;
- the vector database is a value, and the client calls are functions on it;
- the embedding probe and other construction outcomes are plain values.

`Graph.World` collects all of them for the nodes.

## Model

| member | source | states |
|---|---|---|
| Graph.ExtractQuestion | src/graph.py:25-37 | The question is found in a fixed order: a string `question` field, then a string `input.question`, then a string `input`; otherwise it is the printed state. |
| Graph.ExtractQuestionOfRouterState | src/graph.py:27-29 | A string `question` is taken whatever else the state holds. A state that is itself a string is its own question. |
| Graph.ExtractQuestionOfWrappedInput | src/graph.py:30-35 | A question wrapped as a string `input`, or as the string `question` of a dict `input`, is recovered unchanged when the state has no string `question` of its own. |
| Graph.AnyKeyword | src/graph.py:44 | `any(k in text ...)` holds exactly when some keyword occurs as a substring of the text. |
| Graph.ClassifyQuestion | src/graph.py:41-44 | The route is weather if and only if one of the six keywords occurs in the lower-cased question. |
| Graph.ClassifyRoute | src/graph.py:40-49 | Classification always yields one of the two route names, "weather" or "rag", for any state. Weather is chosen if and only if a keyword occurs in the lower-cased extracted question. |
| Graph.ClassifyIgnoresCase | src/graph.py:41 | Lower-casing the question first does not change the route. |
| Graph.TrainRoutesToWeather | src/graph.py:43-44 | "train" is routed to weather, because the test matches "rain" inside a word. |
| Graph.WindowRoutesToWeather | src/graph.py:43-44 | "window" is routed to weather, because it contains "wind". |
| Graph.WeatherQuestionRoutesToWeather | src/graph.py:41-44 | "What's the weather in London?" is routed to weather. |
| Graph.DocumentQuestionRoutesToRag | src/graph.py:41-44 | "who wrote the pdf?" is routed to rag, because none of the six keywords occurs in it: each keyword has a character the question lacks. |
| Graph.ExtractCity | src/graph.py:66-72 | The city is never empty. Without `" in "` in the lower-cased question it is "London". Otherwise it is the last piece of the question as written, split on `" in "`, with ` ?!.,` trimmed from both ends, or "London" when that is empty. |
| Graph.CityFollowsLastIn | src/graph.py:69-70 | When the question holds `" in "` and the trimmed last piece is not empty, the city holds no `" in "` of its own. It is taken from the last piece of `split(" in ")`, which is what follows the last separator that the left-to-right split finds. |
| Graph.UpperCaseInKeepsWholeQuestion | src/graph.py:69-70 | The test runs on the lower-cased text but the split runs on the original. So when only the lower-cased question contains `" in "`, the city is the whole trimmed question. |
| Graph.CityOfTokyoQuestion | src/graph.py:67-72 | "What's the weather in Tokyo?" asks about "Tokyo". |
| Graph.CityOfQuestionWithoutIn | src/graph.py:68-72 | "What's the weather?" asks about the default city "London". |
| Graph.WeatherSteps | src/graph.py:74-93 | A failed fetch is the result. A successful run yields the summary of the fetched reading. After a fetch, a failure to build the embeddings is the result, and so is the unreachable-store error when the store does not answer. When all of those succeed, a failed persist becomes the error, and otherwise the result is the summary. |
| Graph.WeatherNode | src/graph.py:52-107 | The node always reports route "weather" and sets no sources. When every step of the `try` succeeds the answer is the summary. When any step raises, the answer is "Weather lookup unavailable right now. Details: " followed by exactly that exception's text. |
| Graph.WeatherNodeWithoutKey | src/graph.py:103-107 | Without an OpenWeather key, the answer is the degraded text naming the missing key. |
| Graph.WeatherNodeFetchFailure | src/graph.py:74 | A failed fetch gives the degraded text with that error's message. |
| Graph.WeatherNodeEchoesKey | src/graph.py:74-107 | When the weather service answers the last request with an error status, the degraded weather answer contains the API key, for a key of unreserved characters. |
| Graph.WeatherNodeSuccess | src/graph.py:99-102 | When every step succeeds, the answer is the summary for the extracted city. |
| Graph.EmbeddingsFailureDiscardsSummary | src/graph.py:74-107 | A summary produced while no embeddings backend can be built is dropped. The answer is the degraded text followed by the embeddings error's text. |
| Graph.StoreDownDiscardsSummary | src/graph.py:78-107 | A summary produced while the vector database does not answer is dropped. The answer is the degraded text naming the "Qdrant is not reachable" error. |
| Graph.PersistFailureDiscardsSummary | src/graph.py:78-107 | If storing the summary fails, the summary is dropped and the answer is the degraded text naming the storage error. |
| Graph.RagNode | src/graph.py:110-122 | The node always reports route "rag". Its answer and sources are those `rag_answer` returns for the extracted question. |
| Graph.RagNodeWithoutStore | src/graph.py:112-122 | With the vector database unreachable, the node answers "RAG unavailable. Details: " followed by the reachability error, with an empty source list. |
| Graph.NextNode | src/graph.py:136 | The start edge leads to the node named by the route, and to the weather node exactly when the route is weather. |
| Graph.Invoke | src/graph.py:131-139 | One run reports the route of the node it ran, and the update it returns is exactly that node's update. |
| Graph.InvokeFollowsClassifier | src/graph.py:136-138 | Every question is answered by the node that `classify_route` names. |
| Weather.DropTrailingPunct | src/weather.py:15 | Exactly the longest trailing run of `?!.,` is removed. The kept text is a prefix of the input, every removed character is punctuation, and the kept text does not end in punctuation. Before one final newline the run ahead of it is removed and the newline stays. |
| Weather.KeepNonStop | src/weather.py:18 | Every kept token is an input token whose lower-cased form is not a stop-word, and every such input token is kept; no more tokens come out than went in. |
| Weather.KeepNonStopSingle | src/weather.py:18 | A single token is kept if and only if its lower-cased form is not a stop-word. |
| Weather.KeepNonStopAppend | src/weather.py:18 | Filtering a concatenation filters each part and concatenates the results. With the single-token case this fixes the output as the non-stop-words of the input, in order and with repetitions. |
| Weather.SanitizeCity | src/weather.py:13-19 | The tokens of the result are the surviving tokens of the cleaned name, in order. No token is a stop-word, in any case. The result has no edge whitespace, and it is those tokens joined by single spaces. |
| Weather.Cleaned | src/weather.py:15 | definition: the trailing punctuation run is removed, then surrounding whitespace is stripped. |
| Weather.SanitizeParisNow | src/weather.py:15-19 | "Paris now?" becomes "Paris". |
| Weather.SanitizeNewYorkToday | src/weather.py:16-19 | "New York today" becomes "New York". |
| Weather.SanitizeParisDotNow | src/weather.py:15-19 | "Paris. now" becomes "Paris.", because only a trailing run of punctuation is removed and only before tokenising. |
| Weather.SanitizeNotIdempotent | src/weather.py:15 | Sanitising twice differs from sanitising once: "Paris. now" gives "Paris." and then "Paris". |
| Weather.Accept | src/weather.py:31-33 | A reply with status from 400 to 599 raises an HTTP error with that status, whose text is "<status> Client Error: <reason> for url: <url>" (or "Server Error" from 500) for the URL the request was sent to. An unreachable service raises its error. Any other reply yields exactly its JSON outcome. |
| Weather.QueryEncode | src/weather.py:29-30 | `quote_plus` of a query value, as `urlencode` applies it: every character of the result is unreserved, `+` or `%`, so no `&` or `=` appears inside a value. |
| Weather.RequestUrl | src/weather.py:27-30 | definition: the endpoint, then `q`, `appid` and `units=metric` in that order, each value encoded. |
| Weather.HttpErrorMessage | src/weather.py:31-33 | definition: the text `raise_for_status` gives an error status, "<status> Client Error: <reason> for url: <url>", with "Server Error" from 500. |
| Weather.QueryEncodeUnreserved | src/weather.py:29-30 | A query value made of unreserved characters (letters, digits, `_.-~`) is placed in the URL as it is. |
| Weather.RequestUrlCarriesKey | src/weather.py:27-30 | The request URL holds the encoded key between `&appid=` and the next `&`. |
| Weather.HttpErrorNamesUrl | src/weather.py:31-33 | The HTTP error text ends with the requested URL. |
| Weather.HttpErrorEchoesKey | src/weather.py:27-33 | For a key of unreserved characters, the HTTP error text of any request contains the API key, because the URL it names carries the `appid` parameter. |
| Weather.FetchErrorEchoesKey | src/weather.py:22-42 | When the last request `fetch_weather` sends is answered with an error status, it raises, and the error text contains an API key of unreserved characters. |
| Weather.RetryQueryWhenSeveralWords | src/weather.py:36-37 | For a sanitised name, a retry query exists if and only if the name has at least two tokens, and the query is the last token. |
| Weather.RetryQuery | src/weather.py:37-38 | A retry query, when there is one, is the last token of the name and differs from the whole name. |
| Weather.FetchSanitized | src/weather.py:28-42 | The first request uses the sanitised name. A second request, with the last token, is made if and only if the first reply is a 404 and the name has several tokens. The result is that of the last request. |
| Weather.FetchWeather | src/weather.py:22-42 | A missing API key raises before any request. Otherwise the first request uses the sanitised name, at most two are sent, and the result is the reply to the last one. |
| Weather.FetchWeatherRetry | src/weather.py:28-38 | With a key, a second request is sent if and only if the first reply is a 404 and the sanitised name has several tokens. That request uses the name's last token. |
| Weather.JoinOptional | src/weather.py:81 | Appending an optional sentence to a joined list adds it after one space, or adds nothing. |
| Weather.FallbackSummary | src/weather.py:70-81 | The fallback summary starts with "Current conditions in {city}: {desc}.". After it come the temperature, humidity and wind sentences, each only when the field is present and in that order, each preceded by one space. |
| Weather.SummarizeWeather | src/weather.py:45-81 | The summary is the model's text when the model path succeeds. After any failure on that path it is exactly the fallback summary, which begins by naming the city, and which is the headline alone when no reading field is present. |
| VectorStore.EnsureQdrantReady | src/vectorstore.py:19-28 | The check passes if and only if the server answers. Otherwise it raises the "Qdrant is not reachable" error naming the URL. |
| VectorStore.UnreachableMessage | src/vectorstore.py:24-27 | definition: the fixed "Qdrant is not reachable" advice followed by `Tried: ` and the URL. |
| VectorStore.EnsureCollection | src/vectorstore.py:31-44 | A cosine collection of the given size is created only when it is absent and a size is given. A failed creation, or a server that does not answer, raises. An existing collection is left unchanged. Nothing else in the store changes. |
| VectorStore.ExistingVectorSize | src/vectorstore.py:47-63 | For a readable collection, the result is the parameters' size, the `size` entry of a dict-shaped configuration, or `None` when there are no vectors. It is `None` when the collection is unreadable or absent. |
| VectorStore.DetectEmbeddingDimension | src/vectorstore.py:66-75 | The dimension is always positive. It is the length of a non-empty probe vector, or 384 when the probe fails or is empty. |
| VectorStore.ResolveCollection | src/vectorstore.py:80 | A missing or empty name resolves to the configured default collection. |
| VectorStore.AutoRecreate | src/vectorstore.py:90 | definition: `QDRANT_AUTO_RECREATE`, stripped and lower-cased, equals "true". |
| VectorStore.MismatchMessage | src/vectorstore.py:100-104 | definition: the mismatch text with the collection, the existing size and the probed size. |
| VectorStore.MismatchMessageNamesCollection | src/vectorstore.py:100-104 | The mismatch error names the collection. |
| VectorStore.MismatchMessageNamesExisting | src/vectorstore.py:100-104 | The mismatch error names the existing dimension. |
| VectorStore.MismatchMessageNamesDimension | src/vectorstore.py:100-104 | The mismatch error names the probed dimension. |
| VectorStore.Reconcile | src/vectorstore.py:84-106 | Nothing but the named collection is touched, and only a creation, a recreation or a drop changes the store. The report is "created" exactly when the collection was absent and its creation went through. Afterwards the collection is present unless a creation failed. |
| VectorStore.ReconcileCreates | src/vectorstore.py:85-87 | An absent collection is created empty at the probed dimension when the creation goes through. |
| VectorStore.ReconcileCreateFails | src/vectorstore.py:40-44 | A failed creation of an absent collection is swallowed. The store is unchanged and the collection stays absent. |
| VectorStore.ReconcileMatches | src/vectorstore.py:86-88 | A collection of the same dimension causes no store mutation. |
| VectorStore.ReconcileUnchecked | src/vectorstore.py:87-88 | A collection whose size cannot be read is left alone. |
| VectorStore.ReconcileMismatch | src/vectorstore.py:88-104 | Without the flag the store is unchanged, and the error naming both dimensions is what was raised. With the flag, a failed drop leaves the store unchanged. A drop whose re-creation fails leaves the collection gone. When both go through, the collection is recreated empty at the new dimension. |
| VectorStore.GetVectorstore | src/vectorstore.py:78-106 | The only error that escapes is unreachability. Otherwise the call binds the resolved collection at the probed dimension, after reconciliation governed by `QDRANT_AUTO_RECREATE`. |
| VectorStore.ReconcileLeavesCollection | src/vectorstore.py:84-98 | The collection is present afterwards if and only if no creation failed. After creation, a match or recreation, the stored size equals the probed dimension. |
| VectorStore.ReconcileIdempotent | src/vectorstore.py:86-98 | Reconciling twice with the same dimension and write outcomes mutates nothing the second time, unless the first run dropped the collection and could not recreate it. |
| VectorStore.DroppedCollectionComesBack | src/vectorstore.py:40-44 | A collection that was dropped and not recreated is created again, empty and at the probed dimension, by the next run whose creation goes through. |
| VectorStore.GetVectorstoreIdempotent | src/vectorstore.py:78-106 | Opening the same collection again with the same probe leaves the store as the first call left it, unless the first call dropped the collection and could not recreate it. |
| VectorStore.MismatchIsSwallowed | src/vectorstore.py:99-106 | On a mismatch without the flag, `get_vectorstore` still returns normally, with the collection untouched and the error discarded. |
| VectorStore.MismatchRecreates | src/vectorstore.py:88-98 | On a mismatch with the flag, where the drop and the creation go through, the collection becomes an empty cosine collection of the probed dimension. |
| VectorStore.FailedDropKeepsMismatch | src/vectorstore.py:88-106 | On a mismatch with the flag but a failed drop, the creation is refused on the still-taken name. The call returns normally, and the mismatching collection keeps its size and points. |
| VectorStore.ReconcilePreservesWellFormed | src/vectorstore.py:84-98 | If every stored vector had its collection's size before reconciliation, it still does afterwards. |
| Embeddings.GoogleBranch | src/embeddings.py:33-40 | The Google branch succeeds if and only if the library is installed, the stripped key is non-empty and the construction succeeds. It then carries the key and `GOOGLE_EMBEDDINGS_MODEL`, default "text-embedding-004". Otherwise the error is the first of: missing library, missing key, construction failure. |
| Embeddings.PastGoogle | src/embeddings.py:42-85 | A forced local backend makes no remote call and fails with an import error when its library is missing. Otherwise the endpoint is pinged if and only if a token exists, and it is used if and only if that ping succeeds, as the endpoint for the given model with the configured token. Failing that, the local fall-back is used. This path never yields Google embeddings. |
| Embeddings.BuildEmbeddings | src/embeddings.py:15-85 | The Google branch is taken if and only if `EMBEDDINGS_PROVIDER` is "google", or a stripped key is present and the provider is not "local". It comes first and fails on a missing library, a missing key or a failed construction. A forced local backend makes no remote call. The remote backend, for the given model and the configured token, is returned if and only if a token exists and the ping succeeds. Otherwise the call falls through to the local backend: it fails if the library is missing, and a failed construction of the local model propagates. |
| Embeddings.WantsGoogle | src/embeddings.py:30-32 | definition: the provider is "google", or a stripped key is present and the provider is not "local". |
| Embeddings.LocalBackendWithKeyWantsGoogle | src/embeddings.py:30-32 | With `GOOGLE_API_KEY=k` and `EMBEDDINGS_BACKEND=local` but no provider, the Google branch is wanted, with key "k". |
| Embeddings.LocalEmbeddings | src/embeddings.py:80-85 | The local model is returned if and only if its construction succeeds, with the `EMBEDDINGS_DEVICE` device (default "cpu"). Otherwise the construction error is the result. |
| Embeddings.FailureOutsideGoogleIsLocalConstruction | src/embeddings.py:43-85 | With the local library installed, a failure outside the Google branch is the error raised by constructing the local model. |
| Embeddings.BackendLocalDoesNotOverrideGoogle | src/embeddings.py:30-44 | `EMBEDDINGS_BACKEND=local` with a Google key and no provider still takes the Google branch, with no remote call. The result is the Google backend, or the error from its construction. |
| Llm.Role | src/llm.py:65-72 | System maps to "system", AI to "assistant", and Human or any other kind to "user", in both directions. |
| Llm.ConvertMessages | src/llm.py:62-75 | There is one entry per message, in order, with the role as above and the content kept. |
| Llm.HfToken | src/llm.py:119-124 | The token is `HF_TOKEN` when that is non-empty, else `HUGGINGFACEHUB_API_TOKEN`, else `HUGGING_FACE_HUB_TOKEN`, else the settings key. It is empty if and only if all four are unset or empty. |
| Llm.HfProvider | src/llm.py:131 | The provider is the stripped `HF_PROVIDER`, or "nscale" when that is unset or blank. |
| Llm.BuildLlm | src/llm.py:94-144 | `LLM_BACKEND=local` wins over every other setting and is the only way to get a local backend. The local model name defaults to `google/flan-t5-small`. Past that, the Google branch runs exactly when Google is wanted, and the Hugging Face branch runs otherwise. |
| Llm.WantsGoogle | src/llm.py:107-109 | definition: `LLM_PROVIDER` is "google", or no provider is named and a Google key exists. |
| Llm.BuildGoogle | src/llm.py:108-116 | The Google branch succeeds if and only if a key exists, the library is installed and the chat model can be constructed. It carries that key and the model from `GOOGLE_LLM_MODEL` or the settings. A missing key, then a missing library, then a failed construction, is the error. |
| Llm.BuildHf | src/llm.py:118-144 | Without a token the Hugging Face branch raises. It succeeds if and only if a token exists and the client can be constructed; a failed construction raises the "Failed to initialize HF InferenceClient" error followed by the construction error's text. The backend carries the configured model, the chosen provider and the token. |
| Llm.BuildLlmChoosesGoogle | src/llm.py:104-116 | Outside the local backend, Google is returned if and only if it is wanted, keyed, installed and constructed. |
| Llm.BuildLlmGoogleNeedsKey | src/llm.py:109-112 | `LLM_PROVIDER=google` without a key raises, whatever else is configured. |
| Llm.BuildLlmNeedsToken | src/llm.py:119-128 | When neither the local backend nor Google is chosen, a missing Hugging Face token raises. |
| Llm.BuildLlmHfBackend | src/llm.py:118-139 | A Hugging Face backend comes only from the non-Google path. It carries the provider from `HF_PROVIDER` and the first non-empty token. |
| Llm.BuildAnswerPrompt | src/llm.py:170-174 | The default system text is used exactly when the instructions are empty. |
| Llm.Render | src/llm.py:175-183 | definition: a system message with the prompt's text, then a human message with the context and question filled into the template. |
| Llm.RenderedRoles | src/llm.py:175-183 | The prompt renders as a system message followed by a user message that begins with the context. |
| Llm.FormatOutput | src/llm.py:186-191 | A message object gives its content, and anything else gives its printed form. |
| Llm.RunChain | src/rag.py:77-81 | A failed `build_llm` is raised unchanged. Otherwise a failed generation is raised unchanged, and a successful one is passed through `format_output`. |
| Rag.GetRetriever | src/rag.py:62-65 | Errors from building embeddings and then opening the store propagate unchanged; an unreachable store raises the "Qdrant is not reachable" error naming the URL. The retriever searches the resolved collection with the requested k. |
| Rag.DefaultRetrieverAsksForFour | src/rag.py:62-65 | With no k given, the retriever asks for 4 documents. |
| Rag.Retrieve | src/rag.py:72-75 | Documents come from `invoke`, or from the legacy call when `invoke` raised. |
| Rag.PageContents | src/rag.py:76 | There is one page text per document, in retrieval order. |
| Rag.Context | src/rag.py:76 | definition: the page contents joined by a blank line. |
| Rag.Sources | src/rag.py:82 | There is exactly one metadata entry per retrieved document, in the same order. |
| Rag.ContextSnoc | src/rag.py:76 | One more document appends a blank line and its text to the context. |
| Rag.ContextContainsEveryPage | src/rag.py:76 | Every retrieved page's text occurs in the context. |
| Rag.Unavailable | src/rag.py:83-84 | The degraded answer starts with "RAG unavailable. Details: " and has no sources. |
| Rag.RagAnswer | src/rag.py:68-84 | The function never raises. A failure to open the retriever, to retrieve or to generate gives the degraded answer with empty sources. Otherwise the answer is the generation over the joined context, with one source per document. |
| Rag.AnswerSteps | src/rag.py:69-82 | definition: open the retriever, retrieve, generate over the context; the first error ends it, else the answer with its sources. |
| Rag.AnswerSourcesMatchRetrieval | src/rag.py:82-84 | Every answer is either degraded or carries exactly the sources of the retrieved documents. |
| Rag.IngestPdf | src/rag.py:29-59 | Errors from loading, building embeddings, opening the store and adding propagate unchanged, in that order. On success, `num_chunks` equals the number of chunks, the collection is the resolved one, and the ids are those returned by the add. |
| Rag.IngestThenRetrieve | src/rag.py:43-65 | After a successful ingestion, a retriever opened with the same arguments on the store that ingestion's reconciliation left behind succeeds. It binds the collection the chunks went into, at the same dimension. Unless that reconciliation dropped the collection, opening the retriever writes nothing more to the store. |
| Config.GetEnv | src/llm.py:131 | `os.getenv(key, default)`: the variable's value when it is set, even empty, and the default only when it is unset. |
| Config.EnvOr | src/llm.py:108 | `os.getenv(key) or fallback`: the variable's value when it is set and non-empty, else the fallback. |
| Config.Flag | src/llm.py:101-102 | `os.getenv(key, "").strip().lower()`: empty for an unset variable, and already lower-case. |
| Text.SplitLast | src/graph.py:70 | `split(sep)[-1]` is a suffix that holds no separator. It is the whole text when there is no separator, and otherwise what follows one. |
| Text.Trim | src/graph.py:70 | `strip(chars)` leaves a substring that neither starts nor ends with a stripped character, and it is what removing the leading and then the trailing run leaves. |
| Text.WordsOfJoin | src/weather.py:17-19 | Joining whitespace-free tokens with single spaces and splitting them again gives back the same tokens. |

## Left out

- Network and SDK calls are not modelled. These are HTTP requests, the inference client, Qdrant RPCs, and constructing Google or Hugging Face models. Each enters as a parameter giving its outcome, and `Graph.World` lists them. A construction outside any `try` propagates its failure, as in the source. `get_qdrant_client` (src/vectorstore.py:12-16) only constructs a client and is not modelled.
- The asyncio event-loop fall-backs are runtime plumbing, so they are left out. They sit at src/graph.py:54-63 and 82-93, src/rag.py:30-39 and 46-58, src/weather.py:55-65, and src/vectorstore.py:107-116.
- Logging and `print` calls are left out.
- PDF loading and the recursive character splitter are not modelled: ingestion receives the chunks as an outcome. The 1000/150 chunk parameters belong to the splitter and are left out with it.
- Temperature, humidity and wind values are opaque printed strings, and the degree-sign literal is kept as the source file spells it.
- Weather.SummarizeWeather: always returns a string, but the source's fallback (src/weather.py:68-81) runs inside the `except` handler and itself raises for payloads the reading type cannot express: a `weather` value that is null, empty, not a list or whose first element is not a dict (src/weather.py:70); a `main` value that is null or not a dict (src/weather.py:71-72); a `wind` value that is null or not a dict (src/weather.py:73). Such an error would reach the weather node's catch-all.
- The vector-store effects of a weather node are not threaded out of `Graph.WeatherNode`. These are reconciliation and adding the summary. Ingestion likewise does not return the store with the added points.
- `rag_node`'s own degraded branch (src/graph.py:123-128) cannot be reached in the model. This is because `rag_answer` catches every exception itself. Exceptions outside `Exception`, such as a keyboard interrupt, are not modelled.
- Text.Lower: lower-cases ASCII letters only, whereas Python's `str.lower` covers all of Unicode. Every keyword, stop-word and flag value the code compares against is ASCII.
- VectorStore.ExistingVectorSize: a dict-shaped configuration whose `"size"` is not an integer is treated like an absent size. The caller treats both alike.
- VectorStore.EnsureCollection: existence is decided by presence in the store. For a collection that exists but reports a falsy `status`, the source would issue a creation call; this is not modelled.
- `str(exc)` of an exception is its message.
- Weather.FetchSanitized: the URL an HTTP error names is the request URL; a redirect, which would make `requests` name the final URL instead, is not modelled.
- Weather.HttpErrorEchoesKey: the key is shown to appear verbatim only when it consists of unreserved characters; any other key appears percent-encoded.
- VectorStore.Reconcile: after a failed drop the source's creation call is refused by the server, and the text of that refusal is not modelled. `NotDropped` carries the drop's error instead. Each write outcome is one value per world, shared by every reconciliation in it.
- A failed persist of the weather summary (src/graph.py:78-93) reaches the node's catch-all (src/graph.py:103-107). The catch-all replaces the summary with the degraded answer, as `Graph.PersistFailureDiscardsSummary` states.
- Graph.DocumentQuestionRoutesToRag: covers the one literal question "who wrote the pdf?". That every keyword-free question goes to rag is the "if and only if" of `Graph.ClassifyQuestion`.
- Graph.Invoke: returns the update of the node that ran, not the input state merged with it. The merged keys, such as the original `question`, are not modelled.
- The settings loader (`config.py`) is not part of this model. `Config.Settings` holds the already-resolved values.
- The Streamlit UI, the command-line ingestion wrapper and the integration tests are outside the modelled core.
