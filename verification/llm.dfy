/**
 Chat-model selection and prompting (src/llm.py): which chat backend
 `build_llm` picks, how the Hugging Face wrapper turns chat messages into
 role/content records, and the two-message answer prompt.

 Constructing a model and generating text are outside the model; the outcome
 of constructing the remote client or the local pipeline is a parameter, and
 generation is the parameter `chat` of `RunChain`.
 */
module Llm {
  import opened Results
  import opened Text
  import opened Config

  /** The message classes a prompt is made of; `OtherMessage` stands for every other class */
  datatype ChatMessage =
    | SystemMessage(content: string)
    | HumanMessage(content: string)
    | AIMessage(content: string)
    | OtherMessage(content: string)

  /** One entry of the list sent to the chat-completions endpoint */
  datatype RoleContent = RoleContent(role: string, content: string)

  /** The role a message is sent with */
  function Role(m: ChatMessage): (r: string)
    ensures r == "system" <==> m.SystemMessage?
    ensures r == "assistant" <==> m.AIMessage?
    ensures r == "user" <==> m.HumanMessage? || m.OtherMessage?
  {
    match m
    case SystemMessage(_) => "system"
    case HumanMessage(_) => "user"
    case AIMessage(_) => "assistant"
    case OtherMessage(_) => "user"
  }

  /** `HFNScaleChat._convert_messages`: one entry per message, in order, content kept */
  method ConvertMessages(messages: seq<ChatMessage>) returns (converted: seq<RoleContent>)
    ensures |converted| == |messages|
    ensures forall i :: 0 <= i < |messages| ==>
      converted[i].role == Role(messages[i]) && converted[i].content == messages[i].content
  {
    converted := [];
    var i := 0;
    while i < |messages|
      invariant 0 <= i <= |messages|
      invariant |converted| == i
      invariant forall j :: 0 <= j < i ==>
        converted[j].role == Role(messages[j]) && converted[j].content == messages[j].content
    {
      var m := messages[i];
      var role;
      if m.SystemMessage? {
        role := "system";
      } else if m.HumanMessage? {
        role := "user";
      } else if m.AIMessage? {
        role := "assistant";
      } else {
        role := "user";
      }
      converted := converted + [RoleContent(role, m.content)];
      i := i + 1;
    }
  }

  /** The chat backends `build_llm` can return */
  datatype ChatBackend =
    | LocalChat(model: string)
    | GoogleChat(model: string, apiKey: string)
    | HfChat(model: string, provider: string, apiKey: string)

  /** The Google key: the environment variable when set and non-empty, else the settings field
      (not stripped, unlike the embeddings selector) */
  function GoogleKey(env: Env, settings: Settings): string {
    EnvOr(env, "GOOGLE_API_KEY", settings.googleApiKey)
  }

  /** Google is chosen when requested explicitly, or when no provider is named and a key exists */
  predicate WantsGoogle(env: Env, settings: Settings) {
    var provider := Flag(env, "LLM_PROVIDER");
    provider == "google" || (provider == "" && GoogleKey(env, settings) != "")
  }

  /** The variable is unset or empty, so `os.getenv` yields nothing truthy */
  predicate Blank(env: Env, key: string) {
    key !in env || env[key] == ""
  }

  /** The first non-empty Hugging Face token, in the order the variables are consulted */
  function HfToken(env: Env, settings: Settings): (r: string)
    ensures !Blank(env, "HF_TOKEN") ==> r == env["HF_TOKEN"]
    ensures Blank(env, "HF_TOKEN") && !Blank(env, "HUGGINGFACEHUB_API_TOKEN") ==>
      r == env["HUGGINGFACEHUB_API_TOKEN"]
    ensures Blank(env, "HF_TOKEN") && Blank(env, "HUGGINGFACEHUB_API_TOKEN") && !Blank(env, "HUGGING_FACE_HUB_TOKEN") ==>
      r == env["HUGGING_FACE_HUB_TOKEN"]
    ensures Blank(env, "HF_TOKEN") && Blank(env, "HUGGINGFACEHUB_API_TOKEN") && Blank(env, "HUGGING_FACE_HUB_TOKEN") ==>
      r == settings.huggingfaceApiKey
    ensures r == "" <==>
      (forall k :: k in ["HF_TOKEN", "HUGGINGFACEHUB_API_TOKEN", "HUGGING_FACE_HUB_TOKEN"] ==> Blank(env, k))
      && settings.huggingfaceApiKey == ""
  {
    EnvOr(env, "HF_TOKEN",
      EnvOr(env, "HUGGINGFACEHUB_API_TOKEN",
        EnvOr(env, "HUGGING_FACE_HUB_TOKEN", settings.huggingfaceApiKey)))
  }

  /** `HF_PROVIDER`, stripped, with `"nscale"` when unset or blank */
  function HfProvider(env: Env): (r: string)
    ensures r != ""
    ensures "HF_PROVIDER" !in env ==> r == "nscale"
    ensures "HF_PROVIDER" in env && Strip(env["HF_PROVIDER"]) == "" ==> r == "nscale"
    ensures "HF_PROVIDER" in env && Strip(env["HF_PROVIDER"]) != "" ==> r == Strip(env["HF_PROVIDER"])
  {
    TrimUnchanged("nscale", IsSpace);
    var p := Strip(GetEnv(env, "HF_PROVIDER", "nscale"));
    if p != "" then p else "nscale"
  }

  const GoogleKeyRequired := "GOOGLE_API_KEY is required when LLM_PROVIDER=google"
  const GoogleChatMissing := "langchain-google-genai is not installed. Add it to requirements.txt and pip install."
  const NoTokenMessage := "LLM_BACKEND=remote requires a provider API key. Set GOOGLE_API_KEY (preferred) or HF_TOKEN/HUGGINGFACE_API_KEY in .env"
  const ClientInitPrefix := "Failed to initialize HF InferenceClient (provider=nscale). Verify HF_TOKEN (or HUGGINGFACE_API_KEY) and HF_LLM_MODEL. Details: "

  /** `build_llm`. `localBuild` is the outcome of building the local pipeline, `googleInit`
      that of constructing the Google chat model and `clientInit` that of constructing the
      inference client. A local backend request
      wins over every provider setting, and is the only way to a local backend. */
  function BuildLlm(env: Env, settings: Settings, libs: Libraries, localBuild: Outcome, googleInit: Outcome, clientInit: Outcome)
    : (r: Result<ChatBackend>)
    ensures Flag(env, "LLM_BACKEND") == "local" ==>
      r == (if localBuild.Done? then Ok(LocalChat(GetEnv(env, "LOCAL_LLM_MODEL", "google/flan-t5-small")))
            else Err(localBuild.error))
    ensures r.Ok? && r.value.LocalChat? ==> Flag(env, "LLM_BACKEND") == "local"
    // past the local backend, the provider choice picks exactly one branch
    ensures Flag(env, "LLM_BACKEND") != "local" && WantsGoogle(env, settings) ==>
      r == BuildGoogle(env, settings, libs, googleInit)
    ensures Flag(env, "LLM_BACKEND") != "local" && !WantsGoogle(env, settings) ==>
      r == BuildHf(env, settings, clientInit)
  {
    if Flag(env, "LLM_BACKEND") == "local" then
      if localBuild.Done? then Ok(LocalChat(GetEnv(env, "LOCAL_LLM_MODEL", "google/flan-t5-small")))
      else Err(localBuild.error)
    else if WantsGoogle(env, settings) then BuildGoogle(env, settings, libs, googleInit)
    else BuildHf(env, settings, clientInit)
  }

  /** The Google branch of `build_llm` */
  function BuildGoogle(env: Env, settings: Settings, libs: Libraries, googleInit: Outcome): (r: Result<ChatBackend>)
    ensures r.Ok? <==> GoogleKey(env, settings) != "" && libs.googleGenai && googleInit.Done?
    ensures r.Ok? ==> r.value.GoogleChat? && r.value.apiKey == GoogleKey(env, settings)
    ensures r.Ok? ==> r.value.model == EnvOr(env, "GOOGLE_LLM_MODEL", settings.googleLlmModel)
    ensures GoogleKey(env, settings) == "" ==> r == Err(Exception(RuntimeError, GoogleKeyRequired))
    ensures GoogleKey(env, settings) != "" && !libs.googleGenai ==> r == Err(Exception(RuntimeError, GoogleChatMissing))
    ensures GoogleKey(env, settings) != "" && libs.googleGenai && googleInit.Failed? ==> r == Err(googleInit.error)
  {
    var key := GoogleKey(env, settings);
    if key == "" then Err(Exception(RuntimeError, GoogleKeyRequired))
    else if !libs.googleGenai then Err(Exception(RuntimeError, GoogleChatMissing))
    else if googleInit.Failed? then Err(googleInit.error)
    else Ok(GoogleChat(EnvOr(env, "GOOGLE_LLM_MODEL", settings.googleLlmModel), key))
  }

  /** The Hugging Face branch of `build_llm` */
  function BuildHf(env: Env, settings: Settings, clientInit: Outcome): (r: Result<ChatBackend>)
    ensures HfToken(env, settings) == "" ==> r == Err(Exception(RuntimeError, NoTokenMessage))
    ensures r.Ok? <==> HfToken(env, settings) != "" && clientInit.Done?
    ensures HfToken(env, settings) != "" && clientInit.Failed? ==>
      r == Err(Exception(RuntimeError, ClientInitPrefix + clientInit.error.message))
    ensures r.Ok? ==> r.value.HfChat? && r.value.provider == HfProvider(env) && r.value.apiKey == HfToken(env, settings)
    ensures r.Ok? ==> r.value.model == settings.hfLlmModel
  {
    var token := HfToken(env, settings);
    if token == "" then Err(Exception(RuntimeError, NoTokenMessage))
    else if clientInit.Failed? then Err(Exception(RuntimeError, ClientInitPrefix + clientInit.error.message))
    else Ok(HfChat(settings.hfLlmModel, HfProvider(env), token))
  }

  /** Outside the local backend, Google is returned exactly when it is wanted, keyed, installed
      and constructed */
  lemma BuildLlmChoosesGoogle(env: Env, settings: Settings, libs: Libraries, localBuild: Outcome, googleInit: Outcome, clientInit: Outcome)
    requires Flag(env, "LLM_BACKEND") != "local"
    ensures var r := BuildLlm(env, settings, libs, localBuild, googleInit, clientInit);
      r.Ok? && r.value.GoogleChat? <==>
        WantsGoogle(env, settings) && GoogleKey(env, settings) != "" && libs.googleGenai && googleInit.Done?
  {
    if !WantsGoogle(env, settings) {
      assert BuildLlm(env, settings, libs, localBuild, googleInit, clientInit) == BuildHf(env, settings, clientInit);
    }
  }

  /** `LLM_PROVIDER=google` without a key raises */
  lemma BuildLlmGoogleNeedsKey(env: Env, settings: Settings, libs: Libraries, localBuild: Outcome, googleInit: Outcome, clientInit: Outcome)
    requires Flag(env, "LLM_BACKEND") != "local"
    requires Flag(env, "LLM_PROVIDER") == "google" && GoogleKey(env, settings) == ""
    ensures BuildLlm(env, settings, libs, localBuild, googleInit, clientInit) == Err(Exception(RuntimeError, GoogleKeyRequired))
  {
    assert WantsGoogle(env, settings);
  }

  /** Outside the local and Google backends, no Hugging Face token means an error */
  lemma BuildLlmNeedsToken(env: Env, settings: Settings, libs: Libraries, localBuild: Outcome, googleInit: Outcome, clientInit: Outcome)
    requires Flag(env, "LLM_BACKEND") != "local" && !WantsGoogle(env, settings)
    requires HfToken(env, settings) == ""
    ensures BuildLlm(env, settings, libs, localBuild, googleInit, clientInit) == Err(Exception(RuntimeError, NoTokenMessage))
  {
    assert BuildLlm(env, settings, libs, localBuild, googleInit, clientInit) == BuildHf(env, settings, clientInit);
  }

  /** A Hugging Face backend is returned only when Google is not wanted, and carries the
      chosen provider and the first non-empty token */
  lemma BuildLlmHfBackend(env: Env, settings: Settings, libs: Libraries, localBuild: Outcome, googleInit: Outcome, clientInit: Outcome)
    ensures var r := BuildLlm(env, settings, libs, localBuild, googleInit, clientInit);
      r.Ok? && r.value.HfChat? ==>
        !WantsGoogle(env, settings) && r.value.provider == HfProvider(env) && r.value.apiKey == HfToken(env, settings) != ""
  {
    if Flag(env, "LLM_BACKEND") != "local" && !WantsGoogle(env, settings) {
      assert BuildLlm(env, settings, libs, localBuild, googleInit, clientInit) == BuildHf(env, settings, clientInit);
    }
  }

  /** The system text used when no instructions are given */
  const DefaultSystem := "You are a helpful assistant. Answer concisely, cite sources when provided, and do not reveal chain-of-thought."

  /** The chat prompt template; only its system text varies */
  datatype Prompt = Prompt(system: string)

  /** `build_answer_prompt`: the instructions, or the default text when they are empty */
  function BuildAnswerPrompt(instructions: string): (p: Prompt)
    ensures p.system != ""
    ensures instructions != "" ==> p.system == instructions
    ensures instructions == "" ==> p.system == DefaultSystem
  {
    Prompt(if instructions != "" then instructions else DefaultSystem)
  }

  /** The human turn of the template with its two slots filled */
  function HumanTurn(context: string, question: string): string {
    "Context:\n" + context + "\n\nQuestion: " + question + "\n\nRespond with a short, well-structured answer."
  }

  /** The messages the template produces: the system text, then the filled human turn */
  function Render(p: Prompt, context: string, question: string): seq<ChatMessage> {
    [SystemMessage(p.system), HumanMessage(HumanTurn(context, question))]
  }

  /** What invoking a chain yields: a message object with a `content` attribute, or any other
      value, each with its `str()` rendering */
  datatype Generated = WithContent(content: string, shown: string) | Other(shown: string)

  /** `format_output`: the content of a message object, else its `str()` rendering */
  function FormatOutput(g: Generated): (r: string)
    ensures g.WithContent? ==> r == g.content
    ensures g.Other? ==> r == g.shown
  {
    match g
    case WithContent(content, _) => content
    case Other(shown) => shown
  }

  /** `build_llm()` followed by `(prompt | llm).invoke(...)` and `format_output`: a failed
      selection is raised as is, otherwise the chosen backend answers the rendered prompt */
  function RunChain(llm: Result<ChatBackend>, instructions: string, context: string, question: string,
                    chat: (ChatBackend, seq<ChatMessage>) -> Result<Generated>): (r: Result<string>)
    ensures llm.Err? ==> r == Err(llm.error)
    ensures llm.Ok? ==> r.Err? == chat(llm.value, Render(BuildAnswerPrompt(instructions), context, question)).Err?
    ensures llm.Ok? && chat(llm.value, Render(BuildAnswerPrompt(instructions), context, question)).Err? ==>
      r == Err(chat(llm.value, Render(BuildAnswerPrompt(instructions), context, question)).error)
    ensures llm.Ok? && r.Ok? ==>
      r.value == FormatOutput(chat(llm.value, Render(BuildAnswerPrompt(instructions), context, question)).value)
  {
    var backend :- llm;
    var generated :- chat(backend, Render(BuildAnswerPrompt(instructions), context, question));
    Ok(FormatOutput(generated))
  }

  /** The rendered prompt is sent as a system entry then a user entry, and its user entry
      carries the context right after the `Context:` line */
  lemma RenderedRoles(instructions: string, context: string, question: string)
    ensures var ms := Render(BuildAnswerPrompt(instructions), context, question);
      |ms| == 2 && Role(ms[0]) == "system" && Role(ms[1]) == "user"
      && IsPrefix("Context:\n" + context + "\n\nQuestion: ", ms[1].content)
      && (instructions == "" ==> ms[0].content == DefaultSystem)
  {
    var h := HumanTurn(context, question);
    assert h == ("Context:\n" + context + "\n\nQuestion: ") + (question + "\n\nRespond with a short, well-structured answer.");
  }
}
