/**
 Embedding-backend selection (src/embeddings.py): the priority order in which
 `build_embeddings` picks Google, a forced local model, the remote Hugging Face
 endpoint or the local fall-back, and the errors it raises on the way.

 Constructing an embeddings object is outside the model: the outcomes of
 constructing the Google and the local embeddings objects are parameters, and so
 is the one remote call the selector itself makes (construct the endpoint client
 and embed `"ping"`), as `hfPing`.
 */
module Embeddings {
  import opened Results
  import opened Text
  import opened Config

  /** The default sentence-embedding model */
  const DefaultModel := "BAAI/bge-small-en-v1.5"

  datatype EmbeddingBackend =
    | GoogleEmbeddings(model: string, apiKey: string)
    | RemoteHf(repoId: string, token: string)
    | LocalHf(model: string, device: string)

  /** What `build_embeddings` returned or raised, and whether it made the remote `"ping"` call */
  datatype Selection = Selection(result: Result<EmbeddingBackend>, pinged: bool)

  /** `GOOGLE_API_KEY`, stripped */
  function GoogleKey(env: Env): string {
    Strip(GetEnv(env, "GOOGLE_API_KEY", ""))
  }

  /** The Google branch is taken when requested, or when a key exists and local is not requested */
  predicate WantsGoogle(env: Env) {
    var provider := Flag(env, "EMBEDDINGS_PROVIDER");
    provider == "google" || (GoogleKey(env) != "" && provider != "local")
  }

  /** The local model as both local branches build it */
  function Local(env: Env, model: string): EmbeddingBackend {
    LocalHf(model, GetEnv(env, "EMBEDDINGS_DEVICE", "cpu"))
  }

  const GoogleLibraryMissing := "langchain-google-genai is not installed. Add it to requirements.txt and pip install."
  const GoogleKeyRequired := "GOOGLE_API_KEY is required for Google embeddings"
  const LocalLibraryMissing := "No module named 'langchain_community'"
  const NoBackendMessage := "Hugging Face Inference API unavailable and local embeddings backend is missing. Ensure `langchain-community` and `sentence-transformers` are installed."

  /** The local model, or the error its construction raised; both local branches construct
      it outside any `try`, so that error escapes `build_embeddings` */
  function LocalEmbeddings(env: Env, model: string, localInit: Outcome): (r: Result<EmbeddingBackend>)
    ensures r.Ok? <==> localInit.Done?
    ensures r.Ok? ==> r.value == LocalHf(model, GetEnv(env, "EMBEDDINGS_DEVICE", "cpu"))
    ensures r.Err? ==> r.error == localInit.error
  {
    if localInit.Failed? then Err(localInit.error) else Ok(Local(env, model))
  }

  /** The Google branch: the library, then the key, then the construction must succeed */
  function GoogleBranch(env: Env, libs: Libraries, googleInit: Outcome): (r: Result<EmbeddingBackend>)
    ensures r.Ok? <==> libs.googleGenai && GoogleKey(env) != "" && googleInit.Done?
    ensures r.Ok? ==> r.value == GoogleEmbeddings(GetEnv(env, "GOOGLE_EMBEDDINGS_MODEL", "text-embedding-004"), GoogleKey(env))
    ensures !libs.googleGenai ==> r == Err(Exception(RuntimeError, GoogleLibraryMissing))
    ensures libs.googleGenai && GoogleKey(env) == "" ==> r == Err(Exception(RuntimeError, GoogleKeyRequired))
    ensures libs.googleGenai && GoogleKey(env) != "" && googleInit.Failed? ==> r == Err(googleInit.error)
  {
    if !libs.googleGenai then Err(Exception(RuntimeError, GoogleLibraryMissing))
    else if GoogleKey(env) == "" then Err(Exception(RuntimeError, GoogleKeyRequired))
    else if googleInit.Failed? then Err(googleInit.error)
    else Ok(GoogleEmbeddings(GetEnv(env, "GOOGLE_EMBEDDINGS_MODEL", "text-embedding-004"), GoogleKey(env)))
  }

  /** `build_embeddings` past the Google branch: a forced local backend, else the remote
      endpoint when a token exists and the ping succeeds, else the local fall-back */
  function PastGoogle(env: Env, settings: Settings, libs: Libraries, hfPing: bool, localInit: Outcome, model: string)
    : (s: Selection)
    ensures s.result.Ok? ==> !s.result.value.GoogleEmbeddings?
    ensures Flag(env, "EMBEDDINGS_BACKEND") == "local" ==>
      && !s.pinged
      && s.result == (if libs.communityEmbeddings then LocalEmbeddings(env, model, localInit)
                      else Err(Exception(ImportError, LocalLibraryMissing)))
    ensures s.result.Ok? && s.result.value.RemoteHf? <==>
      Flag(env, "EMBEDDINGS_BACKEND") != "local" && settings.huggingfaceApiKey != "" && hfPing
    ensures s.result.Ok? && s.result.value.RemoteHf? ==> s.result.value == RemoteHf(model, settings.huggingfaceApiKey)
    ensures s.pinged <==> Flag(env, "EMBEDDINGS_BACKEND") != "local" && settings.huggingfaceApiKey != ""
    ensures Flag(env, "EMBEDDINGS_BACKEND") != "local" && !(settings.huggingfaceApiKey != "" && hfPing) ==>
      s.result == (if libs.communityEmbeddings then LocalEmbeddings(env, model, localInit)
                   else Err(Exception(RuntimeError, NoBackendMessage)))
  {
    if Flag(env, "EMBEDDINGS_BACKEND") == "local" then
      if libs.communityEmbeddings then Selection(LocalEmbeddings(env, model, localInit), false)
      else Selection(Err(Exception(ImportError, LocalLibraryMissing)), false)
    else
      var pinged := settings.huggingfaceApiKey != "";
      if pinged && hfPing then Selection(Ok(RemoteHf(model, settings.huggingfaceApiKey)), true)
      else if libs.communityEmbeddings then Selection(LocalEmbeddings(env, model, localInit), pinged)
      else Selection(Err(Exception(RuntimeError, NoBackendMessage)), pinged)
  }

  /** `build_embeddings(model)`. `hfPing` says whether constructing the endpoint client and
      embedding `"ping"` succeeded; `googleInit` and `localInit` are the outcomes of
      constructing the Google and the local embeddings objects. */
  function BuildEmbeddings(env: Env, settings: Settings, libs: Libraries, hfPing: bool,
                           googleInit: Outcome, localInit: Outcome, model: string)
    : (s: Selection)
    // the Google branch comes first and never falls through
    ensures WantsGoogle(env) ==> !s.pinged
    ensures WantsGoogle(env) ==> s.result == GoogleBranch(env, libs, googleInit)
    ensures s.result.Ok? && s.result.value.GoogleEmbeddings? <==>
      WantsGoogle(env) && libs.googleGenai && GoogleKey(env) != "" && googleInit.Done?
    // a forced local backend makes no remote call
    ensures !WantsGoogle(env) && Flag(env, "EMBEDDINGS_BACKEND") == "local" ==>
      && !s.pinged
      && s.result == (if libs.communityEmbeddings then LocalEmbeddings(env, model, localInit)
                      else Err(Exception(ImportError, LocalLibraryMissing)))
    // the remote backend needs a token and a successful ping
    ensures s.result.Ok? && s.result.value.RemoteHf? <==>
      !WantsGoogle(env) && Flag(env, "EMBEDDINGS_BACKEND") != "local" && settings.huggingfaceApiKey != "" && hfPing
    ensures s.result.Ok? && s.result.value.RemoteHf? ==> s.result.value == RemoteHf(model, settings.huggingfaceApiKey)
    ensures s.pinged <==>
      !WantsGoogle(env) && Flag(env, "EMBEDDINGS_BACKEND") != "local" && settings.huggingfaceApiKey != ""
    // with the remote backend out, the fall-through needs the local library
    ensures !WantsGoogle(env) && Flag(env, "EMBEDDINGS_BACKEND") != "local" && !(settings.huggingfaceApiKey != "" && hfPing) ==>
      s.result == (if libs.communityEmbeddings then LocalEmbeddings(env, model, localInit)
                   else Err(Exception(RuntimeError, NoBackendMessage)))
  {
    if WantsGoogle(env) then Selection(GoogleBranch(env, libs, googleInit), false)
    else PastGoogle(env, settings, libs, hfPing, localInit, model)
  }

  /** With the local library installed, a failure outside the Google branch is the error the
      local model's construction raised */
  lemma FailureOutsideGoogleIsLocalConstruction(env: Env, settings: Settings, libs: Libraries, hfPing: bool,
                                                googleInit: Outcome, localInit: Outcome, model: string)
    requires libs.communityEmbeddings
    ensures var r := BuildEmbeddings(env, settings, libs, hfPing, googleInit, localInit, model).result;
      r.Err? && !WantsGoogle(env) ==> localInit.Failed? && r == Err(localInit.error)
  {
  }

  /** The environment of the example below wants Google, with key `"k"` */
  lemma LocalBackendWithKeyWantsGoogle()
    ensures var env := map["GOOGLE_API_KEY" := "k", "EMBEDDINGS_BACKEND" := "local"];
      WantsGoogle(env) && GoogleKey(env) == "k"
  {
    var env := map["GOOGLE_API_KEY" := "k", "EMBEDDINGS_BACKEND" := "local"];
    TrimUnchanged("k", IsSpace);
    TrimUnchanged("", IsSpace);
    assert GoogleKey(env) == "k";
    assert Flag(env, "EMBEDDINGS_PROVIDER") == "";
  }

  /** `EMBEDDINGS_BACKEND=local` does not override a present Google key: with
      `GOOGLE_API_KEY` set and no provider named, the Google branch is still taken */
  lemma BackendLocalDoesNotOverrideGoogle(settings: Settings, libs: Libraries, hfPing: bool,
                                          googleInit: Outcome, localInit: Outcome)
    requires libs.googleGenai
    ensures var env := map["GOOGLE_API_KEY" := "k", "EMBEDDINGS_BACKEND" := "local"];
      var s := BuildEmbeddings(env, settings, libs, hfPing, googleInit, localInit, DefaultModel);
      && !s.pinged
      && (googleInit.Done? ==> s.result.Ok? && s.result.value.GoogleEmbeddings?)
      && (googleInit.Failed? ==> s.result == Err(googleInit.error))
  {
    LocalBackendWithKeyWantsGoogle();
  }
}
