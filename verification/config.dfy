/**
 The configuration the modelled code reads: the process environment and the
 cached settings record. Both are plain values handed to the operations.
 */
module Config {
  import opened Text

  /** The process environment; a key that is absent is unset, which differs from set-but-empty */
  type Env = map<string, string>

  /** `os.getenv(key, default)`: the default is used only when the variable is unset */
  function GetEnv(env: Env, key: string, default: string): (r: string)
    ensures key in env ==> r == env[key]
    ensures key !in env ==> r == default
  {
    if key in env then env[key] else default
  }

  /** `os.getenv(key) or fallback`: the fallback is used when the variable is unset or empty */
  function EnvOr(env: Env, key: string, fallback: string): (r: string)
    ensures r == fallback || (key in env && r == env[key] && r != "")
    ensures key in env && env[key] != "" ==> r == env[key]
  {
    if key in env && env[key] != "" then env[key] else fallback
  }

  /** `os.getenv(key, "").strip().lower()`: how every switch-like variable is normalised */
  function Flag(env: Env, key: string): (r: string)
    ensures key !in env ==> r == ""
    ensures Lower(r) == r
  {
    LowerIdempotent(Strip(GetEnv(env, key, "")));
    Lower(Strip(GetEnv(env, key, "")))
  }

  /** The settings record, with every field already resolved to its value (or to the
      default the attribute lookup would supply when the field does not exist) */
  datatype Settings = Settings(
    huggingfaceApiKey: string,
    hfLlmModel: string,
    googleApiKey: string,
    googleLlmModel: string,
    openweatherApiKey: string,
    qdrantUrl: string,
    qdrantApiKey: string,
    qdrantCollection: string
  )

  /** Which optional packages could be imported: `langchain_google_genai`, and the
      `langchain_community` sentence-transformers embeddings */
  datatype Libraries = Libraries(googleGenai: bool, communityEmbeddings: bool)
}
