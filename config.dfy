/**
 * Process configuration read once from the environment. The environment is
 * a map from variable name to value; a variable that is missing and one set
 * to the empty string read the same, as with Go's `os.Getenv`.
 */
module Config {
  import opened Wrappers
  import Decimal

  type Env = map<string, string>

  datatype Config = Config(
    port: string,
    allowOrigins: string,
    authBearer: string,
    tzDefault: string,
    openAIKey: string,
    openAIBaseURL: string,
    llmModel: string,
    whisperModel: string,
    reqTimeoutSec: int,
    rateLimitBurst: int,
    maxUploadMB: int)

  /** What `os.Getenv` answers: the empty string for an unset variable. */
  function Lookup(env: Env, key: string): string
  {
    if key in env then env[key] else ""
  }

  /** `getenv`: the variable when it is non-empty, else the default. */
  function Getenv(env: Env, key: string, def: string): (r: string)
    ensures Lookup(env, key) != "" ==> r == env[key]
    ensures Lookup(env, key) == "" ==> r == def
  {
    var v := Lookup(env, key);
    if v != "" then v else def
  }

  /** `atoi`: the parsed variable when it is set and parses, else the default; it never fails. */
  function Atoi(env: Env, key: string, def: int): (r: int)
    ensures Lookup(env, key) != "" && Decimal.Atoi(env[key]).Some? ==> r == Decimal.Atoi(env[key]).value
    ensures Lookup(env, key) == "" || Decimal.Atoi(Lookup(env, key)).None? ==> r == def
  {
    var v := Lookup(env, key);
    if v != "" then
      match Decimal.Atoi(v)
      case Some(i) => i
      case None => def
    else def
  }

  /**
   * `Load`: every setting with its default; `MaxUploadMB` is `atoi` widened
   * to int64, which keeps the value. A setting with a non-empty default is
   * never empty, and the two with an empty default (the global bearer and
   * the OpenAI key) are exactly what the environment holds.
   */
  function Load(env: Env): (c: Config)
    ensures c.port != "" && c.allowOrigins != "" && c.tzDefault != ""
    ensures c.openAIBaseURL != "" && c.llmModel != "" && c.whisperModel != ""
    ensures c.authBearer == Lookup(env, "AUTH_BEARER") && c.openAIKey == Lookup(env, "OPENAI_API_KEY")
  {
    Config(
      port := Getenv(env, "PORT", "8080"),
      allowOrigins := Getenv(env, "ALLOW_ORIGINS", "*"),
      authBearer := Getenv(env, "AUTH_BEARER", ""),
      tzDefault := Getenv(env, "TZ_DEFAULT", "Asia/Kolkata"),
      openAIKey := Getenv(env, "OPENAI_API_KEY", ""),
      openAIBaseURL := Getenv(env, "OPENAI_BASE_URL", "https://api.openai.com/v1"),
      llmModel := Getenv(env, "OPENAI_LLM_MODEL", "gpt-4o-mini"),
      whisperModel := Getenv(env, "OPENAI_WHISPER_MODEL", "whisper-1"),
      reqTimeoutSec := Atoi(env, "REQUEST_TIMEOUT_SECONDS", 30),
      rateLimitBurst := Atoi(env, "RATE_LIMIT_BURST", 10),
      maxUploadMB := Atoi(env, "MAX_UPLOAD_MB", 15))
  }

  /** An empty value counts as unset, for both kinds of lookup. */
  lemma EmptyCountsAsUnset(env: Env, key: string, def: string, n: int)
    ensures Getenv(env[key := ""], key, def) == Getenv(env - {key}, key, def) == def
    ensures Atoi(env[key := ""], key, n) == Atoi(env - {key}, key, n) == n
  {
  }

  /** With nothing set, `Load` yields the documented defaults; in particular no global bearer. */
  lemma LoadDefaults()
    ensures var c := Load(map[]);
      && c.tzDefault == "Asia/Kolkata" && c.reqTimeoutSec == 30 && c.maxUploadMB == 15
      && c.port == "8080" && c.authBearer == "" && c.allowOrigins == "*"
      && c.rateLimitBurst == 10 && c.llmModel == "gpt-4o-mini" && c.whisperModel == "whisper-1"
  {
  }

  /** A `MAX_UPLOAD_MB` that does not parse as an integer means 15. */
  lemma UnparsableMaxUpload(env: Env)
    requires "MAX_UPLOAD_MB" in env && Decimal.Atoi(env["MAX_UPLOAD_MB"]).None?
    ensures Load(env).maxUploadMB == 15
  {
  }

  /** A `MAX_UPLOAD_MB` written as a decimal number is taken as that number. */
  lemma DecimalMaxUpload(env: Env, n: nat)
    requires n <= Decimal.Int64Max
    requires "MAX_UPLOAD_MB" in env && env["MAX_UPLOAD_MB"] == Decimal.Show(n)
    ensures Load(env).maxUploadMB == n
  {
    Decimal.AtoiShow(n);
  }
}
