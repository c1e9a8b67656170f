/** Configuration defaulting and request headers (firecrawl_crawler/config.py). */
module Config {
  import opened Wrappers

  /** The process environment. */
  type Env = map<string, string>

  datatype Config = Config(apiUrl: string, apiKey: Option<string>, outputDir: string)

  const DefaultApiUrl: string := "http://localhost:3002"
  const DefaultOutputDir: string := "./output"

  /** `os.getenv(name)`: the variable's value, which may be empty, or `None` when unset. */
  function Getenv(env: Env, name: string): (r: Option<string>)
    ensures r.Some? <==> name in env
    ensures r.Some? ==> r.value == env[name]
  {
    if name in env then Some(env[name]) else None
  }

  /** `Config(api_url, api_key, output_dir)`: each argument is used when truthy; otherwise the
      environment variable is used when set (even to the empty string); otherwise the default,
      which for the key is `None`. */
  function NewConfig(apiUrl: Option<string>, apiKey: Option<string>, outputDir: Option<string>, env: Env): (c: Config)
    ensures Truthy(apiUrl) ==> c.apiUrl == apiUrl.value
    ensures !Truthy(apiUrl) ==> c.apiUrl == Getenv(env, "FIRECRAWL_API_URL").GetOr(DefaultApiUrl)
    ensures Truthy(apiKey) ==> c.apiKey == apiKey
    ensures !Truthy(apiKey) ==> c.apiKey == Getenv(env, "FIRECRAWL_API_KEY")
    ensures Truthy(outputDir) ==> c.outputDir == outputDir.value
    ensures !Truthy(outputDir) ==> c.outputDir == Getenv(env, "OUTPUT_DIR").GetOr(DefaultOutputDir)
  {
    Config(
      if Truthy(apiUrl) then apiUrl.value else Getenv(env, "FIRECRAWL_API_URL").GetOr(DefaultApiUrl),
      OrElse(apiKey, Getenv(env, "FIRECRAWL_API_KEY")),
      if Truthy(outputDir) then outputDir.value else Getenv(env, "OUTPUT_DIR").GetOr(DefaultOutputDir))
  }

  /** `get_headers()`: the JSON content type always, and a bearer token exactly when the key is
      truthy; nothing else. */
  function Headers(c: Config): (h: map<string, string>)
    ensures "Content-Type" in h && h["Content-Type"] == "application/json"
    ensures "Authorization" in h <==> Truthy(c.apiKey)
    ensures "Authorization" in h ==> h["Authorization"] == "Bearer " + c.apiKey.value
    ensures h.Keys <= {"Content-Type", "Authorization"}
  {
    var base := map["Content-Type" := "application/json"];
    if Truthy(c.apiKey) then base["Authorization" := "Bearer " + c.apiKey.value] else base
  }

  /** With no arguments and an empty environment the client talks to the local service,
      writes to ./output and sends no credentials. */
  lemma DefaultsWithoutEnvironment()
    ensures NewConfig(None, None, None, map[]) == Config(DefaultApiUrl, None, DefaultOutputDir)
    ensures Headers(NewConfig(None, None, None, map[])).Keys == {"Content-Type"}
  {
  }

  /** A request carries credentials exactly when a non-empty key came from the argument or,
      failing that, from the environment. */
  lemma AuthorizationSource(apiUrl: Option<string>, apiKey: Option<string>, outputDir: Option<string>, env: Env)
    ensures var h := Headers(NewConfig(apiUrl, apiKey, outputDir, env));
      "Authorization" in h <==> Truthy(apiKey) || ("FIRECRAWL_API_KEY" in env && env["FIRECRAWL_API_KEY"] != "")
    ensures Truthy(apiKey) ==> Headers(NewConfig(apiUrl, apiKey, outputDir, env))["Authorization"] == "Bearer " + apiKey.value
  {
  }
}
