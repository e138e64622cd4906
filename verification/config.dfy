/** Application configuration read from the environment, and the check that
    the credentials the services need are present. The environment is
    passed in as a map; reading `.env` files is outside the model. */
module Config {
  import opened Wrappers
  import opened PyStr

  type Env = map<string, string>

  datatype Config = Config(
    notionToken: string,
    recipesDatabaseId: Option<string>,
    azureEndpoint: string,
    azureKey: string,
    azureDeployment: string,
    azureVersion: string,
    logLevel: string,
    dataDir: string,
    maxRetries: int)

  /** `os.getenv(name, default)`. */
  function EnvOr(env: Env, name: string, default: string): (r: string)
    ensures name in env ==> r == env[name]
    ensures name !in env ==> r == default
  {
    if name in env then env[name] else default
  }

  /** `Config.from_env`: each setting from its variable, with the documented
      defaults; fails like `int()` when `MAX_RETRIES` is not an integer. */
  function FromEnv(env: Env): (r: Result<Config>)
    ensures r.Success? <==> ParseInt(EnvOr(env, "MAX_RETRIES", "3")).Some?
    ensures r.Success? ==>
              && r.value.notionToken == EnvOr(env, "NOTION_TOKEN", "")
              && r.value.azureEndpoint == EnvOr(env, "AZURE_OPENAI_ENDPOINT", "")
              && r.value.azureKey == EnvOr(env, "AZURE_OPENAI_KEY", "")
              && (r.value.recipesDatabaseId.Some? <==> "NOTION_RECIPES_DATABASE_ID" in env)
              && r.value.maxRetries == ParseInt(EnvOr(env, "MAX_RETRIES", "3")).value
  {
    match ParseInt(EnvOr(env, "MAX_RETRIES", "3"))
    case None => Failure("invalid literal for int() with base 10")
    case Some(retries) =>
      Success(Config(
        EnvOr(env, "NOTION_TOKEN", ""),
        if "NOTION_RECIPES_DATABASE_ID" in env then Some(env["NOTION_RECIPES_DATABASE_ID"]) else None,
        EnvOr(env, "AZURE_OPENAI_ENDPOINT", ""),
        EnvOr(env, "AZURE_OPENAI_KEY", ""),
        EnvOr(env, "AZURE_OPENAI_DEPLOYMENT", "gpt-4.1"),
        EnvOr(env, "AZURE_OPENAI_VERSION", "2025-04-01-preview"),
        EnvOr(env, "LOG_LEVEL", "INFO"),
        EnvOr(env, "DATA_DIR", "data"),
        retries))
  }

  /** The settings `validate_required` insists on, in the order it checks them. */
  datatype Required = NotionToken | AzureEndpoint | AzureKey {
    function Name(): string {
      match this
      case NotionToken => "NOTION_TOKEN"
      case AzureEndpoint => "AZURE_OPENAI_ENDPOINT"
      case AzureKey => "AZURE_OPENAI_KEY"
    }

    function Rank(): nat {
      match this
      case NotionToken => 0
      case AzureEndpoint => 1
      case AzureKey => 2
    }
  }

  function ValueOf(c: Config, q: Required): string {
    match q
    case NotionToken => c.notionToken
    case AzureEndpoint => c.azureEndpoint
    case AzureKey => c.azureKey
  }

  /** The required settings that are empty, in checking order. */
  function Missing(c: Config): (r: seq<Required>)
    ensures forall q :: q in r <==> ValueOf(c, q) == ""
    ensures forall i, j :: 0 <= i < j < |r| ==> r[i].Rank() < r[j].Rank()
  {
    (if c.notionToken == "" then [NotionToken] else [])
    + (if c.azureEndpoint == "" then [AzureEndpoint] else [])
    + (if c.azureKey == "" then [AzureKey] else [])
  }

  function Names(qs: seq<Required>): (r: seq<string>)
    ensures |r| == |qs|
    ensures forall i :: 0 <= i < |qs| ==> r[i] == qs[i].Name()
  {
    seq(|qs|, i requires 0 <= i < |qs| => qs[i].Name())
  }

  const MissingPrefix: string := "Missing required environment variables: "

  /** `validate_required`: `None` when all three credentials are set,
      otherwise the `ValueError` message naming the empty ones. The database
      id, deployment and version are not checked. */
  function ValidateRequired(c: Config): (r: Option<string>)
    ensures r.None? <==> c.notionToken != "" && c.azureEndpoint != "" && c.azureKey != ""
    ensures r.Some? ==> r.value == MissingPrefix + Join(", ", Names(Missing(c)))
  {
    var missing := Missing(c);
    if missing == [] then None else Some(MissingPrefix + Join(", ", Names(missing)))
  }

  /** With an empty environment every default applies. */
  lemma EmptyEnvironment()
    ensures FromEnv(map[])
            == Success(Config("", None, "", "", "gpt-4.1", "2025-04-01-preview", "INFO", "data", 3))
  {
    ParseIntOfIntToString(3);
    assert IntToString(3) == "3";
  }

  /** With no credential set, validation names all three, in checking order. */
  lemma NothingSet(c: Config)
    requires c.notionToken == "" && c.azureEndpoint == "" && c.azureKey == ""
    ensures ValidateRequired(c)
            == Some(MissingPrefix + NotionToken.Name() + ", " + AzureEndpoint.Name() + ", " + AzureKey.Name())
  {
    assert Missing(c) == [NotionToken, AzureEndpoint, AzureKey];
    var names := Names(Missing(c));
    assert names == [NotionToken.Name(), AzureEndpoint.Name(), AzureKey.Name()];
    Join3(", ", names[0], names[1], names[2]);
    var j := names[0] + ", " + names[1] + ", " + names[2];
    assert MissingPrefix + j == MissingPrefix + names[0] + ", " + names[1] + ", " + names[2];
  }

  /** Validation depends only on the three credentials: changing the other
      settings never changes its verdict. */
  lemma ValidationIgnoresOthers(c: Config, c': Config)
    requires c.notionToken == c'.notionToken && c.azureEndpoint == c'.azureEndpoint
    requires c.azureKey == c'.azureKey
    ensures ValidateRequired(c) == ValidateRequired(c')
  {
  }
}
