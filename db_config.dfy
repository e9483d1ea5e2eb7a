/**
 * Database settings resolution in config.php: after the `.env` file is
 * loaded, each setting is taken from the first DEFINED source among the
 * `DB_*` variable, the `MYSQL*` variable, the matching component of the
 * connection URL, and a built-in default (`??` skips only undefined values,
 * so a variable set to the empty string still wins). The charset only ever
 * comes from `DB_CHARSET` or its default.
 */
module DbConfig {
  import opened Wrappers
  import opened Text
  import DotEnv

  type Environment = map<string, string>

  /** The components of `parse_url` the resolver reads; each may be missing. */
  datatype UrlParts = UrlParts(
    host: Option<string>,
    port: Option<int>,
    user: Option<string>,
    pass: Option<string>,
    path: Option<string>)

  /** `[]`: no component at all. */
  const NoParts := UrlParts(None, None, None, None, None)

  /** The port is a string when it comes from a variable and an integer when it comes from the URL. */
  datatype Port = VariablePort(text: string) | UrlPort(number: int)

  datatype Config = Config(
    host: string,
    port: Option<Port>,
    name: string,
    user: string,
    pass: string,
    charset: string)

  const DefaultHost := "127.0.0.1"
  const DefaultName := "crud_app"
  const DefaultUser := "root"
  const DefaultPass := ""
  const DefaultCharset := "utf8mb4"

  /** `$env($key)`: the variable's value, or null when `getenv` reports it undefined. */
  function Env(env: Environment, key: string): (r: Option<string>)
    ensures r.Some? <==> key in env
    ensures r.Some? ==> r.value == env[key]
  {
    if key in env then Some(env[key]) else None
  }

  /** The first defined source, if any. */
  function FirstSome<T>(sources: seq<Option<T>>): (r: Option<T>)
    ensures r.None? <==> forall i :: 0 <= i < |sources| ==> sources[i].None?
    ensures forall i :: (0 <= i < |sources| && sources[i].Some? && (forall j :: 0 <= j < i ==> sources[j].None?)
                         ==> r == sources[i])
  {
    if sources == [] then None
    else if sources[0].Some? then sources[0]
    else
      var r := FirstSome(sources[1..]);
      assert forall i :: 1 <= i < |sources| ==> sources[i] == sources[1..][i - 1];
      r
  }

  /** Looking through a chain of three sources is `a ?? b ?? c`. */
  lemma FirstSomeOfThree<T>(a: Option<T>, b: Option<T>, c: Option<T>)
    ensures FirstSome([a, b, c]) == a.OrElse(b).OrElse(c)
  {
    FirstSomeCons([a, b, c]);
    FirstSomeCons([b, c]);
    FirstSomeCons([c]);
  }

  /** A chain ending in a default is `a ?? b ?? (c ?? d)`. */
  lemma FirstSomeWithDefault<T>(a: Option<T>, b: Option<T>, c: Option<T>, d: T)
    ensures FirstSome([a, b, c, Some(d)]) == Some(a.OrElse(b).GetOr(c.GetOr(d)))
  {
    FirstSomeCons([a, b, c, Some(d)]);
    FirstSomeCons([b, c, Some(d)]);
    FirstSomeCons([c, Some(d)]);
  }

  lemma FirstSomeCons<T>(sources: seq<Option<T>>)
    requires sources != []
    ensures FirstSome(sources) == sources[0].OrElse(FirstSome(sources[1..]))
  {
  }

  /** `$dbUrl = $env('DATABASE_URL') ?? $env('MYSQL_URL')`. */
  function SelectedUrl(env: Environment): (r: Option<string>)
    ensures "DATABASE_URL" in env ==> r == Some(env["DATABASE_URL"])
    ensures "DATABASE_URL" !in env ==> r == Env(env, "MYSQL_URL")
  {
    Env(env, "DATABASE_URL").OrElse(Env(env, "MYSQL_URL"))
  }

  /**
   * The URL components in use: those of the selected URL when it is truthy
   * and `parseUrl` accepts it, and none otherwise (`parse_url(...) ?: []`).
   */
  function UrlComponents(env: Environment, parseUrl: string -> Option<UrlParts>): (r: UrlParts)
    ensures r != NoParts ==>
      SelectedUrl(env).Some? && Truthy(SelectedUrl(env).value) && parseUrl(SelectedUrl(env).value) == Some(r)
    ensures SelectedUrl(env).Some? && Truthy(SelectedUrl(env).value) && parseUrl(SelectedUrl(env).value).Some? ==>
      r == parseUrl(SelectedUrl(env).value).value
  {
    match SelectedUrl(env)
    case Some(url) =>
      if Truthy(url) then
        match parseUrl(url)
        case Some(parts) => parts
        case None => NoParts
      else NoParts
    case None => NoParts
  }

  /** The database name a URL supplies: its path without leading slashes. */
  function UrlName(parts: UrlParts): (r: Option<string>)
    ensures r.Some? <==> parts.path.Some?
    ensures r.Some? ==> r.value == [] || r.value[0] != '/'
  {
    match parts.path
    case Some(p) => Some(LtrimChar(p, '/'))
    case None => None
  }

  function UrlPortOf(parts: UrlParts): Option<Port> {
    match parts.port
    case Some(n) => Some(UrlPort(n))
    case None => None
  }

  function VariablePortOf(env: Environment, key: string): Option<Port> {
    match Env(env, key)
    case Some(text) => Some(VariablePort(text))
    case None => None
  }

  /**
   * The resolved settings. Each field is the first defined entry of its
   * precedence chain, ending in the default.
   */
  function Resolve(env: Environment, parseUrl: string -> Option<UrlParts>): (c: Config)
    ensures var url := UrlComponents(env, parseUrl);
      FirstSome([Env(env, "DB_HOST"), Env(env, "MYSQLHOST"), url.host, Some(DefaultHost)]) == Some(c.host)
    ensures var url := UrlComponents(env, parseUrl);
      c.port == FirstSome([VariablePortOf(env, "DB_PORT"), VariablePortOf(env, "MYSQLPORT"), UrlPortOf(url)])
    ensures var url := UrlComponents(env, parseUrl);
      FirstSome([Env(env, "DB_NAME"), Env(env, "MYSQLDATABASE"), UrlName(url), Some(DefaultName)]) == Some(c.name)
    ensures var url := UrlComponents(env, parseUrl);
      FirstSome([Env(env, "DB_USER"), Env(env, "MYSQLUSER"), url.user, Some(DefaultUser)]) == Some(c.user)
    ensures var url := UrlComponents(env, parseUrl);
      FirstSome([Env(env, "DB_PASS"), Env(env, "MYSQLPASSWORD"), url.pass, Some(DefaultPass)]) == Some(c.pass)
    ensures FirstSome([Env(env, "DB_CHARSET"), Some(DefaultCharset)]) == Some(c.charset)
  {
    var url := UrlComponents(env, parseUrl);
    FirstSomeWithDefault(Env(env, "DB_HOST"), Env(env, "MYSQLHOST"), url.host, DefaultHost);
    FirstSomeOfThree(VariablePortOf(env, "DB_PORT"), VariablePortOf(env, "MYSQLPORT"), UrlPortOf(url));
    FirstSomeWithDefault(Env(env, "DB_NAME"), Env(env, "MYSQLDATABASE"), UrlName(url), DefaultName);
    FirstSomeWithDefault(Env(env, "DB_USER"), Env(env, "MYSQLUSER"), url.user, DefaultUser);
    FirstSomeWithDefault(Env(env, "DB_PASS"), Env(env, "MYSQLPASSWORD"), url.pass, DefaultPass);
    FirstSomeCons([Env(env, "DB_CHARSET"), Some(DefaultCharset)]);
    Config(
      host := Env(env, "DB_HOST").OrElse(Env(env, "MYSQLHOST")).GetOr(url.host.GetOr(DefaultHost)),
      port := VariablePortOf(env, "DB_PORT").OrElse(VariablePortOf(env, "MYSQLPORT")).OrElse(UrlPortOf(url)),
      name := Env(env, "DB_NAME").OrElse(Env(env, "MYSQLDATABASE")).GetOr(UrlName(url).GetOr(DefaultName)),
      user := Env(env, "DB_USER").OrElse(Env(env, "MYSQLUSER")).GetOr(url.user.GetOr(DefaultUser)),
      pass := Env(env, "DB_PASS").OrElse(Env(env, "MYSQLPASSWORD")).GetOr(url.pass.GetOr(DefaultPass)),
      charset := Env(env, "DB_CHARSET").GetOr(DefaultCharset))
  }

  /** The whole of config.php: load the `.env` file (if readable), then resolve. */
  method LoadConfig(env: Environment, envFile: Option<seq<string>>, parseUrl: string -> Option<UrlParts>)
    returns (config: Config, loaded: Environment)
    ensures envFile.None? ==> loaded == env
    ensures envFile.Some? ==> loaded == DotEnv.ApplyLines(env, envFile.value)
    ensures config == Resolve(loaded, parseUrl)
    ensures "DB_HOST" in env ==> config.host == env["DB_HOST"]
    ensures "DB_CHARSET" in env ==> config.charset == env["DB_CHARSET"]
  {
    loaded := DotEnv.LoadEnvFile(env, envFile);
    if envFile.Some? {
      DotEnv.LoadedEnvironment(env, envFile.value);
    }
    config := Resolve(loaded, parseUrl);
  }

  /** With nothing set and no usable URL, every field takes its default. */
  lemma DefaultsWhenNothingIsSet(parseUrl: string -> Option<UrlParts>)
    ensures Resolve(map[], parseUrl) == Config("127.0.0.1", None, "crud_app", "root", "", "utf8mb4")
  {
  }

  /** A variable set to the empty string is defined, so it still wins. */
  lemma EmptyVariableStillWins(env: Environment, parseUrl: string -> Option<UrlParts>)
    requires "DB_HOST" in env && env["DB_HOST"] == ""
    ensures Resolve(env, parseUrl).host == ""
  {
  }

  /** An explicit `MYSQLHOST` outranks the host of the connection URL. */
  lemma VariableOutranksUrl(env: Environment, parseUrl: string -> Option<UrlParts>)
    requires "DB_HOST" !in env && "MYSQLHOST" in env
    requires UrlComponents(env, parseUrl).host.Some?
    ensures Resolve(env, parseUrl).host == env["MYSQLHOST"]
  {
  }

  /** The URL is used only when it is selected, truthy and parses; otherwise the parser is irrelevant. */
  lemma UrlIgnoredUnlessUsable(env: Environment, f: string -> Option<UrlParts>, g: string -> Option<UrlParts>)
    requires SelectedUrl(env).None? || !Truthy(SelectedUrl(env).value)
    ensures Resolve(env, f) == Resolve(env, g)
  {
  }

  /** `DATABASE_URL` shadows `MYSQL_URL`, even when it is empty. */
  lemma DatabaseUrlPreferred(env: Environment, parseUrl: string -> Option<UrlParts>)
    requires "DATABASE_URL" in env && "MYSQL_URL" in env
    ensures SelectedUrl(env) == Some(env["DATABASE_URL"])
    ensures env["DATABASE_URL"] == "" ==> UrlComponents(env, parseUrl) == NoParts
  {
  }

  /** The name from a URL path loses every leading `/`. */
  lemma NameFromUrlPath(env: Environment, parseUrl: string -> Option<UrlParts>, path: string)
    requires "DB_NAME" !in env && "MYSQLDATABASE" !in env
    requires UrlComponents(env, parseUrl).path == Some(path)
    ensures Resolve(env, parseUrl).name == LtrimChar(path, '/')
    ensures var n := Resolve(env, parseUrl).name; n == [] || n[0] != '/'
  {
  }

  /** The charset depends on `DB_CHARSET` alone: not on the URL and not on any `MYSQL*` variable. */
  lemma CharsetOnlyFromDbCharset(env1: Environment, env2: Environment,
                                 f: string -> Option<UrlParts>, g: string -> Option<UrlParts>)
    requires ("DB_CHARSET" in env1 <==> "DB_CHARSET" in env2)
    requires "DB_CHARSET" in env1 ==> env1["DB_CHARSET"] == env2["DB_CHARSET"]
    ensures Resolve(env1, f).charset == Resolve(env2, g).charset
  {
  }
}
