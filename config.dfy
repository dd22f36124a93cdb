/** `MyBlueLinkConfig.from_env` and the configuration merge of the
    `MyBlueLinkClient` constructor (`app/integrations/mybluelink/client.py`).
    The process environment is a map from variable names to values. */
module BlueLinkConfig {
  import opened PyJson

  datatype Config = Config(
    username: string,
    password: string,
    pin: Option<string>,
    baseUrl: Option<string>,
    demoMode: bool,
    impl: string,
    enabled: bool)

  /** The MyBlueLinkError raised by the validation of the real mode. */
  datatype ConfigError = MissingCredentials | MissingBaseUrl

  /** `os.getenv(key, default)`. */
  function Getenv(env: map<string, string>, key: string, default: string): string {
    if key in env then env[key] else default
  }

  /** The normalised values that switch the client off. */
  const FalseWords: set<string> := {"0", "false", "no", "off", ""}

  function EnabledFrom(env: map<string, string>): bool {
    Lower(Strip(Getenv(env, "BLUELINK_ENABLED", "true"))) !in FalseWords
  }

  function ImplFrom(env: map<string, string>): string {
    Lower(Strip(Getenv(env, "BLUELINK_IMPL", "mock")))
  }

  /** `s or None` on a string. */
  function NoneIfEmpty(s: string): (r: Option<string>)
    ensures r.None? <==> |s| == 0
    ensures r.Some? ==> r.value == s
  {
    if |s| == 0 then None else Some(s)
  }

  /** The demo-mode decision table, branch by branch: disabled, `mock`,
      `python`, `node`, anything else. Only an enabled `python` client
      talks to the real API. */
  function DemoModeFor(enabled: bool, impl: string): (demo: bool)
    ensures !demo <==> enabled && impl == "python"
  {
    if !enabled then true
    else if impl == "mock" then true
    else if impl == "python" then false
    else if impl == "node" then true
    else true
  }

  function UsernameFrom(env: map<string, string>): string {
    Strip(Getenv(env, "BLUELINK_USERNAME", ""))
  }

  function PasswordFrom(env: map<string, string>): string {
    Strip(Getenv(env, "BLUELINK_PASSWORD", ""))
  }

  function PinFrom(env: map<string, string>): Option<string> {
    NoneIfEmpty(Strip(Getenv(env, "BLUELINK_PIN", "")))
  }

  function BaseUrlFrom(env: map<string, string>): Option<string> {
    NoneIfEmpty(Strip(Getenv(env, "BLUELINK_API_BASE_URL", "")))
  }

  /** The decision part of `MyBlueLinkConfig.from_env()`, on the values
      already read and normalised. The real mode needs a username and a
      password, checked first, and then a base URL; the demo mode needs
      nothing. */
  function Decide(enabled: bool, impl: string, username: string, password: string,
                  pin: Option<string>, baseUrl: Option<string>): (r: Result<Config, ConfigError>)
    ensures r.Err? <==>
              enabled && impl == "python" && (|username| == 0 || |password| == 0 || baseUrl.None?)
    ensures r.Err? && (|username| == 0 || |password| == 0) ==> r.error == MissingCredentials
    ensures r.Err? && |username| > 0 && |password| > 0 ==> r.error == MissingBaseUrl
    ensures r.Ok? ==> r.value == Config(username, password, pin, baseUrl, !(enabled && impl == "python"), impl, enabled)
  {
    var demo := DemoModeFor(enabled, impl);
    if !demo && (|username| == 0 || |password| == 0) then Err(MissingCredentials)
    else if !demo && baseUrl.None? then Err(MissingBaseUrl)
    else Ok(Config(username, password, pin, baseUrl, demo, impl, enabled))
  }

  /** `MyBlueLinkConfig.from_env()`: every variable is trimmed; the switch
      and the implementation are lowercased; an empty pin or base URL is
      `None`. */
  function FromEnv(env: map<string, string>): Result<Config, ConfigError> {
    Decide(EnabledFrom(env), ImplFrom(env), UsernameFrom(env), PasswordFrom(env), PinFrom(env), BaseUrlFrom(env))
  }

  /** The arguments of the `MyBlueLinkClient` constructor laid over the
      configuration read from the environment: the username and password
      arguments win when non-empty, the pin, base URL and demo-mode
      arguments whenever they are not `None`; the implementation and the
      switch always come from the environment. */
  function Merge(e: Config, username: Option<string>, password: Option<string>,
                 pin: Option<string>, baseUrl: Option<string>, demoMode: Option<bool>): (r: Config)
    ensures r.impl == e.impl && r.enabled == e.enabled
    ensures username.Some? && |username.value| > 0 ==> r.username == username.value
    ensures username.None? || |username.value| == 0 ==> r.username == e.username
    ensures password.Some? && |password.value| > 0 ==> r.password == password.value
    ensures password.None? || |password.value| == 0 ==> r.password == e.password
    ensures pin.Some? ==> r.pin == pin
    ensures pin.None? ==> r.pin == e.pin
    ensures baseUrl.Some? ==> r.baseUrl == baseUrl
    ensures baseUrl.None? ==> r.baseUrl == e.baseUrl
    ensures demoMode.Some? ==> r.demoMode == demoMode.value
    ensures demoMode.None? ==> r.demoMode == e.demoMode
  {
    Config(
      if username.Some? && |username.value| > 0 then username.value else e.username,
      if password.Some? && |password.value| > 0 then password.value else e.password,
      if pin.Some? then pin else e.pin,
      if baseUrl.Some? then baseUrl else e.baseUrl,
      if demoMode.Some? then demoMode.value else e.demoMode,
      e.impl,
      e.enabled)
  }

  /** The configuration the `MyBlueLinkClient` constructor settles on: a
      given configuration as it is, without reading the environment;
      otherwise the environment, whose errors the arguments cannot repair,
      merged with the arguments. */
  function ResolveConfig(given: Option<Config>, env: map<string, string>,
                         username: Option<string>, password: Option<string>,
                         pin: Option<string>, baseUrl: Option<string>,
                         demoMode: Option<bool>): (r: Result<Config, ConfigError>)
    ensures given.Some? ==> r == Ok(given.value)
    ensures given.None? && FromEnv(env).Err? ==> r == Err(FromEnv(env).error)
    ensures given.None? && FromEnv(env).Ok? ==>
              r == Ok(Merge(FromEnv(env).value, username, password, pin, baseUrl, demoMode))
  {
    if given.Some? then Ok(given.value)
    else
      match FromEnv(env)
      case Err(e) => Err(e)
      case Ok(e) => Ok(Merge(e, username, password, pin, baseUrl, demoMode))
  }

  // ---------------------------------------------------------------------
  // Properties
  // ---------------------------------------------------------------------

  /** Trimming leaves a string alone when it neither starts nor ends with
      whitespace. */
  lemma StripUntrimmed(s: string)
    requires |s| == 0 || (!IsSpace(s[0]) && !IsSpace(s[|s| - 1]))
    ensures Strip(s) == s
  {
    assert StripLeft(s) == s;
  }

  /** Lowercasing leaves a string without capitals alone. */
  lemma LowerUncapitalised(s: string)
    requires forall i :: 0 <= i < |s| ==> !('A' <= s[i] <= 'Z')
    ensures Lower(s) == s
  {
    assert forall i :: 0 <= i < |s| ==> Lower(s)[i] == s[i];
  }

  /** A value that needs neither trimming nor lowercasing normalises to
      itself. */
  lemma Normalised(x: string)
    requires |x| == 0 || (!IsSpace(x[0]) && !IsSpace(x[|x| - 1]))
    requires forall i :: 0 <= i < |x| ==> !('A' <= x[i] <= 'Z')
    ensures Strip(x) == x && Lower(Strip(x)) == x
  {
    StripUntrimmed(x);
    LowerUncapitalised(x);
  }

  predicate IsBlank(x: string) {
    forall i :: 0 <= i < |x| ==> IsSpace(x[i])
  }

  /** A value made only of whitespace trims to the empty string. */
  lemma BlankStripsAway(x: string)
    requires IsBlank(x)
    ensures Strip(x) == ""
  {
    StripLeftCuts(x);
  }

  /** An unset variable reads as its default, when the default needs no
      trimming. */
  lemma Unset(env: map<string, string>, key: string, default: string)
    requires key !in env
    requires |default| == 0 || (!IsSpace(default[0]) && !IsSpace(default[|default| - 1]))
    ensures Strip(Getenv(env, key, default)) == default
  {
    StripUntrimmed(default);
  }

  /** An unset `BLUELINK_ENABLED` means enabled. */
  lemma EnabledByDefault(env: map<string, string>)
    requires "BLUELINK_ENABLED" !in env
    ensures EnabledFrom(env)
  {
    Normalised(Getenv(env, "BLUELINK_ENABLED", "true"));
  }

  /** An unset `BLUELINK_IMPL` means `mock`. */
  lemma MockByDefault(env: map<string, string>)
    requires "BLUELINK_IMPL" !in env
    ensures ImplFrom(env) == "mock"
  {
    Normalised(Getenv(env, "BLUELINK_IMPL", "mock"));
  }

  /** The switch is read case-insensitively and trimmed: " Off\n" disables
      the client. */
  lemma SwitchedOff(env: map<string, string>)
    requires Getenv(env, "BLUELINK_ENABLED", "true") == " Off\n"
    ensures !EnabledFrom(env)
  {
    var off := " Off\n";
    assert StripLeft(off) == off[1..];
    assert StripRight(off[1..]) == "Off";
    assert Lower("Off") == "off";
  }

  /** Any other word enables it: " Yes " is not among the false words. */
  lemma SwitchedOn(env: map<string, string>)
    requires Getenv(env, "BLUELINK_ENABLED", "true") == " Yes "
    ensures EnabledFrom(env)
  {
    var yes := " Yes ";
    assert StripLeft(yes) == yes[1..];
    assert StripRight(yes[1..]) == "Yes";
    assert Lower("Yes") == "yes";
  }

  /** An environment with none of the variables set is the enabled demo
      client with nothing filled in: the implementation defaults to `mock`,
      and the demo mode requires no field. */
  lemma EmptyEnvironment(env: map<string, string>)
    requires "BLUELINK_ENABLED" !in env && "BLUELINK_IMPL" !in env
    requires "BLUELINK_USERNAME" !in env && "BLUELINK_PASSWORD" !in env
    requires "BLUELINK_PIN" !in env && "BLUELINK_API_BASE_URL" !in env
    ensures FromEnv(env) == Ok(Config("", "", None, None, true, "mock", true))
  {
    EnabledByDefault(env);
    MockByDefault(env);
    UnsetFields(env);
  }

  /** Unset credentials, pin and base URL read as empty and `None`. */
  lemma UnsetFields(env: map<string, string>)
    requires "BLUELINK_USERNAME" !in env && "BLUELINK_PASSWORD" !in env
    requires "BLUELINK_PIN" !in env && "BLUELINK_API_BASE_URL" !in env
    ensures UsernameFrom(env) == "" && PasswordFrom(env) == ""
    ensures PinFrom(env) == None && BaseUrlFrom(env) == None
  {
    Unset(env, "BLUELINK_USERNAME", "");
    Unset(env, "BLUELINK_PASSWORD", "");
    Unset(env, "BLUELINK_PIN", "");
    Unset(env, "BLUELINK_API_BASE_URL", "");
  }

  /** `BLUELINK_IMPL=python` selects the real implementation. */
  lemma PythonSelected(env: map<string, string>)
    requires Getenv(env, "BLUELINK_IMPL", "mock") == "python"
    ensures ImplFrom(env) == "python"
  {
    Normalised(Getenv(env, "BLUELINK_IMPL", "mock"));
  }

  /** A password made only of whitespace is read as empty, which the
      real mode refuses as missing credentials. */
  lemma BlankPasswordIsMissing(env: map<string, string>)
    requires IsBlank(Getenv(env, "BLUELINK_PASSWORD", ""))
    ensures PasswordFrom(env) == ""
    ensures EnabledFrom(env) && ImplFrom(env) == "python" ==> FromEnv(env) == Err(MissingCredentials)
  {
    BlankStripsAway(Getenv(env, "BLUELINK_PASSWORD", ""));
  }

  /** In the real mode, credentials without a base URL are refused. */
  lemma MissingBaseUrlRefused(env: map<string, string>)
    requires "BLUELINK_ENABLED" !in env
    requires Getenv(env, "BLUELINK_IMPL", "mock") == "python"
    requires |UsernameFrom(env)| > 0 && |PasswordFrom(env)| > 0
    requires "BLUELINK_API_BASE_URL" !in env
    ensures FromEnv(env) == Err(MissingBaseUrl)
  {
    EnabledByDefault(env);
    PythonSelected(env);
    Unset(env, "BLUELINK_API_BASE_URL", "");
  }
}
