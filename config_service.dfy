/** Loading the configuration from the process environment
    (services/config_service.go). The environment is a map from variable
    names to values; a panic or a fatal log-and-exit during start-up is a
    `Failure` carrying the message.
 */
module ConfigService {
  import opened Outcomes
  import opened GoStrings
  import opened GoStrconv
  import opened GoFmt
  import opened AppConfigDomain

  const EnvVarHttpPort := "HTTP_PORT"
  const EnvVarFrontendDir := "FRONTEND_DIR"
  const EnvVarEmailSender := "EMAIL_SENDER"
  const EnvVarEmailRecipient := "EMAIL_RECIPIENT"
  const EnvVarEmailSubject := "EMAIL_SUBJECT"
  const EnvVarAwsSesRegion := "AWS_SES_REGION"
  const EnvVarAwsSesAccessKey := "AWS_SES_ACCESS_KEY"
  const EnvVarAwsSesSecretKey := "AWS_SES_SECRET_KEY"
  const EnvVarRecaptchaSecret := "RECAPTCHA_SECRET"

  /** The nine variables in the order `LoadConfig` reads them. */
  const EnvVarNames: seq<string> := [
    EnvVarHttpPort, EnvVarFrontendDir, EnvVarEmailSender, EnvVarEmailRecipient, EnvVarEmailSubject,
    EnvVarAwsSesRegion, EnvVarAwsSesAccessKey, EnvVarAwsSesSecretKey, EnvVarRecaptchaSecret
  ]

  /** The process environment. */
  type Environment = map<string, string>

  /** How start-up stops: a `panic` with its message, or a `log.Fatalf`
      that prints its message and exits. */
  datatype StartupFailure = Panic(message: string) | Fatal(message: string)

  /* ---------------- Messages ---------------- */

  const EnvVarMessagePrefix := "Environment variable '"
  const IntNotFoundSuffix := "' was not found, application cannot start"
  const NotFoundSuffix := "' not found"
  const NotANumberSuffix := "' was not a number"

  /** The panic message for a missing integer variable. */
  function IntNotFoundMessage(name: string): (m: string)
    ensures m == EnvVarMessagePrefix + name + IntNotFoundSuffix
  {
    SprintfOneString(EnvVarMessagePrefix, IntNotFoundSuffix, name);
    Sprintf(EnvVarMessagePrefix + "%s" + IntNotFoundSuffix, [Str(name)])
  }

  /** The panic message for a missing string variable. */
  function NotFoundMessage(name: string): (m: string)
    ensures m == EnvVarMessagePrefix + name + NotFoundSuffix
  {
    SprintfOneString(EnvVarMessagePrefix, NotFoundSuffix, name);
    Sprintf(EnvVarMessagePrefix + "%s" + NotFoundSuffix, [Str(name)])
  }

  /** The fatal message for an integer variable that does not parse. */
  function NotANumberMessage(name: string): (m: string)
    ensures m == EnvVarMessagePrefix + name + NotANumberSuffix
  {
    SprintfOneString(EnvVarMessagePrefix, NotANumberSuffix, name);
    Sprintf(EnvVarMessagePrefix + "%s" + NotANumberSuffix, [Str(name)])
  }

  /* ---------------- Single variables ---------------- */

  /** `loadEnvVarAsIntOrPanic`: a missing variable panics, a value that
      `strconv.Atoi` rejects is fatal, otherwise the parsed number. */
  function LoadEnvVarAsInt(env: Environment, name: string): (r: Result<int, StartupFailure>)
    ensures name !in env ==> r == Failure(Panic(IntNotFoundMessage(name)))
    ensures name in env && Atoi(env[name]).None? ==> r == Failure(Fatal(NotANumberMessage(name)))
    ensures r.Success? <==> name in env && Atoi(env[name]).Some?
    ensures r.Success? ==> MinInt <= r.value <= MaxInt && r.value == Atoi(env[name]).value
  {
    if name !in env then Failure(Panic(IntNotFoundMessage(name)))
    else
      match Atoi(env[name])
      case None => Failure(Fatal(NotANumberMessage(name)))
      case Some(n) => Success(n)
  }

  /** A variable holding the decimal text of a 64-bit number loads as that
      number. */
  lemma LoadFormattedInt(env: Environment, name: string, n: int)
    requires MinInt <= n <= MaxInt
    ensures LoadEnvVarAsInt(env[name := FormatInt(n)], name) == Success(n)
  {
    AtoiOfFormatInt(n);
  }

  /** `loadEnvVarAsStringOrPanic`: the value, whatever it is (the empty
      string included), or a panic when the variable is absent. */
  function LoadEnvVarAsString(env: Environment, name: string): (r: Result<string, StartupFailure>)
    ensures r.Success? <==> name in env
    ensures r.Success? ==> r.value == env[name]
    ensures r.Failure? ==> r.error == Panic(NotFoundMessage(name))
  {
    if name !in env then Failure(Panic(NotFoundMessage(name))) else Success(env[name])
  }

  /** Only absence fails: an empty value is found. */
  lemma EmptyValueIsFound(env: Environment, name: string)
    ensures LoadEnvVarAsString(env[name := ""], name) == Success("")
  {
  }

  /* ---------------- The whole configuration ---------------- */

  /** Every one of the nine variables is set. */
  predicate AllPresent(env: Environment) {
    && EnvVarHttpPort in env && EnvVarFrontendDir in env && EnvVarEmailSender in env
    && EnvVarEmailRecipient in env && EnvVarEmailSubject in env && EnvVarAwsSesRegion in env
    && EnvVarAwsSesAccessKey in env && EnvVarAwsSesSecretKey in env && EnvVarRecaptchaSecret in env
  }

  /** The configuration the environment describes, field by variable. */
  function ConfigOf(env: Environment): AppConfig
    requires AllPresent(env) && Atoi(env[EnvVarHttpPort]).Some?
  {
    AppConfig(
      Atoi(env[EnvVarHttpPort]).value,
      env[EnvVarFrontendDir],
      EmailConfig(env[EnvVarEmailSender], env[EnvVarEmailRecipient], env[EnvVarEmailSubject],
                  env[EnvVarAwsSesRegion], env[EnvVarAwsSesAccessKey], env[EnvVarAwsSesSecretKey]),
      env[EnvVarRecaptchaSecret])
  }

  /** `LoadConfig`: read the nine variables in order, stopping at the first
      failure, then panic with the validation error if the configuration is
      not valid. It succeeds exactly when every variable is set, `HTTP_PORT`
      is a number and the configuration they describe is valid, and then
      returns that configuration. */
  function LoadConfig(env: Environment): (r: Result<AppConfig, StartupFailure>)
    ensures r.Success? <==>
      && AllPresent(env)
      && Atoi(env[EnvVarHttpPort]).Some?
      && ValidateAppConfig(ConfigOf(env)) == Ok
    ensures r.Success? ==> r.value == ConfigOf(env)
    ensures r.Failure? && AllPresent(env) && Atoi(env[EnvVarHttpPort]).Some? ==>
      r.error == Panic(ValidateAppConfig(ConfigOf(env)).message)
  {
    var httpPort :- LoadEnvVarAsInt(env, EnvVarHttpPort);
    var frontendDir :- LoadEnvVarAsString(env, EnvVarFrontendDir);
    var sender :- LoadEnvVarAsString(env, EnvVarEmailSender);
    var recipient :- LoadEnvVarAsString(env, EnvVarEmailRecipient);
    var subject :- LoadEnvVarAsString(env, EnvVarEmailSubject);
    var region :- LoadEnvVarAsString(env, EnvVarAwsSesRegion);
    var accessKey :- LoadEnvVarAsString(env, EnvVarAwsSesAccessKey);
    var secretKey :- LoadEnvVarAsString(env, EnvVarAwsSesSecretKey);
    var recaptchaSecret :- LoadEnvVarAsString(env, EnvVarRecaptchaSecret);
    var config := AppConfig(httpPort, frontendDir,
                            EmailConfig(sender, recipient, subject, region, accessKey, secretKey),
                            recaptchaSecret);
    match ValidateAppConfig(config)
    case Err(m) => Failure(Panic(m))
    case Ok => Success(config)
  }

  /** The first missing variable, in reading order, is the one reported;
      a missing `HTTP_PORT` has its own message, and a later variable is
      only reached once `HTTP_PORT` has parsed. */
  lemma LoadConfigReportsFirstMissing(env: Environment, k: nat)
    requires k < |EnvVarNames| && EnvVarNames[k] !in env
    requires forall j :: 0 <= j < k ==> EnvVarNames[j] in env
    requires 0 < k ==> EnvVarHttpPort in env && Atoi(env[EnvVarHttpPort]).Some?
    ensures k == 0 ==> LoadConfig(env) == Failure(Panic(IntNotFoundMessage(EnvVarHttpPort)))
    ensures 0 < k ==> LoadConfig(env) == Failure(Panic(NotFoundMessage(EnvVarNames[k])))
  {
    if 0 < k < 5 {
      MissingAmongFirstFive(env, k);
    } else if 5 <= k {
      MissingAmongLastFour(env, k);
    }
  }

  /** `LoadConfigReportsFirstMissing` for the second to fifth variables. */
  lemma MissingAmongFirstFive(env: Environment, k: nat)
    requires 0 < k < 5 && EnvVarNames[k] !in env
    requires forall j :: 0 <= j < k ==> EnvVarNames[j] in env
    requires EnvVarHttpPort in env && Atoi(env[EnvVarHttpPort]).Some?
    ensures LoadConfig(env) == Failure(Panic(NotFoundMessage(EnvVarNames[k])))
  {
    var names := EnvVarNames;
    if k == 2 {
      assert names[1] in env;
    } else if k == 3 {
      assert names[1] in env && names[2] in env;
    } else if k == 4 {
      assert names[1] in env && names[2] in env && names[3] in env;
    }
  }

  /** `LoadConfigReportsFirstMissing` for the last four variables. */
  lemma MissingAmongLastFour(env: Environment, k: nat)
    requires 5 <= k < 9 && EnvVarNames[k] !in env
    requires forall j :: 0 <= j < k ==> EnvVarNames[j] in env
    requires EnvVarHttpPort in env && Atoi(env[EnvVarHttpPort]).Some?
    ensures LoadConfig(env) == Failure(Panic(NotFoundMessage(EnvVarNames[k])))
  {
    var names := EnvVarNames;
    assert names[1] in env && names[2] in env && names[3] in env && names[4] in env;
    if k == 6 {
      assert names[5] in env;
    } else if k == 7 {
      assert names[5] in env && names[6] in env;
    } else if k == 8 {
      assert names[5] in env && names[6] in env && names[7] in env;
    }
  }

  /** A `HTTP_PORT` that does not parse stops start-up with the fatal
      message before any other variable is looked at. */
  lemma PortNotANumberIsFatal(env: Environment)
    requires EnvVarHttpPort in env && Atoi(env[EnvVarHttpPort]).None?
    ensures LoadConfig(env) == Failure(Fatal(NotANumberMessage(EnvVarHttpPort)))
  {
  }

  /** Once every variable is set and the port parses, the only way to fail
      is validation, and then the panic carries the validation error. */
  lemma LoadConfigValidationFailure(env: Environment)
    requires AllPresent(env) && Atoi(env[EnvVarHttpPort]).Some?
    requires ValidateAppConfig(ConfigOf(env)).Err?
    ensures LoadConfig(env) == Failure(Panic(ValidateAppConfig(ConfigOf(env)).message))
  {
  }

  /** Only the nine variables matter: environments that agree on them load
      the same way. */
  lemma LoadConfigReadsOnlyItsVariables(env1: Environment, env2: Environment)
    requires forall k :: 0 <= k < |EnvVarNames| ==> AgreeOn(env1, env2, EnvVarNames[k])
    ensures LoadConfig(env1) == LoadConfig(env2)
  {
    var names := EnvVarNames;
    assert AgreeOn(env1, env2, names[0]) && AgreeOn(env1, env2, names[1]) && AgreeOn(env1, env2, names[2]);
    assert AgreeOn(env1, env2, names[3]) && AgreeOn(env1, env2, names[4]) && AgreeOn(env1, env2, names[5]);
    assert AgreeOn(env1, env2, names[6]) && AgreeOn(env1, env2, names[7]) && AgreeOn(env1, env2, names[8]);
    AgreeingLoads(env1, env2);
  }

  /** `LoadConfigReadsOnlyItsVariables` with the nine names spelled out. */
  lemma AgreeingLoads(env1: Environment, env2: Environment)
    requires AgreeOn(env1, env2, EnvVarHttpPort) && AgreeOn(env1, env2, EnvVarFrontendDir)
    requires AgreeOn(env1, env2, EnvVarEmailSender) && AgreeOn(env1, env2, EnvVarEmailRecipient)
    requires AgreeOn(env1, env2, EnvVarEmailSubject) && AgreeOn(env1, env2, EnvVarAwsSesRegion)
    requires AgreeOn(env1, env2, EnvVarAwsSesAccessKey) && AgreeOn(env1, env2, EnvVarAwsSesSecretKey)
    requires AgreeOn(env1, env2, EnvVarRecaptchaSecret)
    ensures LoadConfig(env1) == LoadConfig(env2)
  {
    assert LoadEnvVarAsInt(env1, EnvVarHttpPort) == LoadEnvVarAsInt(env2, EnvVarHttpPort);
    assert LoadEnvVarAsString(env1, EnvVarFrontendDir) == LoadEnvVarAsString(env2, EnvVarFrontendDir);
    assert LoadEnvVarAsString(env1, EnvVarEmailSender) == LoadEnvVarAsString(env2, EnvVarEmailSender);
    assert LoadEnvVarAsString(env1, EnvVarEmailRecipient) == LoadEnvVarAsString(env2, EnvVarEmailRecipient);
    assert LoadEnvVarAsString(env1, EnvVarEmailSubject) == LoadEnvVarAsString(env2, EnvVarEmailSubject);
    assert LoadEnvVarAsString(env1, EnvVarAwsSesRegion) == LoadEnvVarAsString(env2, EnvVarAwsSesRegion);
    assert LoadEnvVarAsString(env1, EnvVarAwsSesAccessKey) == LoadEnvVarAsString(env2, EnvVarAwsSesAccessKey);
    assert LoadEnvVarAsString(env1, EnvVarAwsSesSecretKey) == LoadEnvVarAsString(env2, EnvVarAwsSesSecretKey);
    assert LoadEnvVarAsString(env1, EnvVarRecaptchaSecret) == LoadEnvVarAsString(env2, EnvVarRecaptchaSecret);
  }

  /** Two environments agree on a variable: both lack it, or both hold the
      same value. */
  predicate AgreeOn(env1: Environment, env2: Environment, name: string) {
    (name in env1 <==> name in env2) && (name in env1 ==> env1[name] == env2[name])
  }

  /* ---------------- Broker lists ---------------- */

  /** `splitBrokerList`: the pieces between commas. There is always at
      least one piece, no piece holds a comma, there is one more piece than
      there are commas, and joining the pieces with commas gives the input
      back. */
  function SplitBrokerList(brokers: string): (parts: seq<string>)
    ensures |parts| >= 1 && |parts| == Count(brokers, ',') + 1
    ensures forall i :: 0 <= i < |parts| ==> ',' !in parts[i]
    ensures Join(parts, ',') == brokers
  {
    Split(brokers, ',')
  }

  /** Splitting a list joined from comma-free names gives the names back. */
  lemma SplitBrokerListOfJoin(brokers: seq<string>)
    requires |brokers| >= 1 && forall i :: 0 <= i < |brokers| ==> ',' !in brokers[i]
    ensures SplitBrokerList(Join(brokers, ',')) == brokers
  {
    SplitOfJoin(brokers, ',');
  }
}
