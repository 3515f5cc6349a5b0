/** The project configuration read from `.vibe/vibe.yaml`: check steps, the
    retry budget, and the loader's decision between "no file", "empty
    document" and "validate". YAML parsing and model validation are not
    modelled; only whether they succeed, and with what, is. */
module Config {
  import opened Wrappers
  import opened Strings

  /** One named shell command. */
  datatype CheckStep = CheckStep(name: string, command: string)

  /** The `checks` section: steps in execution order and the retry budget. */
  datatype ChecksConfig = ChecksConfig(steps: seq<CheckStep>, maxRetries: int)

  /** The whole configuration document. */
  datatype ProjectConfig = ProjectConfig(checks: Option<ChecksConfig>)

  const DefaultMaxRetries: int := 10

  /** `ChecksConfig()`: no steps and a budget of ten retries. */
  function DefaultChecksConfig(): (c: ChecksConfig)
    ensures c.steps == [] && c.maxRetries == 10
  {
    ChecksConfig([], DefaultMaxRetries)
  }

  /** `ProjectConfig()`: no checks section. */
  function DefaultProjectConfig(): (c: ProjectConfig)
    ensures c.checks == None
  {
    ProjectConfig(None)
  }

  /** What is found at the configuration path. `DecodeRaised` is a file
      that is not valid UTF-8: reading it raises `UnicodeDecodeError` from
      inside `yaml.safe_load`, which is a `ValueError` and not a YAML error.
      `Document` carries the outcome of validating the parsed, non-null YAML
      value against `ProjectConfig` (a failure carries the validator's
      message). */
  datatype ConfigFileStatus =
    | Absent
    | OpenRaised(message: string)
    | DecodeRaised(message: string)
    | YamlUnparsable(message: string)
    | NullDocument
    | Document(validated: Result<ProjectConfig, string>)

  /** The exceptions `load_project_config` lets out: the wrapped YAML
      error, the wrapped validation error, a `UnicodeDecodeError` that
      escapes unwrapped, and anything else. */
  datatype ConfigError =
    | YamlError(message: string)
    | ValidationError(message: string)
    | DecodeError(message: string)
    | OtherError(message: string)
  {
    /** Caught by `except ValueError`. */
    predicate IsValueError()
    {
      ValidationError? || DecodeError?
    }
  }

  const ParsePrefix: string := "Failed to parse YAML config file "
  const ValidatePrefix: string := "Failed to validate config file "

  /** `load_project_config()`: `None` when the file does not exist, the
      default configuration for an empty document, otherwise the validated
      configuration; parse and validation failures are raised as distinct
      errors whose messages name the file and the cause. */
  function LoadProjectConfig(file: ConfigFileStatus, path: string): (r: Result<Option<ProjectConfig>, ConfigError>)
    ensures r == Success(None) <==> file.Absent?
    ensures file.NullDocument? ==> r == Success(Some(DefaultProjectConfig()))
    ensures file.Document? && file.validated.Success? ==> r == Success(Some(file.validated.value))
    ensures r.Failure? && r.error.YamlError? <==> file.YamlUnparsable?
    ensures r.Failure? && r.error.ValidationError? <==> file.Document? && file.validated.Failure?
    ensures r.Failure? && r.error.DecodeError? <==> file.DecodeRaised?
    ensures file.DecodeRaised? ==> r.error.message == file.message
    ensures file.OpenRaised? ==> r == Failure(OtherError(file.message))
    ensures r.Failure? && r.error.YamlError? ==>
              StartsWith(r.error.message, ParsePrefix)
              && Infix(file.message, r.error.message)
    ensures r.Failure? && r.error.ValidationError? ==>
              StartsWith(r.error.message, ValidatePrefix)
              && Infix(file.validated.error, r.error.message)
  {
    match file
    case Absent => Success(None)
    case OpenRaised(m) => Failure(OtherError(m))
    case DecodeRaised(m) => Failure(DecodeError(m))
    case YamlUnparsable(m) =>
      var msg := ParsePrefix + path + ": " + m;
      InfixSelf(m);
      InfixWithin(m, ParsePrefix + path + ": ", m, "");
      assert msg == ParsePrefix + path + ": " + m + "";
      Failure(YamlError(msg))
    case NullDocument => Success(Some(DefaultProjectConfig()))
    case Document(Success(c)) => Success(Some(c))
    case Document(Failure(m)) =>
      var msg := ValidatePrefix + path + ": " + m;
      InfixSelf(m);
      InfixWithin(m, ValidatePrefix + path + ": ", m, "");
      assert msg == ValidatePrefix + path + ": " + m + "";
      Failure(ValidationError(msg))
  }
}
