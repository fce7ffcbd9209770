/** main.py's `ConfigManager` and `main`: load the configuration, check that
    the required keys are present, check their values, and end the process
    with the status the first failure calls for. */
module ConfigPipeline {
  import opened Outcomes
  import opened YamlDocument
  import opened ConfigValidator
  import Sets

  /** `ConfigManager.required_keys`. */
  const RequiredKeys: set<string> :=
    {"package_name", "repo_url", "mode", "version", "output_image", "filter_substring"}

  /** An exception leaving one of the manager's steps: a `ConfigError`, any
      other `Exception` (an `AttributeError` or `TypeError` on a document that
      is not a mapping, a `KeyError`, an `OSError` while opening the file),
      or a `KeyboardInterrupt`. */
  datatype Raised = Config(error: ConfigError) | Unexpected | Interrupt

  type Step = Outcome<Raised>

  /** One entry of the `validators` dictionary: a key and its rule. */
  type Rule = (string, Value -> Verdict)

  /** The `validators` dictionary of `validate_values`, in its insertion
      order, which is the order the loop visits it in. */
  const Validators: seq<Rule> := [
    ("package_name", ValidatePackageName),
    ("repo_url", ValidateRepoUrl),
    ("mode", ValidateMode),
    ("version", ValidateVersion),
    ("output_image", ValidateOutputImage),
    ("filter_substring", ValidateFilterSubstring)
  ]

  /** `load_config`: a missing file and a YAML syntax error become
      `ConfigError`s, every other failure escapes unchanged. */
  function LoadStage(input: LoadInput): Step {
    match input
    case Parsed(_) => Pass
    case FileMissing => Fail(Config(FileNotFound))
    case YamlSyntaxError => Fail(Config(YamlFormat))
    case ReadError => Fail(Unexpected)
    case Interrupted => Fail(Interrupt)
  }

  /** `validate_required_keys`: `required_keys - set(config.keys())`. */
  function RequiredKeysStage(doc: Document): (r: Step)
    ensures doc.Mapping? ==> (r.Pass? <==> RequiredKeys <= doc.entries.Keys)
    ensures doc.Mapping? && r.Fail? ==>
      r.error == Config(MissingKeys(RequiredKeys - doc.entries.Keys))
      && exists k :: k in RequiredKeys && k !in doc.entries
    ensures !doc.Mapping? ==> r == Fail(Unexpected)
  {
    if !doc.Mapping? then Fail(Unexpected)   // `None.keys()`, `[].keys()`: AttributeError
    else
      var missing := RequiredKeys - doc.entries.Keys;
      Sets.EmptyDifferenceIffSubset(RequiredKeys, doc.entries.Keys);
      if missing != {} then Fail(Config(MissingKeys(missing))) else Pass
  }

  /** The rule finds its key in the mapping and accepts the value there. */
  predicate Accepts(m: map<string, Value>, rule: Rule) {
    rule.0 in m && rule.1(m[rule.0]).Pass?
  }

  /** The loop of `validate_values` over the rules `rules`, in order,
      leaving at the first exception. */
  function RunRules(doc: Document, rules: seq<Rule>): (r: Step)
    ensures r.Fail? ==> !r.error.Interrupt?
    decreases |rules|
  {
    if rules == [] then Pass
    else if !doc.Mapping? then Fail(Unexpected)             // `None[key]`: TypeError
    else if rules[0].0 !in doc.entries then Fail(Unexpected)  // KeyError
    else match rules[0].1(doc.entries[rules[0].0])
      case Fail(e) => Fail(Config(e))
      case Pass => RunRules(doc, rules[1..])
  }

  /** `validate_values`. */
  function ValuesStage(doc: Document): Step {
    RunRules(doc, Validators)
  }

  /** What `main` does with the outcome of the pipeline. */
  datatype Report =
    | Completed                       // the configuration was printed
    | UsageShown                      // wrong number of arguments
    | ConfigFailure(error: ConfigError)
    | UnexpectedFailure
    | InterruptEscaped                // KeyboardInterrupt is not an Exception

  /** The exit status each report leads to. */
  function ExitStatusOf(rep: Report): ExitStatus {
    match rep
    case Completed => Exit(0)
    case InterruptEscaped => UncaughtInterrupt
    case _ => Exit(1)
  }

  /** The `except` clauses of `main`. */
  function ReportOf(r: Step): Report {
    match r
    case Pass => Completed
    case Fail(Config(e)) => ConfigFailure(e)
    case Fail(Unexpected) => UnexpectedFailure
    case Fail(Interrupt) => InterruptEscaped
  }

  /** The chain `load_config().validate_required_keys().validate_values()`:
      each step runs only when the one before it returned. */
  function PipelineStage(input: LoadInput): Step {
    match LoadStage(input)
    case Fail(e) => Fail(e)
    case Pass =>
      match RequiredKeysStage(input.doc)
      case Fail(e) => Fail(e)
      case Pass => ValuesStage(input.doc)
  }

  /** The report of `main` for `argc` command-line words (the script name
      included) and the given outcome of loading the file. */
  function MainReport(argc: nat, input: LoadInput): Report {
    if argc != 2 then UsageShown else ReportOf(PipelineStage(input))
  }

  /** The value loop passes exactly when every rule finds its key and
      accepts its value. */
  lemma {:induction false} RunRulesPassIff(m: map<string, Value>, rules: seq<Rule>)
    ensures RunRules(Mapping(m), rules).Pass? <==>
      forall j :: 0 <= j < |rules| ==> Accepts(m, rules[j])
    decreases |rules|
  {
    if rules != [] {
      RunRulesPassIff(m, rules[1..]);
      assert forall j :: 1 <= j < |rules| ==> rules[j] == rules[1..][j - 1];
    }
  }

  /** First failure wins: the value loop fails with a `ConfigError` `e`
      exactly when some rule rejects its value with `e` and every rule
      before it accepted. */
  lemma {:induction false} RunRulesFirstFailure(m: map<string, Value>, rules: seq<Rule>, e: ConfigError)
    ensures RunRules(Mapping(m), rules) == Fail(Config(e)) <==>
      exists j :: 0 <= j < |rules| && rules[j].0 in m && rules[j].1(m[rules[j].0]) == Fail(e)
        && forall l :: 0 <= l < j ==> Accepts(m, rules[l])
    decreases |rules|
  {
    if rules != [] && Accepts(m, rules[0]) {
      var rest := rules[1..];
      RunRulesFirstFailure(m, rest, e);
      if RunRules(Mapping(m), rules) == Fail(Config(e)) {
        var j :| 0 <= j < |rest| && rest[j].0 in m && rest[j].1(m[rest[j].0]) == Fail(e)
          && forall l :: 0 <= l < j ==> Accepts(m, rest[l]);
        assert rules[j + 1] == rest[j];
        assert forall l :: 1 <= l < j + 1 ==> rules[l] == rest[l - 1];
      } else {
        forall j | 0 <= j < |rules| && rules[j].0 in m && rules[j].1(m[rules[j].0]) == Fail(e)
          ensures exists l :: 0 <= l < j && !Accepts(m, rules[l])
        {
          assert j != 0;
          assert rules[j] == rest[j - 1];
          var l :| 0 <= l < j - 1 && !Accepts(m, rest[l]);
          assert rest[l] == rules[l + 1];
        }
      }
    }
  }

  /** With every key the loop reads present, it raises nothing but
      `ConfigError`s. */
  lemma {:induction false} RunRulesOnlyConfigErrors(m: map<string, Value>, rules: seq<Rule>)
    requires forall j :: 0 <= j < |rules| ==> rules[j].0 in m
    ensures RunRules(Mapping(m), rules).Pass? || RunRules(Mapping(m), rules).error.Config?
    decreases |rules|
  {
    if rules != [] {
      assert forall j :: 0 <= j < |rules| - 1 ==> rules[1..][j] == rules[j + 1];
      RunRulesOnlyConfigErrors(m, rules[1..]);
    }
  }

  /** The keys the value loop reads are the required keys. */
  lemma ValidatorKeysAreRequiredKeys()
    ensures forall j :: 0 <= j < |Validators| ==> Validators[j].0 in RequiredKeys
    ensures forall k :: k in RequiredKeys ==> exists j :: 0 <= j < |Validators| && Validators[j].0 == k
  {
    assert Validators[0].0 == "package_name" && Validators[1].0 == "repo_url";
    assert Validators[2].0 == "mode" && Validators[3].0 == "version";
    assert Validators[4].0 == "output_image" && Validators[5].0 == "filter_substring";
  }

  /** The six rules of `ConfigValidator`, each applied to its own key. */
  predicate SixRulesAccept(m: map<string, Value>)
    requires RequiredKeys <= m.Keys
  {
    ValidatePackageName(m["package_name"]).Pass? && ValidateRepoUrl(m["repo_url"]).Pass?
    && ValidateMode(m["mode"]).Pass? && ValidateVersion(m["version"]).Pass?
    && ValidateOutputImage(m["output_image"]).Pass?
    && ValidateFilterSubstring(m["filter_substring"]).Pass?
  }

  /** The `validators` dictionary pairs each key with its own rule. */
  lemma ValidatorsAreSixRules(m: map<string, Value>)
    requires RequiredKeys <= m.Keys
    ensures (forall j :: 0 <= j < |Validators| ==> Accepts(m, Validators[j])) <==> SixRulesAccept(m)
  {
    assert Accepts(m, Validators[0]) == ValidatePackageName(m["package_name"]).Pass?;
    assert Accepts(m, Validators[1]) == ValidateRepoUrl(m["repo_url"]).Pass?;
    assert Accepts(m, Validators[2]) == ValidateMode(m["mode"]).Pass?;
    assert Accepts(m, Validators[3]) == ValidateVersion(m["version"]).Pass?;
    assert Accepts(m, Validators[4]) == ValidateOutputImage(m["output_image"]).Pass?;
    assert Accepts(m, Validators[5]) == ValidateFilterSubstring(m["filter_substring"]).Pass?;
  }

  /** Once every required key is present, `validate_values` can only raise
      a `ConfigError`, and it returns exactly when all six rules accept. */
  lemma ValuesStageSixRules(m: map<string, Value>)
    requires RequiredKeys <= m.Keys
    ensures ValuesStage(Mapping(m)).Pass? || ValuesStage(Mapping(m)).error.Config?
    ensures ValuesStage(Mapping(m)).Pass? <==> SixRulesAccept(m)
  {
    ValidatorKeysAreRequiredKeys();
    RunRulesOnlyConfigErrors(m, Validators);
    RunRulesPassIff(m, Validators);
    ValidatorsAreSixRules(m);
  }

  /** Extra keys never make the required-key check fail. */
  lemma ExtraKeysHarmless(m: map<string, Value>, extra: map<string, Value>)
    requires RequiredKeysStage(Mapping(m)).Pass?
    ensures RequiredKeysStage(Mapping(m + extra)).Pass?
  {
  }

  /** `main` completes exactly when it gets one argument, the file loads as
      a mapping that holds every required key, and every value is accepted. */
  lemma MainCompletesIff(argc: nat, input: LoadInput)
    ensures MainReport(argc, input) == Completed <==>
      argc == 2 && input.Parsed? && input.doc.Mapping?
      && RequiredKeys <= input.doc.entries.Keys && SixRulesAccept(input.doc.entries)
  {
    if input.Parsed? && input.doc.Mapping? && RequiredKeys <= input.doc.entries.Keys {
      ValuesStageSixRules(input.doc.entries);
    }
  }

  /** The required-key check runs before the value checks: a configuration
      that lacks a key reports the missing keys, whatever its values are. */
  lemma MissingKeysReportedFirst(m: map<string, Value>)
    requires !(RequiredKeys <= m.Keys)
    ensures MainReport(2, Parsed(Mapping(m))) == ConfigFailure(MissingKeys(RequiredKeys - m.Keys))
  {
  }

  /** With every key present, the report is that of the first rejecting
      validator in the dictionary's order. */
  lemma {:induction false} FirstRejectionReported(m: map<string, Value>, j: nat, e: ConfigError)
    requires RequiredKeys <= m.Keys
    requires j < |Validators| && Validators[j].1(m[Validators[j].0]) == Fail(e)
    requires forall l :: 0 <= l < j ==> Accepts(m, Validators[l])
    ensures MainReport(2, Parsed(Mapping(m))) == ConfigFailure(e)
  {
    ValidatorKeysAreRequiredKeys();
    RunRulesFirstFailure(m, Validators, e);
  }

  /** The entries of the `validators` dictionary, one by one. */
  lemma ValidatorEntries(m: map<string, Value>)
    requires RequiredKeys <= m.Keys
    ensures Validators[0].0 == "package_name" && Validators[0].1(m["package_name"]) == ValidatePackageName(m["package_name"])
    ensures Validators[1].0 == "repo_url" && Validators[1].1(m["repo_url"]) == ValidateRepoUrl(m["repo_url"])
    ensures Validators[2].0 == "mode" && Validators[2].1(m["mode"]) == ValidateMode(m["mode"])
    ensures Validators[3].0 == "version" && Validators[3].1(m["version"]) == ValidateVersion(m["version"])
    ensures Validators[4].0 == "output_image" && Validators[4].1(m["output_image"]) == ValidateOutputImage(m["output_image"])
    ensures Validators[5].0 == "filter_substring"
      && Validators[5].1(m["filter_substring"]) == ValidateFilterSubstring(m["filter_substring"])
    ensures Accepts(m, Validators[0]) == ValidatePackageName(m["package_name"]).Pass?
    ensures Accepts(m, Validators[1]) == ValidateRepoUrl(m["repo_url"]).Pass?
    ensures Accepts(m, Validators[2]) == ValidateMode(m["mode"]).Pass?
    ensures Accepts(m, Validators[3]) == ValidateVersion(m["version"]).Pass?
    ensures Accepts(m, Validators[4]) == ValidateOutputImage(m["output_image"]).Pass?
    ensures Accepts(m, Validators[5]) == ValidateFilterSubstring(m["filter_substring"]).Pass?
  {
  }

  /** A rejected mode is reported once the package name and the repository
      URL have passed, whatever the later values are. */
  lemma ModeRejectionReported(m: map<string, Value>)
    requires RequiredKeys <= m.Keys
    requires ValidatePackageName(m["package_name"]).Pass? && ValidateRepoUrl(m["repo_url"]).Pass?
    requires ValidateMode(m["mode"]).Fail?
    ensures MainReport(2, Parsed(Mapping(m))) == ConfigFailure(InvalidMode)
  {
    ValidatorEntries(m);
    FirstRejectionReported(m, 2, InvalidMode);
  }

  /** A rejected output file name is reported once the four values before
      it have passed, whatever the filter is. */
  lemma OutputImageRejectionReported(m: map<string, Value>)
    requires RequiredKeys <= m.Keys
    requires ValidatePackageName(m["package_name"]).Pass? && ValidateRepoUrl(m["repo_url"]).Pass?
    requires ValidateMode(m["mode"]).Pass? && ValidateVersion(m["version"]).Pass?
    requires ValidateOutputImage(m["output_image"]).Fail?
    ensures MainReport(2, Parsed(Mapping(m))) == ConfigFailure(InvalidOutputImage)
  {
    ValidatorEntries(m);
    FirstRejectionReported(m, 4, InvalidOutputImage);
  }

  /** Every failure ends the process with exit code 1, except an interrupt,
      which `main` does not catch; only a completed run exits with 0. */
  lemma MainExitStatus(argc: nat, input: LoadInput)
    ensures ExitStatusOf(MainReport(argc, input)) == Exit(0) <==> MainReport(argc, input) == Completed
    ensures ExitStatusOf(MainReport(argc, input)) == UncaughtInterrupt <==> argc == 2 && input == Interrupted
    ensures ExitStatusOf(MainReport(argc, input)).Exit? ==> ExitStatusOf(MainReport(argc, input)).code in {0, 1}
  {
  }

  class ConfigManager {
    /** `self.config`: `{}` until `load_config` stores the parsed document. */
    var config: Document

    constructor ()
      ensures config == Mapping(map[])
    {
      config := Mapping(map[]);
    }

    method LoadConfig(input: LoadInput) returns (r: Step)
      modifies this
      ensures r == LoadStage(input)
      ensures input.Parsed? ==> config == input.doc
      ensures !input.Parsed? ==> config == old(config)
    {
      match input {
        case Parsed(doc) =>
          config := doc;
          r := Pass;
        case FileMissing => r := Fail(Config(FileNotFound));
        case YamlSyntaxError => r := Fail(Config(YamlFormat));
        case ReadError => r := Fail(Unexpected);
        case Interrupted => r := Fail(Interrupt);
      }
    }

    method ValidateRequiredKeys() returns (r: Step)
      ensures r == RequiredKeysStage(config)
      ensures config.Mapping? ==> (r.Pass? <==> RequiredKeys <= config.entries.Keys)
    {
      if !config.Mapping? {
        return Fail(Unexpected);
      }
      var missing := RequiredKeys - config.entries.Keys;
      Sets.EmptyDifferenceIffSubset(RequiredKeys, config.entries.Keys);
      if missing != {} {
        return Fail(Config(MissingKeys(missing)));
      }
      return Pass;
    }

    /** The `for` loop over `validators`, leaving at the first exception. */
    method ValidateValues() returns (r: Step)
      ensures r == ValuesStage(config)
    {
      var i := 0;
      while i < |Validators|
        invariant 0 <= i <= |Validators|
        invariant RunRules(config, Validators[i..]) == ValuesStage(config)
      {
        var (key, validate) := Validators[i];
        if !config.Mapping? || key !in config.entries {
          return Fail(Unexpected);
        }
        var verdict := validate(config.entries[key]);
        if verdict.Fail? {
          return Fail(Config(verdict.error));
        }
        i := i + 1;
      }
      return Pass;
    }
  }

  /** `main`, with the length of `sys.argv` and the outcome of reading the
      file named by `sys.argv[1]` as inputs, and `print_config` left out. */
  method RunMain(argc: nat, input: LoadInput) returns (rep: Report)
    ensures rep == MainReport(argc, input)
  {
    if argc != 2 {
      return UsageShown;
    }
    var manager := new ConfigManager();
    var r := manager.LoadConfig(input);
    if r.Pass? {
      r := manager.ValidateRequiredKeys();
    }
    if r.Pass? {
      r := manager.ValidateValues();
    }
    rep := ReportOf(r);
  }
}
