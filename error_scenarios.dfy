/** The scenarios of test_errors.py, each run of `main.py` stated as the
    report and exit status the model gives for it. */
module ErrorScenarios {
  import opened Outcomes
  import opened YamlDocument
  import opened ConfigValidator
  import opened ConfigPipeline
  import PackageAnalyzer

  /** The five keys every scenario file but the first two sets correctly. */
  const TestBase: map<string, Value> := map[
    "package_name" := Str("test"), "repo_url" := Str("https://example.com"),
    "mode" := Str("remote"), "version" := Str("1.0.0"), "output_image" := Str("graph.png")]

  /** "nonexistent_file.yaml" does not exist. */
  lemma MissingFileScenario()
    ensures MainReport(2, FileMissing) == ConfigFailure(FileNotFound)
    ensures ExitStatusOf(MainReport(2, FileMissing)) == Exit(1)
  {
  }

  /** `package_name: [unclosed list` is not valid YAML. */
  lemma MalformedYamlScenario()
    ensures MainReport(2, YamlSyntaxError) == ConfigFailure(YamlFormat)
    ensures ExitStatusOf(MainReport(2, YamlSyntaxError)) == Exit(1)
  {
  }

  /** `filter_substring` is left out; it is the one key reported. */
  lemma {:induction false} MissingFilterScenario()
    ensures MainReport(2, Parsed(Mapping(TestBase))) == ConfigFailure(MissingKeys({"filter_substring"}))
  {
    assert RequiredKeys - TestBase.Keys == {"filter_substring"};
    MissingKeysReportedFirst(TestBase);
  }

  /** The three scalar values every complete scenario shares pass their rules. */
  lemma {:induction false} TestValuesAccepted()
    ensures ValidatePackageName(Str("test")) == Pass
    ensures ValidateRepoUrl(Str("https://example.com")) == Pass
    ensures ValidateVersion(Str("1.0.0")) == Pass
  {
    assert !PythonStr.IsWhitespace(Str("test").s[0]);
    assert !PythonStr.IsWhitespace(Str("https://example.com").s[0]);
    assert !PythonStr.IsWhitespace(Str("1.0.0").s[0]);
  }

  /** The values the complete scenario files share, whatever else the
      file holds. */
  predicate SharedTestValues(m: map<string, Value>) {
    RequiredKeys <= m.Keys && m["package_name"] == Str("test")
    && m["repo_url"] == Str("https://example.com") && m["version"] == Str("1.0.0")
  }

  /** `mode: "invalid_mode"` with everything else in order. */
  lemma {:induction false} InvalidModeScenario(m: map<string, Value>)
    requires SharedTestValues(m) && m["mode"] == Str("invalid_mode")
    ensures MainReport(2, Parsed(Mapping(m))) == ConfigFailure(InvalidMode)
  {
    TestValuesAccepted();
    ModeRejectionReported(m);
  }

  /** `output_image: "graph.jpg"` with a valid mode. */
  lemma {:induction false} JpgOutputScenario(m: map<string, Value>)
    requires SharedTestValues(m) && m["mode"] == Str("remote") && m["output_image"] == Str("graph.jpg")
    ensures MainReport(2, Parsed(Mapping(m))) == ConfigFailure(InvalidOutputImage)
  {
    TestValuesAccepted();
    OutputImageExamples();
    OutputImageRejectionReported(m);
  }

  /** The `invalid_mode` file of the fourth scenario reports the mode error. */
  lemma {:induction false} InvalidModeFile()
    ensures MainReport(2, Parsed(Mapping(TestBase["mode" := Str("invalid_mode")]["filter_substring" := Str("test")])))
      == ConfigFailure(InvalidMode)
  {
    var m := TestBase["mode" := Str("invalid_mode")]["filter_substring" := Str("test")];
    assert SharedTestValues(m) && m["mode"] == Str("invalid_mode");
    InvalidModeScenario(m);
  }

  /** The `graph.jpg` file of the fifth scenario reports the output-image error. */
  lemma {:induction false} JpgOutputFile()
    ensures MainReport(2, Parsed(Mapping(TestBase["output_image" := Str("graph.jpg")]["filter_substring" := Str("test")])))
      == ConfigFailure(InvalidOutputImage)
  {
    var m := TestBase["output_image" := Str("graph.jpg")]["filter_substring" := Str("test")];
    assert SharedTestValues(m) && m["mode"] == Str("remote") && m["output_image"] == Str("graph.jpg");
    JpgOutputScenario(m);
  }

  /** A file that lacks a key and also has a bad mode reports the missing
      key: the required-key check comes first. */
  lemma {:induction false} MissingKeyBeforeBadMode()
    ensures MainReport(2, Parsed(Mapping(TestBase["mode" := Str("invalid_mode")])))
      == ConfigFailure(MissingKeys({"filter_substring"}))
  {
    var m := TestBase["mode" := Str("invalid_mode")];
    assert RequiredKeys - m.Keys == {"filter_substring"};
    MissingKeysReportedFirst(m);
  }

  /** package_analyzer.py lets both of main.py's value failures through. */
  lemma AnalyzerAcceptsBadModeAndJpg()
    ensures PackageAnalyzer.Accepts(Mapping(TestBase["mode" := Str("invalid_mode")]["filter_substring" := Str("test")]))
    ensures PackageAnalyzer.Accepts(Mapping(TestBase["output_image" := Str("graph.jpg")]["filter_substring" := Str("test")]))
    ensures !PackageAnalyzer.Accepts(Mapping(TestBase))
  {
  }
}
