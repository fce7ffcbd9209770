/** How the two loaders of the repository compare: package_analyzer.py
    checks the same keys as main.py but none of the contents, so it accepts
    everything main.py accepts and more. */
module ValidatorStrength {
  import opened YamlDocument
  import opened ConfigValidator
  import ConfigPipeline
  import PackageAnalyzer

  lemma SameRequiredKeys()
    ensures ConfigPipeline.RequiredKeys == PackageAnalyzer.RequiredKeys
  {
  }

  /** Each of main.py's six rules refuses values that are not strings. */
  lemma SixRulesDemandStrings(m: map<string, Value>)
    requires ConfigPipeline.RequiredKeys <= m.Keys && ConfigPipeline.SixRulesAccept(m)
    ensures m["package_name"].Str? && m["repo_url"].Str? && m["mode"].Str?
    ensures m["version"].Str? && m["output_image"].Str? && m["filter_substring"].Str?
  {
  }

  /** A mapping whose six required values are strings passes
      package_analyzer.py. */
  lemma SixStringsAccepted(m: map<string, Value>)
    requires ConfigPipeline.RequiredKeys <= m.Keys
    requires m["package_name"].Str? && m["repo_url"].Str? && m["mode"].Str?
    requires m["version"].Str? && m["output_image"].Str? && m["filter_substring"].Str?
    ensures PackageAnalyzer.Accepts(Mapping(m))
  {
  }

  /** Everything main.py accepts, package_analyzer.py accepts too. */
  lemma MainAcceptanceImpliesAnalyzerAcceptance(argc: nat, input: LoadInput)
    requires ConfigPipeline.MainReport(argc, input) == ConfigPipeline.Completed
    ensures input.Parsed? && PackageAnalyzer.Accepts(input.doc)
  {
    ConfigPipeline.MainCompletesIff(argc, input);
    SixRulesDemandStrings(input.doc.entries);
    SixStringsAccepted(input.doc.entries);
  }

  /** package_analyzer.py looks at no string's contents: replacing the value
      of a required key by any string keeps an accepted document accepted. */
  lemma AnalyzerIgnoresContents(m: map<string, Value>, k: string, s: string)
    requires PackageAnalyzer.Accepts(Mapping(m)) && k in PackageAnalyzer.RequiredKeys
    ensures PackageAnalyzer.Accepts(Mapping(m[k := Str(s)]))
  {
  }

  /** The configuration whose six values are all the empty string. */
  const AllEmpty: map<string, Value> := map[
    "package_name" := Str(""), "repo_url" := Str(""), "mode" := Str(""),
    "version" := Str(""), "output_image" := Str(""), "filter_substring" := Str("")]

  /** The inclusion is strict: a configuration of empty strings passes
      package_analyzer.py and is refused by main.py for its package name. */
  lemma {:induction false} AnalyzerStrictlyWeaker()
    ensures exists doc :: (PackageAnalyzer.Accepts(doc)
      && ConfigPipeline.MainReport(2, Parsed(doc)) != ConfigPipeline.Completed)
  {
    var doc := Mapping(AllEmpty);
    assert PackageAnalyzer.Accepts(doc);
    assert AllEmpty["package_name"] == Str("");
    ConfigPipeline.MainCompletesIff(2, Parsed(doc));
  }
}
