# Configuration validation of the package analyzer

This project models the configuration handling of a small package-dependency
tool. Two Python entry points read the same YAML configuration. Both need the
six keys `package_name`, `repo_url`, `mode`, `version`, `output_image` and
`filter_substring`.

- `main.py` checks each value with its own rule (`ConfigValidator`). It runs a
  three-step pipeline (`ConfigManager`): load the file, check that the required
  keys are present, then check the values. `main` stops at the first failure
  and exits with code 1.
- `package_analyzer.py` (`PackageAnalyzer`) checks only that each key is
  present and holds a string. Its `load_config` wraps every `Exception` except
  a YAML syntax error in a `RuntimeError` and lets an interrupt through, and
  `run` exits with code 1 on any of them.

What is proved:

- Each validator accepts exactly the values its rule allows:
  - a non-blank string for the name, the URL and the version
  - exactly `"local"` or `"remote"` for the mode
  - a string ending in `.png` for the output image
  - any string for the filter
- The value loop succeeds exactly when all six rules accept. When it fails, it
  reports the first rejection in the dictionary's order.
- The required-key check runs first. Its error carries exactly the missing
  set.
- `main` completes exactly when it gets one argument and every stage passes.
- `package_analyzer.py` accepts everything `main.py` accepts, and strictly
  more.
- The scenarios of `test_errors.py` end with the outcomes their names describe.

Python's exceptions are modelled as values. An `Outcome` is `Pass` or
`Fail(error)`, and the error says which exception was raised. The result of
opening the file and running `yaml.safe_load` is an input (`LoadInput`). So are
the number of command-line words and an interrupt during loading. The process
exit status (`ExitStatus`) is a result.

Files: `outcomes.dfy`, `yaml_document.dfy` (parsed YAML values and the loading
outcome), `sets.dfy`, `python_str.dfy` (`str.strip`, `str.isspace`,
`str.endswith`), `config_validator.dfy`, `config_pipeline.dfy` (`ConfigManager` and `main`),
`package_analyzer.dfy`, `validator_strength.dfy`,
`error_scenarios.dfy`.

## Model

| member | source | states |
|---|---|---|
| PythonStr.StripLeadingSuffix | main.py:16 | `lstrip` leaves a suffix of the string. Everything it dropped is whitespace, and what is left does not start with whitespace. |
| PythonStr.StripTrailingPrefix | main.py:16 | `rstrip` leaves a prefix of the string. Everything it dropped is whitespace, and what is left does not end with whitespace. |
| PythonStr.StripEmptyIffBlank | main.py:16 | `s.strip()` is empty exactly when every character of `s` is whitespace, the empty string included. |
| PythonStr.EndsWith | main.py:37 | `s.endswith(t)` holds exactly when `s` is some string followed by `t`. |
| Sets.EmptyDifferenceIffSubset | main.py:68-69 | `required - present` is empty exactly when every required key is present. |
| ConfigValidator.RejectsBlank | main.py:16 | `not isinstance(x, str) or not x.strip()` holds exactly for non-strings and blank strings. |
| ConfigValidator.ValidatePackageName | main.py:15-17 | Accepts exactly the strings that have a non-whitespace character. Otherwise it raises the package-name error. |
| ConfigValidator.ValidateRepoUrl | main.py:20-22 | Same non-blank-string rule as the package name, with the URL error. |
| ConfigValidator.ValidateMode | main.py:25-28 | Accepts exactly `Str("local")` and `Str("remote")`. Every other value, strings and non-strings alike, gets the mode error. |
| ConfigValidator.ValidateVersion | main.py:31-33 | Same non-blank-string rule as the package name, with the version error. |
| ConfigValidator.ValidateOutputImage | main.py:36-38 | Accepts exactly the strings that are some stem followed by `.png`. Otherwise it raises the output-image error. |
| ConfigValidator.ValidateFilterSubstring | main.py:41-43 | Accepts every string and rejects only non-strings. |
| ConfigValidator.BlankNamesRejected | main.py:15-33 | A blank string, the empty string included, is refused by the name, URL and version rules, each with its own error. |
| ConfigValidator.PaddedNameAccepted | main.py:15-17 | One non-whitespace character between any whitespace padding is enough for the name rule. |
| ConfigValidator.ModeExamples | main.py:25-28 | The mode rule is case-sensitive: `Local`, `REMOTE` and `invalid_mode` are refused. `null` and other non-strings are refused too. |
| ConfigValidator.OutputImageExamples | main.py:36-38 | The bare string `.png` and `graph.png` are accepted. `graph.jpg` and `png` are refused. |
| ConfigValidator.FilterExamples | main.py:41-43 | The empty string and an all-whitespace string are acceptable filters, unlike for the non-blank rules. `null` is not. |
| ConfigPipeline.RequiredKeysStage | main.py:67-72 | On a mapping, passes exactly when every required key is present. Otherwise the error is exactly `required_keys - keys`, which is non-empty. A document that is not a mapping raises a non-`ConfigError` exception. |
| ConfigPipeline.RunRules | main.py:85-86 | The value loop never raises an interrupt. A failure is a `ConfigError` from a rule, or an exception from reading a missing key or a non-mapping. |
| ConfigPipeline.RunRulesPassIff | main.py:74-88 | The value loop returns exactly when every rule finds its key and accepts its value. |
| ConfigPipeline.RunRulesFirstFailure | main.py:85-86 | The loop fails with `ConfigError` `e` exactly when some rule rejects its value with `e` and every rule before it accepted (first failure wins). |
| ConfigPipeline.RunRulesOnlyConfigErrors | main.py:85-86 | With every key the loop reads present, it raises nothing but `ConfigError`s. |
| ConfigPipeline.ValidatorKeysAreRequiredKeys | main.py:51-83 | The keys of the `validators` dictionary are exactly the required keys. |
| ConfigPipeline.ValidatorEntries | main.py:76-83 | Each dictionary entry pairs its key with that key's own rule, in the order package_name, repo_url, mode, version, output_image, filter_substring. |
| ConfigPipeline.ValidatorsAreSixRules | main.py:76-83 | All dictionary entries accept exactly when the six named rules accept their own keys' values. |
| ConfigPipeline.ValuesStageSixRules | main.py:74-88 | With all required keys present, `validate_values` raises only `ConfigError`s. It returns exactly when all six rules accept. |
| ConfigPipeline.ExtraKeysHarmless | main.py:67-72 | Adding keys never makes the required-key check fail. |
| ConfigPipeline.MainCompletesIff | main.py:98-119 | `main` completes exactly when argc is 2 and the file parses to a mapping. That mapping must hold every required key, and all six rules must accept. |
| ConfigPipeline.MissingKeysReportedFirst | main.py:108-111 | When a key is missing, `main` reports exactly the missing set, whatever the values are. The required-key check runs before the value checks. |
| ConfigPipeline.FirstRejectionReported | main.py:108-116 | With all keys present, `main` reports the error of the first rejecting rule in dictionary order. |
| ConfigPipeline.ModeRejectionReported | main.py:76-86 | If the name and the URL pass, a rejected mode is reported, whatever the later values are. |
| ConfigPipeline.OutputImageRejectionReported | main.py:76-86 | If the four values before it pass, a rejected output file name is reported, whatever the filter is. |
| ConfigPipeline.MainExitStatus | main.py:100-119 | Exit code 0 exactly on completion and code 1 on every other failure. An interrupt during loading escapes `except Exception` and is the only uncaught end. |
| ConfigPipeline.ConfigManager.constructor | main.py:48-54 | A new manager starts with the empty mapping `{}` as its configuration. |
| ConfigPipeline.ConfigManager.LoadConfig | main.py:56-65 | A parsed document is stored and nothing is raised. A missing file or a YAML error becomes a `ConfigError`, and the stored configuration is then unchanged. Other failures escape as they are. |
| ConfigPipeline.ConfigManager.ValidateRequiredKeys | main.py:67-72 | The result is the required-key stage of the stored configuration: on a mapping, it passes exactly when every required key is present. It changes nothing. |
| ConfigPipeline.ConfigManager.ValidateValues | main.py:74-88 | The loop over the validators ends with the value stage of the stored configuration, leaving at the first exception. |
| ConfigPipeline.RunMain | main.py:98-119 | The report of `main` is the pipeline's: usage on a wrong argc, otherwise the first failing step, in the order load, keys, values. |
| PackageAnalyzer.PackageAnalyzer.constructor | package_analyzer.py:8-20 | A new analyzer starts with the empty mapping `{}` as its configuration data. |
| PackageAnalyzer.PackageAnalyzer.ValidateConfig | package_analyzer.py:42-49 | Passes exactly when the data is a mapping with every required key holding a string. A missing key is reported with the missing set, before any type check. With every key present, the only failure is the type error, and it names a required key whose value is not a string. A document that is not a mapping fails with the attribute error. |
| PackageAnalyzer.PackageAnalyzer.LoadConfig | package_analyzer.py:22-40 | Returns `True` exactly when the parsed document passes `_validate_config`. A YAML syntax error surfaces as `ValueError` and an interrupt passes through. Every other failure surfaces as `RuntimeError`: a missing file, a read error, an empty document, a non-mapping document, missing keys, or, with every key present, a type error naming a non-string required value. |
| PackageAnalyzer.PackageAnalyzer.Run | package_analyzer.py:58-76 | Exit code 0 exactly when loading returned `True`, and 1 on every exception and on an interrupt. |
| PackageAnalyzer.RunAnalyzer | package_analyzer.py:78-80 | The script exits with 0 exactly for accepted configurations, and with 1 otherwise. |
| ValidatorStrength.SameRequiredKeys | package_analyzer.py:13-20 | Both loaders require the same six keys. |
| ValidatorStrength.SixRulesDemandStrings | main.py:15-43 | Each of the six rules of `main.py` accepts only strings. |
| ValidatorStrength.SixStringsAccepted | package_analyzer.py:42-49 | A mapping with all six keys holding strings passes `_validate_config`. |
| ValidatorStrength.MainAcceptanceImpliesAnalyzerAcceptance | package_analyzer.py:42-49 | Every configuration `main.py` completes on is accepted by `package_analyzer.py`. |
| ValidatorStrength.AnalyzerIgnoresContents | package_analyzer.py:47-49 | Replacing a required value by any string at all keeps an accepted configuration accepted: no content checks. |
| ValidatorStrength.AnalyzerStrictlyWeaker | package_analyzer.py:42-49 | Some configuration passes `package_analyzer.py` and is refused by `main.py`, for example all six values empty. |
| ErrorScenarios.MissingFileScenario | test_errors.py:21-25 | A file that does not exist is reported as not found, with exit code 1. |
| ErrorScenarios.MalformedYamlScenario | test_errors.py:26-30 | An unclosed YAML list is reported as a YAML format error, with exit code 1. |
| ErrorScenarios.MissingFilterScenario | test_errors.py:31-42 | The file without `filter_substring` reports exactly that one key as missing. |
| ErrorScenarios.TestValuesAccepted | test_errors.py:45-51 | The scenario values `test`, `https://example.com` and `1.0.0` pass their rules. |
| ErrorScenarios.InvalidModeScenario | test_errors.py:43-54 | A file with the scenario's name, URL and version and `mode: invalid_mode` reports the mode error. |
| ErrorScenarios.JpgOutputScenario | test_errors.py:55-66 | A file with the scenario's values and `graph.jpg` as output reports the output-image error. |
| ErrorScenarios.InvalidModeFile | test_errors.py:43-54 | The fourth scenario's file, with `mode: invalid_mode`, makes `main` report the mode error. |
| ErrorScenarios.JpgOutputFile | test_errors.py:55-66 | The fifth scenario's file, with `output_image: graph.jpg`, makes `main` report the output-image error. |
| ErrorScenarios.MissingKeyBeforeBadMode | main.py:108-111 | A file that lacks a key and also has a bad mode reports the missing key. |
| ErrorScenarios.AnalyzerAcceptsBadModeAndJpg | package_analyzer.py:42-49 | `package_analyzer.py` accepts the bad-mode and `.jpg` files and refuses the one missing `filter_substring`. |

## Left out

- PackageAnalyzer.PackageAnalyzer.ValidateConfig: when several required values are not strings, the type error names one of them, without saying which. Python loops over a `set`, whose iteration order is unspecified, and the model picks the next key arbitrarily.
- Opening the file and `yaml.safe_load` are foreign library calls and file I/O. Their outcome is the input `LoadInput`: a parsed document, a missing file, a YAML syntax error, another read error, or an interrupt.
- The configuration path and its existence check are not modelled. A path that does not exist is the `FileMissing` input.
- Reading `sys.argv` and calling `sys.exit` are replaced by the parameter `argc` and a returned `ExitStatus`. On an uncaught interrupt, the exit code Python chooses is not modelled.
- `print_config`, `display_config` and all printed messages are console output only. Errors are tagged kinds, plus the missing-key set where one is reported.
- A `KeyboardInterrupt` is modelled only while the file is loaded, not at other points of the run.
- YAML mapping keys are strings in the model, and non-string keys are not represented. Such a key never equals a required key. For the same reason, the `TypeError` that `sorted()` in `display_config` could raise on keys of mixed type is not modelled.
- `test_errors.py` itself is a subprocess harness (temporary files, `subprocess.run`, `os.unlink`). Only its scenarios are stated, as lemmas.
- The dependency-graph traversal, manifest parsing, fetching, filtering and reporting are not implemented by any of these source files. There is nothing here to check a model of them against.
