/** package_analyzer.py's `PackageAnalyzer`: a second loader for the same
    six keys that only checks presence and string type, and wraps every
    `Exception` but a YAML syntax error in a `RuntimeError`. */
module PackageAnalyzer {
  import opened Outcomes
  import opened YamlDocument
  import Sets

  /** `PackageAnalyzer.required_keys`. */
  const RequiredKeys: set<string> :=
    {"package_name", "repo_url", "mode", "version", "output_image", "filter_substring"}

  /** What `_validate_config` raises: a `ValueError` naming the missing
      keys, a `TypeError` naming one key whose value is not a string, or an
      `AttributeError` when the document is not a mapping (it has no
      `keys()`). */
  datatype ValidationError = MissingKeys(keys: set<string>) | NotAString(key: string) | NotAMapping

  /** The exception raised inside the `try` of `load_config`. */
  datatype Cause =
    | FileNotFound                       // `config_path.exists()` is false
    | EmptyDocument                      // `yaml.safe_load` gave `None`
    | Invalid(error: ValidationError)    // raised by `_validate_config`
    | ReadFailure                        // any other error opening or decoding

  /** What leaves `load_config`: `ValueError` for a YAML syntax error,
      `RuntimeError` wrapping every other `Exception`, and the
      `KeyboardInterrupt` that `except Exception` does not catch. */
  datatype LoadError = YamlValueError | Wrapped(cause: Cause) | Interrupt

  /** The documents `_validate_config` lets through: a mapping holding every
      required key, each with a string value. */
  predicate Accepts(doc: Document) {
    doc.Mapping? && RequiredKeys <= doc.entries.Keys
    && forall k :: k in RequiredKeys ==> doc.entries[k].Str?
  }

  class PackageAnalyzer {
    /** `self.config_data`: `{}` until `load_config` stores the document. */
    var configData: Document

    constructor ()
      ensures configData == Mapping(map[])
    {
      configData := Mapping(map[]);
    }

    /** `_validate_config`: the set difference first, then a loop over the
      required keys in the set's iteration order, which Python leaves
      unspecified; hence the arbitrary choice of the next key. */
    method ValidateConfig() returns (r: Outcome<ValidationError>)
      ensures r.Pass? <==> Accepts(configData)
      ensures !configData.Mapping? ==> r == Fail(NotAMapping)
      ensures configData.Mapping? && !(RequiredKeys <= configData.entries.Keys) ==>
        r == Fail(MissingKeys(RequiredKeys - configData.entries.Keys))
      ensures configData.Mapping? && RequiredKeys <= configData.entries.Keys && r.Fail? ==>
        r.error.NotAString?
      ensures r.Fail? && r.error.NotAString? ==>
        r.error.key in RequiredKeys && configData.Mapping? && r.error.key in configData.entries
        && !configData.entries[r.error.key].Str?
    {
      if !configData.Mapping? {
        return Fail(NotAMapping);
      }
      var entries := configData.entries;
      var missing := RequiredKeys - entries.Keys;
      Sets.EmptyDifferenceIffSubset(RequiredKeys, entries.Keys);
      if missing != {} {
        return Fail(MissingKeys(missing));
      }
      var pending := RequiredKeys;
      while pending != {}
        invariant pending <= RequiredKeys <= entries.Keys
        invariant forall k :: k in RequiredKeys && k !in pending ==> entries[k].Str?
        decreases pending
      {
        var key :| key in pending;
        if !entries[key].Str? {
          return Fail(NotAString(key));
        }
        pending := pending - {key};
      }
      return Pass;
    }

    /** `load_config`: store what `yaml.safe_load` gave, refuse an empty
      document, validate, and re-raise. Returning `Pass` is returning
      `True`. */
    method LoadConfig(input: LoadInput) returns (r: Outcome<LoadError>)
      modifies this
      ensures input.Parsed? ==> configData == input.doc
      ensures !input.Parsed? ==> configData == old(configData)
      ensures r.Pass? <==> input.Parsed? && Accepts(input.doc)
      ensures input == YamlSyntaxError <==> r == Fail(YamlValueError)
      ensures input == Interrupted <==> r == Fail(Interrupt)
      ensures input == FileMissing ==> r == Fail(Wrapped(FileNotFound))
      ensures input == ReadError ==> r == Fail(Wrapped(ReadFailure))
      ensures input == Parsed(Empty) ==> r == Fail(Wrapped(EmptyDocument))
      ensures input.Parsed? && input.doc != Empty && r.Fail? ==> r.error.Wrapped? && r.error.cause.Invalid?
      ensures input.Parsed? && input.doc.Mapping? && !(RequiredKeys <= input.doc.entries.Keys) ==>
        r == Fail(Wrapped(Invalid(MissingKeys(RequiredKeys - input.doc.entries.Keys))))
      ensures input == Parsed(NonMapping) ==> r == Fail(Wrapped(Invalid(NotAMapping)))
      ensures input.Parsed? && input.doc.Mapping? && RequiredKeys <= input.doc.entries.Keys && r.Fail? ==>
        r.error.Wrapped? && r.error.cause.Invalid? && r.error.cause.error.NotAString?
        && r.error.cause.error.key in RequiredKeys && !input.doc.entries[r.error.cause.error.key].Str?
    {
      match input {
        case FileMissing => return Fail(Wrapped(FileNotFound));
        case YamlSyntaxError => return Fail(YamlValueError);
        case ReadError => return Fail(Wrapped(ReadFailure));
        case Interrupted => return Fail(Interrupt);
        case Parsed(doc) =>
          configData := doc;
          if configData == Empty {
            return Fail(Wrapped(EmptyDocument));
          }
          var v := ValidateConfig();
          if v.Fail? {
            return Fail(Wrapped(Invalid(v.error)));
          }
          return Pass;
      }
    }

    /** `run`, with `display_config` and the messages left out: every
      exception from `load_config`, and an interrupt, ends with exit code 1. */
    method Run(input: LoadInput) returns (status: ExitStatus)
      modifies this
      ensures status == Exit(if input.Parsed? && Accepts(input.doc) then 0 else 1)
      ensures input.Parsed? ==> configData == input.doc
      ensures !input.Parsed? ==> configData == old(configData)
    {
      var r := LoadConfig(input);
      match r {
        case Pass => status := Exit(0);
        case Fail(YamlValueError) => status := Exit(1);    // ValueError
        case Fail(Wrapped(_)) => status := Exit(1);        // RuntimeError
        case Fail(Interrupt) => status := Exit(1);         // KeyboardInterrupt
      }
    }
  }

  /** The script's entry point: a fresh analyzer and its `run`. */
  method RunAnalyzer(input: LoadInput) returns (status: ExitStatus)
    ensures status == Exit(0) <==> input.Parsed? && Accepts(input.doc)
    ensures status == Exit(0) || status == Exit(1)
  {
    var analyzer := new PackageAnalyzer();
    status := analyzer.Run(input);
  }
}
