/** The per-field acceptance rules of main.py (`ConfigValidator`) and the
    `ConfigError` exception they raise. Each static validator returns `None`
    or raises; here it returns `Pass` or `Fail` with the error it raises. */
module ConfigValidator {
  import opened Outcomes
  import opened YamlDocument
  import opened PythonStr

  /** The cases of main.py's `ConfigError`, told apart by the message they
      carry; a missing-key error also carries the set of missing keys. */
  datatype ConfigError =
    | InvalidPackageName
    | InvalidRepoUrl
    | InvalidMode
    | InvalidVersion
    | InvalidOutputImage
    | InvalidFilterSubstring
    | MissingKeys(keys: set<string>)
    | FileNotFound
    | YamlFormat

  type Verdict = Outcome<ConfigError>

  /** A string with at least one character that is not whitespace. */
  predicate NonBlankString(v: Value) {
    v.Str? && exists i :: 0 <= i < |v.s| && !IsWhitespace(v.s[i])
  }

  /** The Python rule `not isinstance(x, str) or not x.strip()` rejects. */
  function RejectsBlank(v: Value): (reject: bool)
    ensures reject <==> !NonBlankString(v)
  {
    if v.Str? then StripEmptyIffBlank(v.s); Strip(v.s) == [] else true
  }

  function ValidatePackageName(v: Value): (r: Verdict)
    ensures r.Pass? <==> NonBlankString(v)
    ensures r.Fail? ==> r.error == InvalidPackageName
  {
    if RejectsBlank(v) then Fail(InvalidPackageName) else Pass
  }

  function ValidateRepoUrl(v: Value): (r: Verdict)
    ensures r.Pass? <==> NonBlankString(v)
    ensures r.Fail? ==> r.error == InvalidRepoUrl
  {
    if RejectsBlank(v) then Fail(InvalidRepoUrl) else Pass
  }

  /** The list `valid_modes` of main.py. */
  const ValidModes: seq<string> := ["local", "remote"]

  /** `mode not in valid_modes` compares by equality, so a value that is not
      a string is never in the list. */
  function ValidateMode(v: Value): (r: Verdict)
    ensures r.Pass? <==> v == Str("local") || v == Str("remote")
    ensures r.Fail? ==> r.error == InvalidMode
  {
    if v.Str? && v.s in ValidModes then Pass else Fail(InvalidMode)
  }

  function ValidateVersion(v: Value): (r: Verdict)
    ensures r.Pass? <==> NonBlankString(v)
    ensures r.Fail? ==> r.error == InvalidVersion
  {
    if RejectsBlank(v) then Fail(InvalidVersion) else Pass
  }

  /** The suffix `validate_output_image` demands. */
  const ImageSuffix: string := ".png"

  function ValidateOutputImage(v: Value): (r: Verdict)
    ensures r.Pass? <==> v.Str? && exists stem :: v.s == stem + ImageSuffix
    ensures r.Fail? ==> r.error == InvalidOutputImage
  {
    if !v.Str? || !EndsWith(v.s, ImageSuffix) then Fail(InvalidOutputImage) else Pass
  }

  function ValidateFilterSubstring(v: Value): (r: Verdict)
    ensures r.Pass? <==> v.Str?
    ensures r.Fail? ==> r.error == InvalidFilterSubstring
  {
    if !v.Str? then Fail(InvalidFilterSubstring) else Pass
  }

  /** Blank package names are refused: the empty string and strings made of
      spaces, tabs and line breaks alone. */
  lemma BlankNamesRejected(s: string)
    requires IsBlank(s)
    ensures ValidatePackageName(Str(s)) == Fail(InvalidPackageName)
    ensures ValidateRepoUrl(Str(s)) == Fail(InvalidRepoUrl)
    ensures ValidateVersion(Str(s)) == Fail(InvalidVersion)
  {
  }

  /** One non-whitespace character anywhere is enough, whatever surrounds it. */
  lemma {:induction false} PaddedNameAccepted(pad1: string, c: char, pad2: string)
    requires IsBlank(pad1) && IsBlank(pad2) && !IsWhitespace(c)
    ensures ValidatePackageName(Str(pad1 + [c] + pad2)) == Pass
  {
    assert (pad1 + [c] + pad2)[|pad1|] == c;
  }

  /** The mode check is case-sensitive and refuses everything but the two
      names, `"invalid_mode"` among them. */
  lemma ModeExamples()
    ensures ValidateMode(Str("local")) == Pass && ValidateMode(Str("remote")) == Pass
    ensures ValidateMode(Str("Local")) == Fail(InvalidMode)
    ensures ValidateMode(Str("REMOTE")) == Fail(InvalidMode)
    ensures ValidateMode(Str("invalid_mode")) == Fail(InvalidMode)
    ensures ValidateMode(Null) == Fail(InvalidMode) && ValidateMode(Other) == Fail(InvalidMode)
  {
  }

  /** The bare suffix is itself an acceptable file name; a `.jpg` name is not. */
  lemma {:induction false} OutputImageExamples()
    ensures ValidateOutputImage(Str(".png")) == Pass
    ensures ValidateOutputImage(Str("graph.png")) == Pass
    ensures ValidateOutputImage(Str("graph.jpg")) == Fail(InvalidOutputImage)
    ensures ValidateOutputImage(Str("png")) == Fail(InvalidOutputImage)
  {
    assert Str(".png").s == [] + ImageSuffix;
    assert Str("graph.png").s == "graph" + ImageSuffix;
  }

  /** The filter may be any string, the empty one included. */
  lemma FilterExamples()
    ensures ValidateFilterSubstring(Str("   ")) == Pass
    ensures ValidateFilterSubstring(Str("")) == Pass
    ensures ValidateFilterSubstring(Null) == Fail(InvalidFilterSubstring)
  {
  }
}
