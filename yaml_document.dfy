/** What the configuration loaders see of the world outside the program:
    the value `yaml.safe_load` produced, or the way opening and parsing the
    file failed, and the status the process ends with. */
module YamlDocument {

  /** A YAML scalar or collection value, as far as the validators can tell
      them apart: a string, `null`, or anything else (numbers, booleans,
      lists, nested mappings). */
  datatype Value = Str(s: string) | Null | Other

  /** The top level of a parsed YAML file: an empty document (Python `None`),
      a mapping, or any other top-level value (a list or a scalar). */
  datatype Document = Empty | Mapping(entries: map<string, Value>) | NonMapping

  /** The outcome of opening the configuration file and running
      `yaml.safe_load` on it. */
  datatype LoadInput =
    | Parsed(doc: Document)
    | FileMissing        // FileNotFoundError
    | YamlSyntaxError    // yaml.YAMLError
    | ReadError          // any other error while opening or decoding the file
    | Interrupted        // KeyboardInterrupt while loading

  /** How the Python process ends: with an exit code, or by an interrupt that
      no handler caught (the interpreter then ends the process itself). */
  datatype ExitStatus = Exit(code: int) | UncaughtInterrupt
}
