/** The two ways a Python call of the modelled code can end: it returns
    normally, or it raises an exception described by an error value. */
module Outcomes {

  datatype Outcome<+E> = Pass | Fail(error: E)
}
