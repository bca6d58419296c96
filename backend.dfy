/**
  The names of the critical-path backends a build can select, with their
  textual form (`Display`) and the parser that reads it back (`FromStr`).
 */
module Backend {
  import opened Results

  /** The two critical-path backends. */
  datatype CriticalPathBackendName = LongestPathGraph | Default

  /** The name a backend is rendered as. */
  function Display(name: CriticalPathBackendName): (s: string)
    ensures |s| > 0
  {
    match name
    case LongestPathGraph => "longest-path-graph"
    case Default => "default"
  }

  /** The error message for a string that names no backend. */
  function InvalidName(s: string): string
  {
    "Invalid backend name: `" + s + "`"
  }

  /**
    Parses a backend name: the two rendered names are accepted, and any
    other string is an error that quotes it.
   */
  function FromStr(s: string): (r: Result<CriticalPathBackendName, string>)
    ensures r.Ok? <==> s == "longest-path-graph" || s == "default"
    ensures r.Ok? ==> Display(r.value) == s
    ensures r.Err? ==> r.error == InvalidName(s)
  {
    if s == "longest-path-graph" then
      Ok(LongestPathGraph)
    else if s == "default" then
      Ok(Default)
    else
      Err(InvalidName(s))
  }

  /** Parsing what was rendered gives back the same backend. */
  lemma RoundTrip(name: CriticalPathBackendName)
    ensures FromStr(Display(name)) == Ok(name)
  {
  }

  /** Distinct backends render to distinct strings. */
  lemma DisplayInjective(a: CriticalPathBackendName, b: CriticalPathBackendName)
    ensures Display(a) == Display(b) ==> a == b
  {
  }

  /** The parser accepts exactly the strings that some backend renders to. */
  lemma FromStrAcceptsExactlyDisplayed(s: string)
    ensures FromStr(s).Ok? <==> exists name :: Display(name) == s
  {
  }
}
