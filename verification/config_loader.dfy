/**
  Loading of the optional JSON configuration file (bin/utils.js `getConfig`).
  The file system and `JSON.parse` are not modelled: the caller supplies
  whether the path names an existing regular file and what parsing its text
  yields (`None` when `JSON.parse` throws).
 */
module ConfigLoader {
  import opened Wrappers
  import opened JsValues

  /** What `getConfig` returns, with the lines it prints on standard error. */
  datatype Loaded<+C> = Loaded(config: Option<C>, diagnostics: seq<string>)

  /** No configuration path was given: it is undefined or the empty string (bin/utils.js:20). */
  predicate NoPath(file: Option<string>) {
    file.None? || file.value == ""
  }

  function GetConfig<C>(file: Option<string>, isRegularFile: bool, parsed: Option<C>): (r: Loaded<C>)
    // the parsed value is returned exactly when there is a readable regular file that parses
    ensures r.config.Some? <==> !NoPath(file) && isRegularFile && parsed.Some?
    ensures r.config.Some? ==> r.config == parsed
    // no path: silently no configuration
    ensures NoPath(file) ==> r.diagnostics == []
    // at most one diagnostic, always naming the file, and only on failure
    ensures r.config.Some? ==> r.diagnostics == []
    ensures !NoPath(file) && !isRegularFile ==> r.diagnostics == [file.value + ": no such file."]
    ensures !NoPath(file) && isRegularFile && parsed.None? ==> r.diagnostics == [file.value + ": error parsing."]
  {
    if NoPath(file) then Loaded(None, [])
    else if isRegularFile then
      match parsed
      case None => Loaded(None, [file.value + ": error parsing."])
      case Some(c) => Loaded(Some(c), [])
    else Loaded(None, [file.value + ": no such file."])
  }
}
