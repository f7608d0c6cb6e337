/**
  The command-line flow of bin/cli.js: the help check, configuration loading
  and preference resolution, the fail-fast validation sequence, the choice
  between standard input and a named file, and the process exit status.
  The engine's `hasLocale` and `execute` are parameters.
 */
module Cli {
  import opened Wrappers
  import opened JsValues
  import opened ConfigLoader
  import opened Preferences
  import opened InputRouter

  /** `types`: the accepted HTML-entity modes. */
  const EntityTypes: seq<string> := ["digit", "name", "default"]

  /** The conditions that stop the run before any text is processed. */
  datatype CliError =
    | LocaleNotAList                    // `prefs.locale` is null, so reading `.length` throws
    | LocaleRequired
    | LocaleUnsupported(locale: string)
    | ModeUnsupported(mode: Json)
    | FileNotSpecified

  /** Observable effects of the whole process, in order. */
  datatype Effect =
    | ShowHelp                  // `program.help()`, which prints usage and exits
    | ErrorLine(line: string)   // `console.error(line)`
    | LogLine(line: string)     // `console.log(line)`
    | Engine(event: Event)      // a lint run or a write of transformed text
    | TypeErrorThrown           // an uncaught exception ends the process

  /** How the process ends: its effects and its exit status. */
  datatype Ending = Ending(effects: seq<Effect>, status: int)

  datatype Mode = StdinMode | FileMode

  /** Everything input routing needs once the checks have passed. */
  datatype Launch = Launch(prefs: Prefs, mode: Mode)

  /** The diagnostic each error produces. */
  function Report(e: CliError): (r: Effect)
    ensures r.ErrorLine? || r.LogLine? || r.TypeErrorThrown?
    // the missing-file message alone goes to standard output
    ensures r.LogLine? <==> e == FileNotSpecified
    ensures r.TypeErrorThrown? <==> e == LocaleNotAList
  {
    match e
    case LocaleNotAList => TypeErrorThrown
    case LocaleRequired => ErrorLine("Error: required parameter locale.")
    case LocaleUnsupported(l) => ErrorLine("Error: locale \"" + l + "\" is not supported.")
    case ModeUnsupported(m) => ErrorLine("Error: mode \"" + ShowJson(m) + "\" is not supported.")
    case FileNotSpecified => LogLine("Error: file isn't specified.")
  }

  predicate AllSupported(locales: seq<string>, hasLocale: string -> bool) {
    forall j :: 0 <= j < |locales| ==> hasLocale(locales[j])
  }

  /** `locales[i]` is the first locale, in list order, the engine rejects. */
  predicate FirstRejectedAt(locales: seq<string>, hasLocale: string -> bool, i: int) {
    && 0 <= i < |locales|
    && !hasLocale(locales[i])
    && AllSupported(locales[..i], hasLocale)
  }

  /** The `for ... of` loop over the locales: where it stops, if anywhere. */
  function FirstRejected(locales: seq<string>, hasLocale: string -> bool): (r: Option<nat>)
    ensures r.Some? ==> FirstRejectedAt(locales, hasLocale, r.value)
    ensures r.None? <==> AllSupported(locales, hasLocale)
  {
    if |locales| == 0 then None
    else if !hasLocale(locales[0]) then Some(0)
    else
      match FirstRejected(locales[1..], hasLocale)
      case None => None
      case Some(i) =>
        assert locales[..i + 1] == [locales[0]] + locales[1..][..i];
        Some(i + 1)
  }

  /**
    The entity-mode test of bin/cli.js:50: a missing or falsy `type` counts as
    `default`, and the mode must then be one of the accepted strings.
   */
  predicate EntityTypeAccepted(entity: map<string, Json>) {
    var t := if "type" in entity && Truthy(entity["type"]) then entity["type"] else JStr("default");
    t.JStr? && t.s in EntityTypes
  }

  /** Everything the validation sequence demands of the resolved preferences. */
  predicate Admissible(prefs: Prefs, hasLocale: string -> bool) {
    && prefs.locale.Val?
    && |prefs.locale.value| > 0
    && AllSupported(prefs.locale.value, hasLocale)
    && EntityTypeAccepted(prefs.htmlEntity)
  }

  /** The validation sequence of bin/cli.js: locale presence, locale support, entity mode. */
  function Validate(prefs: Prefs, hasLocale: string -> bool): (r: Outcome<CliError>)
    ensures r.Pass? <==> Admissible(prefs, hasLocale)
    ensures r == Fail(LocaleNotAList) <==> !prefs.locale.Val?
    ensures r == Fail(LocaleRequired) <==> prefs.locale == Val([])
    // the first rejected locale is the one reported
    ensures r.Fail? && r.error.LocaleUnsupported? ==>
      prefs.locale.Val? && exists i :: FirstRejectedAt(prefs.locale.value, hasLocale, i) && prefs.locale.value[i] == r.error.locale
    ensures prefs.locale.Val? && !AllSupported(prefs.locale.value, hasLocale) ==> r.Fail? && r.error.LocaleUnsupported?
    // the entity mode is checked only once every locale is accepted
    ensures r.Fail? && r.error.ModeUnsupported? <==>
      prefs.locale.Val? && |prefs.locale.value| > 0 && AllSupported(prefs.locale.value, hasLocale)
      && !EntityTypeAccepted(prefs.htmlEntity)
    ensures r.Fail? && r.error.ModeUnsupported? ==> "type" in prefs.htmlEntity && r.error.mode == prefs.htmlEntity["type"]
    ensures r != Fail(FileNotSpecified)
  {
    match prefs.locale
    case Val(locales) =>
      if |locales| == 0 then Fail(LocaleRequired)
      else
        (match FirstRejected(locales, hasLocale)
         case Some(i) => Fail(LocaleUnsupported(locales[i]))
         case None =>
           if EntityTypeAccepted(prefs.htmlEntity) then Pass
           else Fail(ModeUnsupported(prefs.htmlEntity["type"])))
    case _ => Fail(LocaleNotAList)
  }

  /** Mode selection: standard input, or the first positional argument as the file. */
  function SelectInput(program: Program, prefs: Prefs): (r: Result<Launch, CliError>)
    ensures IsSet(program.stdin) ==> r == Success(Launch(prefs.(filename := program.stdinFilename), StdinMode))
    ensures !IsSet(program.stdin) ==> (r.Failure? <==> |program.args| == 0 || program.args[0] == "")
    ensures !IsSet(program.stdin) && r.Success? ==> r.value == Launch(prefs.(filename := Some(program.args[0])), FileMode)
    ensures r.Failure? ==> r.error == FileNotSpecified
  {
    if IsSet(program.stdin) then
      Success(Launch(prefs.(filename := program.stdinFilename), StdinMode))
    else
      var filename := if |program.args| > 0 then Some(program.args[0]) else None;
      if filename.None? || filename.value == "" then Failure(FileNotSpecified)
      else Success(Launch(prefs.(filename := filename), FileMode))
  }

  /** The checks after preference resolution, in order; the first failure wins. */
  function Check(program: Program, prefs: Prefs, hasLocale: string -> bool): (r: Result<Launch, CliError>)
    ensures !Admissible(prefs, hasLocale) ==> r.Failure? && Validate(prefs, hasLocale) == Fail(r.error)
    ensures r == Failure(FileNotSpecified) ==> Admissible(prefs, hasLocale)
    ensures r.Success? ==> Admissible(prefs, hasLocale) && r.value.prefs == prefs.(filename := r.value.prefs.filename)
    ensures Admissible(prefs, hasLocale) ==> r == SelectInput(program, prefs)
  {
    match Validate(prefs, hasLocale)
    case Fail(e) => Failure(e)
    case Pass => SelectInput(program, prefs)
  }

  /** Help is shown (bin/cli.js:31) when standard input is not requested and there is no positional argument. */
  predicate NeedsHelp(program: Program) {
    !IsSet(program.stdin) && |program.args| == 0
  }

  function ErrorLines(lines: seq<string>): (r: seq<Effect>)
    ensures |r| == |lines|
    ensures forall i :: 0 <= i < |r| ==> r[i] == ErrorLine(lines[i])
  {
    seq(|lines|, i requires 0 <= i < |lines| => ErrorLine(lines[i]))
  }

  /** Number of engine effects. */
  function EngineCount(effects: seq<Effect>): nat {
    if |effects| == 0 then 0 else (if effects[0].Engine? then 1 else 0) + EngineCount(effects[1..])
  }

  lemma {:induction false} EngineCountAppend(a: seq<Effect>, b: seq<Effect>)
    ensures EngineCount(a + b) == EngineCount(a) + EngineCount(b)
    decreases |a|
  {
    if |a| == 0 {
      assert a + b == b;
    } else {
      assert (a + b)[1..] == a[1..] + b;
      EngineCountAppend(a[1..], b);
    }
  }

  /** Index of the first event that is not a hand-off to the engine, or `|trace|` when there is none. */
  function FirstExit(trace: seq<Event>): (i: nat)
    ensures i <= |trace|
    ensures forall k :: 0 <= k < i ==> IsDispatch(trace[k])
    ensures i < |trace| ==> !IsDispatch(trace[i])
  {
    if |trace| == 0 || !IsDispatch(trace[0]) then 0 else 1 + FirstExit(trace[1..])
  }

  /** The process-level effect of each hand-off, in order. */
  function EngineEffects(events: seq<Event>): (r: seq<Effect>)
    ensures |r| == |events|
    ensures forall k :: 0 <= k < |r| ==> r[k] == Engine(events[k])
  {
    if |events| == 0 then [] else [Engine(events[0])] + EngineEffects(events[1..])
  }

  /** A callback that reports an error. */
  predicate ErrorExit(e: Event) {
    e.Callback? && e.error
  }

  /**
    The callbacks of bin/cli.js (lines 58-60 and 69-76) applied to a routing
    trace: an error callback prints its message and exits with 1, any other
    callback exits with 0, and the first exit ends the process.
   */
  function Interpret(trace: seq<Event>): (r: Ending)
    ensures r.status == 0 || r.status == 1
    ensures |r.effects| <= |trace|
    ensures EngineCount(r.effects) <= |trace|
    // first-exit rule: the hand-offs before the first callback take effect, then that callback decides
    ensures var i := FirstExit(trace);
            var failed := i < |trace| && ErrorExit(trace[i]);
            && r.effects == EngineEffects(trace[..i]) + (if failed then [ErrorLine(ShowString(trace[i].message))] else [])
            && r.status == (if failed then 1 else 0)
    ensures |trace| > 0 && trace[0] == Done ==> r == Ending([], 0)
    ensures |trace| > 0 && trace[0].Callback? ==>
      r == (if trace[0].error then Ending([ErrorLine(ShowString(trace[0].message))], 1) else Ending([], 0))
  {
    if |trace| == 0 then Ending([], 0)
    else
      match trace[0]
      case Callback(error, message) =>
        if error then Ending([ErrorLine(ShowString(message))], 1) else Ending([], 0)
      case Done => Ending([], 0)
      case _ =>
        var rest := Interpret(trace[1..]);
        FirstExitStep(trace);
        Ending([Engine(trace[0])] + rest.effects, rest.status)
  }

  /** Skipping a leading hand-off moves the first exit back by one and drops one engine effect. */
  lemma FirstExitStep(trace: seq<Event>)
    requires |trace| > 0 && IsDispatch(trace[0])
    ensures FirstExit(trace) == FirstExit(trace[1..]) + 1
    ensures EngineEffects(trace[..FirstExit(trace)]) == [Engine(trace[0])] + EngineEffects(trace[1..][..FirstExit(trace[1..])])
    ensures FirstExit(trace) < |trace| ==> trace[FirstExit(trace)] == trace[1..][FirstExit(trace[1..])]
  {
    EngineEffectsCons(trace, FirstExit(trace[1..]));
  }

  lemma EngineEffectsCons(trace: seq<Event>, j: nat)
    requires j < |trace|
    ensures EngineEffects(trace[..j + 1]) == [Engine(trace[0])] + EngineEffects(trace[1..][..j])
  {
    assert trace[..j + 1][1..] == trace[1..][..j];
  }

  /**
    One run of the command. `configIsFile`/`configParsed` describe the
    configuration file, `chunks` the standard-input stream, and
    `inputIsFile`/`inputText` the named input file.
   */
  function Run(program: Program, configIsFile: bool, configParsed: Option<Config>,
               hasLocale: string -> bool, execute: (string, Prefs) -> string,
               chunks: seq<Option<string>>, inputIsFile: bool, inputText: Option<string>): (r: Ending)
    ensures r.status == 0 || r.status == 1
    // the engine is reached at most once, and never when the run fails
    ensures EngineCount(r.effects) <= 1
    ensures r.status == 1 ==> EngineCount(r.effects) == 0
    ensures r.status == 0 && !NeedsHelp(program) ==> EngineCount(r.effects) == 1
  {
    if NeedsHelp(program) then Ending([ShowHelp], 0)
    else
      var loaded := GetConfig(program.config, configIsFile, configParsed);
      var diags := ErrorLines(loaded.diagnostics);
      var prefs := GetPrefs(program, loaded.config);
      NoEngineInErrorLines(loaded.diagnostics);
      match Check(program, prefs, hasLocale)
      case Failure(e) =>
        EngineCountAppend(diags, [Report(e)]);
        Ending(diags + [Report(e)], 1)
      case Success(launch) =>
        var tail := Interpret(Route(launch, execute, chunks, inputIsFile, inputText));
        EngineCountAppend(diags, tail.effects);
        Ending(diags + tail.effects, tail.status)
  }

  /** The routing trace of the selected mode. */
  function Route(launch: Launch, execute: (string, Prefs) -> string,
                 chunks: seq<Option<string>>, inputIsFile: bool, inputText: Option<string>): (trace: seq<Event>)
    ensures |trace| == 2 && (trace[1] == Done || trace[1] == Callback(false, None))
    ensures Interpret(trace).status == 1 ==> Interpret(trace).effects == [ErrorLine(ShowString(trace[0].message))]
    ensures Interpret(trace).status == 0 ==> Interpret(trace).effects == [Engine(trace[0])] && IsDispatch(trace[0])
    ensures Interpret(trace).status == 0 <==> launch.mode.StdinMode? || (inputIsFile && inputText.Some?)
  {
    var trace :=
      if launch.mode.StdinMode? then ProcessStdin(launch.prefs, chunks, execute)
      else ProcessFile(launch.prefs, inputIsFile, inputText, execute);
    assert |trace| == 2;
    assert trace[1..] == [trace[1]];
    assert Interpret(trace[1..]) == Ending([], 0);
    trace
  }

  lemma {:induction false} NoEngineInErrorLines(lines: seq<string>)
    ensures EngineCount(ErrorLines(lines)) == 0
    decreases |lines|
  {
    if |lines| > 0 {
      assert ErrorLines(lines)[1..] == ErrorLines(lines[1..]);
      NoEngineInErrorLines(lines[1..]);
    }
  }

  /** The resolved preferences of a run, before a filename is attached. */
  function RunPrefs(program: Program, configIsFile: bool, configParsed: Option<Config>): Prefs {
    GetPrefs(program, GetConfig(program.config, configIsFile, configParsed).config)
  }

  /** Help is decided first, before the configuration file is even looked at. */
  lemma RunHelpFirst(program: Program, configIsFile: bool, configParsed: Option<Config>,
                     hasLocale: string -> bool, execute: (string, Prefs) -> string,
                     chunks: seq<Option<string>>, inputIsFile: bool, inputText: Option<string>)
    requires NeedsHelp(program)
    ensures Run(program, configIsFile, configParsed, hasLocale, execute, chunks, inputIsFile, inputText)
         == Ending([ShowHelp], 0)
  {
  }

  /** Configuration diagnostics are printed first and never stop the run by themselves. */
  lemma RunConfigDiagnosticsFirst(program: Program, configIsFile: bool, configParsed: Option<Config>,
                                  hasLocale: string -> bool, execute: (string, Prefs) -> string,
                                  chunks: seq<Option<string>>, inputIsFile: bool, inputText: Option<string>)
    requires !NeedsHelp(program)
    ensures var r := Run(program, configIsFile, configParsed, hasLocale, execute, chunks, inputIsFile, inputText);
            var d := GetConfig(program.config, configIsFile, configParsed).diagnostics;
            |d| < |r.effects| && r.effects[..|d|] == ErrorLines(d)
  {
  }

  /**
    The checks run in a fixed order and the first failing one decides the
    outcome: its diagnostic is the last effect, the exit status is 1, and the
    engine is never reached.
   */
  lemma RunFailsFast(program: Program, configIsFile: bool, configParsed: Option<Config>,
                     hasLocale: string -> bool, execute: (string, Prefs) -> string,
                     chunks: seq<Option<string>>, inputIsFile: bool, inputText: Option<string>)
    requires !NeedsHelp(program)
    requires Check(program, RunPrefs(program, configIsFile, configParsed), hasLocale).Failure?
    ensures var r := Run(program, configIsFile, configParsed, hasLocale, execute, chunks, inputIsFile, inputText);
            var e := Check(program, RunPrefs(program, configIsFile, configParsed), hasLocale).error;
            var d := GetConfig(program.config, configIsFile, configParsed).diagnostics;
            && r == Ending(ErrorLines(d) + [Report(e)], 1)
            && EngineCount(r.effects) == 0
            && (Admissible(RunPrefs(program, configIsFile, configParsed), hasLocale) <==> e == FileNotSpecified)
  {
  }

  /** Standard-input mode: once the checks pass, the engine is handed the whole stream and the run succeeds. */
  lemma RunStdin(program: Program, configIsFile: bool, configParsed: Option<Config>,
                 hasLocale: string -> bool, execute: (string, Prefs) -> string,
                 chunks: seq<Option<string>>, inputIsFile: bool, inputText: Option<string>)
    requires IsSet(program.stdin)
    requires Admissible(RunPrefs(program, configIsFile, configParsed), hasLocale)
    ensures var r := Run(program, configIsFile, configParsed, hasLocale, execute, chunks, inputIsFile, inputText);
            var prefs := RunPrefs(program, configIsFile, configParsed).(filename := program.stdinFilename);
            && r.status == 0
            && r.effects[|r.effects| - 1] == Engine(ProcessText(Concat(chunks), prefs, execute)[0])
  {
  }

  /**
    File mode: once the checks pass, the run succeeds exactly when the file
    exists, is regular and is UTF-8; otherwise it prints the error naming the
    file and exits with 1.
   */
  lemma RunFile(program: Program, configIsFile: bool, configParsed: Option<Config>,
                hasLocale: string -> bool, execute: (string, Prefs) -> string,
                chunks: seq<Option<string>>, inputIsFile: bool, inputText: Option<string>)
    requires !IsSet(program.stdin)
    requires Check(program, RunPrefs(program, configIsFile, configParsed), hasLocale).Success?
    ensures var r := Run(program, configIsFile, configParsed, hasLocale, execute, chunks, inputIsFile, inputText);
            var file := program.args[0];
            var prefs := RunPrefs(program, configIsFile, configParsed).(filename := Some(file));
            && (r.status == 0 <==> inputIsFile && inputText.Some?)
            && (r.status == 0 ==> r.effects[|r.effects| - 1] == Engine(ProcessText(inputText.value, prefs, execute)[0]))
            && (!inputIsFile ==> r.effects[|r.effects| - 1] == ErrorLine(file + ": no such file."))
            && (inputIsFile && inputText.None? ==> r.effects[|r.effects| - 1] == ErrorLine(file + ": is not UTF-8."))
  {
  }

  /** An unsupported locale given on the command line, with no configuration, ends the run with its diagnostic. */
  lemma UnsupportedLocaleScenario(program: Program, hasLocale: string -> bool, execute: (string, Prefs) -> string,
                                  chunks: seq<Option<string>>, inputIsFile: bool, inputText: Option<string>)
    requires program.config.None? && program.args == ["file.txt"] && !IsSet(program.stdin)
    requires program.locale == Val(["xx-YY"]) && !hasLocale("xx-YY")
    ensures Run(program, false, None, hasLocale, execute, chunks, inputIsFile, inputText)
         == Ending([Report(LocaleUnsupported("xx-YY"))], 1)
  {
  }

  /** Without a configuration path, a failed check is the only effect of the run. */
  lemma NoConfigFailure(program: Program, hasLocale: string -> bool, execute: (string, Prefs) -> string,
                        chunks: seq<Option<string>>, inputIsFile: bool, inputText: Option<string>, e: CliError)
    requires program.config.None? && !NeedsHelp(program)
    requires Check(program, RunPrefs(program, false, None), hasLocale) == Failure(e)
    ensures Run(program, false, None, hasLocale, execute, chunks, inputIsFile, inputText) == Ending([Report(e)], 1)
  {
  }

  /** With no locale anywhere the run ends with the missing-locale diagnostic. */
  lemma MissingLocaleScenario(program: Program, hasLocale: string -> bool, execute: (string, Prefs) -> string,
                              chunks: seq<Option<string>>, inputIsFile: bool, inputText: Option<string>)
    requires program.config.None? && !NeedsHelp(program)
    requires program.locale == Val([])
    ensures Run(program, false, None, hasLocale, execute, chunks, inputIsFile, inputText)
         == Ending([ErrorLine("Error: required parameter locale.")], 1)
  {
  }
}
