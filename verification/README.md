# typograf-cli decision layer in Dafny

typograf-cli is a command-line front end for the `typograf` typography engine.
It reads text from a file or from standard input and hands it to the engine with
the options the user picked: locales, enabled and disabled rules, HTML-entity
rendering, and lint or transform mode. The engine then prints the corrected
text, or the lint checker prints its diagnostics.

This project models the logic the front end itself contains:

- `ListFlags` (list_flags.dfy): `splitByCommas`. A flag value is
  cut at every `,` or `;` and each piece is trimmed.
- `ConfigLoader` (config_loader.dfy): `getConfig`. This is a three-way decision:
  is a path given, does it name a regular file, does the file parse as JSON.
- `Preferences` (preferences.dfy): `getPrefs`. This merges the command-line
  values and the configuration object into one preference record.
- `InputRouter` (input_router.dfy): `processText` (lint or transform),
  `processFile` (the sequence of callbacks it makes) and `processStdin`
  (chunks collected until the end of the stream).
- `Cli` (cli.dfy): the flow of `bin/cli.js`. It covers the help check,
  configuration loading, the validation sequence that stops at the first
  failure, the choice between standard input and file, and the exit status.
  `Cli.Run` returns one run as a sequence of effects plus an exit status.
- `Wrappers` (wrappers.dfy): `Option`, `Result` and `Outcome`.
- `JsValues` (js_values.dfy): the JavaScript notions the code depends on.
  These are `undefined` versus `null` versus a value, truthiness, and how
  values are rendered inside template literals.

Parameters stand in for the engine. `hasLocale: string -> bool` replaces
`Typograf.hasLocale` and `execute: (string, Prefs) -> string` replaces
`typograf.execute`. The lint checker appears only as a `LintRun` effect. File
system facts, the result of `JSON.parse`, the UTF-8 check and the input stream
are plain inputs: booleans, `Option`s, or a sequence of chunks.

The model keeps these details of the code exactly:

- `getPrefs` reads `program.htmlEntityOnlyVisible`, but the declared flag
  `--html-entity-only-invisible` sets `htmlEntityOnlyInvisible`. So the flag
  never reaches the preferences. `Preferences.OnlyInvisibleFlagIgnored` proves this.
- For `locale`, `enableRule` and `disableRule`, the configuration overrides
  the command line. `null` counts as defined, so a configuration key set to
  `null` still wins.
- A `locale` of `null` from the configuration makes `prefs.locale.length`
  throw. The model treats this as an uncaught error with exit status 1.
- `processFile` calls `callback(false)` even after an error callback. The
  process ends at the first `exit`, so the exit status comes from the first
  callback.
- "Error: file isn't specified." is printed with `console.log`, so it goes to
  standard output and not to standard error.
- The entity mode is tested as `type || 'default'`. Any falsy `type` (`""`,
  `0`, `false`, `null`) is therefore accepted.
- The `--lint` option is documented as "default: false" (bin/cli.js:23), but
  `getPrefs` copies `program.lint` verbatim, which is undefined when the flag
  is absent. The model keeps `lint` as an optional flag and treats only `true`
  as set.

## Model

| member | source | states |
|---|---|---|
| ListFlags.Split | bin/cli.js:14 | `split(/[,;]/)` yields one more piece than the input has separator characters, so it is never empty, and no piece contains `,` or `;` |
| ListFlags.JoinSplit | bin/cli.js:14 | re-joining the pieces with the removed separators, in order, gives back the input |
| ListFlags.SplitJoin | bin/cli.js:14 | the pieces are the maximal separator-free runs: any separator-free pieces joined with separators split back into exactly those pieces |
| ListFlags.TrimStart | bin/cli.js:14 | removes exactly the longest all-whitespace prefix: the result is a suffix of the input and does not start with whitespace |
| ListFlags.TrimEnd | bin/cli.js:14 | removes exactly the longest all-whitespace suffix: the result is a prefix of the input and does not end with whitespace |
| ListFlags.Trim | bin/cli.js:14 | `trim()` returns a contiguous slice of its input with no leading or trailing whitespace |
| ListFlags.TrimRemovesWhitespace | bin/cli.js:14 | everything `trim()` drops on either side of the kept slice is whitespace |
| ListFlags.TrimIdempotent | bin/cli.js:14 | trimming a trimmed string changes nothing |
| ListFlags.TrimKeepsNoSeparator | bin/cli.js:14 | trimming a separator-free piece cannot introduce a separator |
| ListFlags.SplitByCommas | bin/cli.js:13-15 | the result has one element per separator-delimited piece, in input order, each the trimmed piece; no element holds a separator or surrounding whitespace; an undefined or empty input gives `[""]` |
| ConfigLoader.GetConfig | bin/utils.js:19-40 | no path (undefined or empty) gives no configuration and no message; a missing or non-regular file gives `"<file>: no such file."`; a parse failure gives `"<file>: error parsing."`; otherwise the parsed value itself is returned without any message |
| Preferences.CliEntity | bin/utils.js:59-65 | the command line adds `type` exactly when `htmlEntityType` is defined, holding that string, and `onlyVisible` exactly when `htmlEntityOnlyVisible` is defined, holding that boolean, and no other key |
| Preferences.GetPrefs | bin/utils.js:42-72 | `lint` is copied from the command line; for each of `enableRule`, `disableRule`, `locale` the result is the configuration value if defined there, else the command-line value if defined, else absent (`[]` for `locale`); `htmlEntity` holds every configuration key with the configuration's value, plus the command-line keys that the configuration lacks, and nothing else |
| Preferences.EmptyConfigIsNoConfig | bin/utils.js:54-69 | a configuration that defines none of the keys resolves exactly like no configuration |
| Preferences.NoConfigUsesProgram | bin/utils.js:43-65 | without a configuration every resolved value comes from the command line |
| Preferences.ConfigOverridesProgram | bin/utils.js:49-57 | when the configuration defines all three list keys, no command-line list influences them |
| Preferences.OnlyInvisibleFlagIgnored | bin/utils.js:63-65 | the value of `htmlEntityOnlyInvisible` has no influence on the preferences, and `onlyInvisible` can appear only when the configuration supplies it |
| InputRouter.ProcessText | bin/utils.js:10-16 | exactly one hand-off: to the lint checker with the text and preferences when `lint` is set, otherwise a verbatim write of the engine's output |
| InputRouter.ProcessFile | bin/utils.js:91-106 | the engine is reached exactly when the file exists, is regular and is UTF-8; otherwise one error callback names the file (`is not UTF-8.` or `no such file.`); `callback(false)` is always the last call |
| InputRouter.StdinFrom | bin/utils.js:74-89 | after any amount of text already accumulated, the remaining chunks are appended in order and dispatched once, at the end, followed by the completion callback |
| InputRouter.ProcessStdin | bin/utils.js:74-89 | the engine sees the in-order concatenation of all non-null chunks, exactly once and only at end of stream, and then the callback runs |
| InputRouter.ConcatRechunk | bin/utils.js:79-84 | splitting one chunk into two at any point leaves the accumulated text unchanged |
| InputRouter.ConcatNullChunk | bin/utils.js:80-83 | a `null` read anywhere in the stream adds nothing to the accumulated text |
| InputRouter.Rechunk | bin/utils.js:74-89 | re-chunking the same text gives the same effects |
| InputRouter.NullChunkIgnored | bin/utils.js:74-89 | inserting a `null` read gives the same effects |
| InputRouter.ChunkingIndependent | bin/utils.js:74-89 | two streams carrying the same text give the same effects |
| Cli.Report | bin/cli.js:38-67 | each error produces one diagnostic; only the missing-file message goes to standard output, and only a `null` locale list ends in an uncaught exception |
| Cli.FirstRejected | bin/cli.js:43-48 | the locale loop stops at the first locale, in list order, that `hasLocale` rejects, and it passes exactly when every locale is accepted |
| Cli.Validate | bin/cli.js:38-53 | fails with the missing-locale error exactly when the locale list is empty; otherwise reports the first rejected locale; the entity-mode error comes only when every locale is accepted and the mode is not `digit`, `name` or `default` (absent or falsy counts as `default`); passes exactly when all checks hold |
| Cli.SelectInput | bin/cli.js:55-67 | standard-input mode takes `stdinFilename` as the filename and cannot fail; file mode takes `args[0]` and fails with the missing-file error exactly when it is absent or empty |
| Cli.Check | bin/cli.js:38-67 | the checks run in order and the first failure decides: a validation failure is reported before the filename is examined, and the missing-file error arises only from admissible preferences |
| Cli.Interpret | bin/cli.js:69-76 | the hand-offs before the first callback or end marker reach the engine in order; that first exit decides the rest: an error callback adds its message line and status 1, anything else (success callback, `Done`, end of trace) adds nothing and gives status 0; nothing after it has an effect |
| Cli.Route | bin/cli.js:55-76 | the routed run exits with 0 exactly in standard-input mode or when the file can be processed; on success its only effect is the one dispatch, on failure the error line |
| Cli.Run | bin/cli.js:31-76 | the exit status is 0 or 1; the engine is reached at most once, never in a run that exits with 1, and exactly once in a successful run that is not a help request |
| Cli.RunHelpFirst | bin/cli.js:31-33 | without `--stdin` and without arguments, help is the only effect, before the configuration is read |
| Cli.RunConfigDiagnosticsFirst | bin/cli.js:35-36 | configuration diagnostics are printed first and never end the run by themselves |
| Cli.RunFailsFast | bin/cli.js:38-67 | a failed check ends the run with status 1 and its diagnostic right after the configuration diagnostics, without reaching the engine; the missing-file error arises exactly when the preferences passed validation |
| Cli.RunStdin | bin/cli.js:55-60 | in standard-input mode with admissible preferences the run succeeds, and the engine sees the whole stream with `stdinFilename` as the filename |
| Cli.RunFile | bin/cli.js:61-76 | in file mode, once the checks pass, the run succeeds exactly when the file exists, is regular and is UTF-8; otherwise the last effect is the error naming the file |
| Cli.NoConfigFailure | bin/cli.js:35-53 | without a configuration path, a failed check is the run's only effect |
| Cli.UnsupportedLocaleScenario | bin/cli.js:43-48 | `--locale=xx-YY file.txt` with `xx-YY` rejected ends with only the unsupported-locale diagnostic and status 1 |
| Cli.MissingLocaleScenario | bin/cli.js:38-41 | with no locale on the command line and no configuration, the run ends with only "Error: required parameter locale." and status 1 |

## Left out

- The `typograf` engine (`execute`, `hasLocale`, `getLocales`) is an external library. `execute` and `hasLocale` are function parameters. `getLocales` only feeds the help text, which is not modelled.
- The `./lint` module is not part of this model. `lint.process` appears only as a `LintRun` effect carrying its arguments.
- `commander` argument parsing is library behaviour and is left out. This covers option registration, camel-casing of flag names, applying `splitByCommas` to flag values, defaults, and help/version output. The parsed option record `Program` is an input. `program.help()` is modelled as a `ShowHelp` effect with status 0.
- `fs.existsSync`/`statSync`/`readFileSync`, `JSON.parse` and `isutf8` are foreign calls. They become a boolean (existing regular file) and an `Option` (parsed value, or decoded text when the bytes are UTF-8). A read error on an existing regular file is not modelled.
- Stream events are asynchronous. The model takes the `readable` reads as a sequence of `Option<string>` chunks followed by `end`.
- `process.stdout.write`, `console.*` and `exit` are I/O. The model records their calls as effects and takes the first `exit` as the end of the process. The `exit` package's wait for the output streams to drain is not modelled.
- The configuration's JSON is typed. The list keys hold string lists or `null`, and `htmlEntity` holds scalar values. A configuration whose `locale` is some other JSON type (a string, a number) is not modelled. A falsy or non-object JSON document behaves like a configuration with no keys, which `Preferences.EmptyConfigIsNoConfig` shows is the same as no configuration.
- JsValues.ShowJson: numbers are limited to integers of magnitude at most 2^53 - 1, where a template literal prints exactly their decimal digits. Fractional values and larger magnitudes (rounded by `JSON.parse`, printed in exponent form from 1e21) are not modelled.
- The uncaught `TypeError` for a `null` locale list is modelled as an effect without its message text.
- ListFlags.Trim: characters are Unicode scalar values, not UTF-16 code units. Whitespace is the fixed ECMAScript WhiteSpace and LineTerminator set.
- Cli.Run: `execute` and `lint.process` are assumed to return normally. An exception thrown by either (bin/utils.js:12, :14) would end the process with status 1 after the engine was reached, a case the `status == 1 ==> EngineCount == 0` clause does not cover.
