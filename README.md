# command-line-executor, modelled in Dafny

This project models the core of `command-line-executor`, a small Java
library that builds `ffmpeg` command lines and supervises the child process
that runs them. The model has two layers.

**Process supervision and event dispatch.**
- `TrackedProcessExecutor` (module `Executors`) runs one child process at a
  time. Its read loop publishes a console event for every standard-output
  line. After each line it polls the error stream once, and a line read
  there becomes an error event. At the end it closes the three streams and
  publishes one finished event that reports whether the exit value is 0.
  - The child process is a value that a factory function produces: its two
    output streams as line queues, how each queue ends, whether it is alive,
    and its exit code.
  - Every handler call is recorded in `published`, including a call on a `null` handler, which throws.
  - `Transcript` is the reference definition of a whole run.
  - The loop methods are proved to publish exactly the calls `Transcript`
    lists.
  - Lemmas state how every run ends, what a run in which nothing fails
    publishes, and how an exception stops it.
- `RegexHandler` (module `RegexHandlers`) holds two rule tables, each mapping
  a pattern to a callback. It dispatches lines with lazy or exhaustive
  evaluation, optionally after removing whitespace.
  - `HashMap` iteration order is unspecified. Each table therefore carries a
    sequence of its keys that the dispatch follows, and a new key may land
    anywhere in that sequence.
- `GenericEventGroup` (module `EventGroups`) is an ordered listener list
  with add, remove and fan-out.
- `FFMPEGHandler` (module `FFMPEGHandlers`) is a `RegexHandler` with two
  rules: `PROGRESS_REGEX` to `progressHandler` and `.*` to `msgHandler`, each
  fanning out to its own listener group. Module `FFMPEGRules` proves what
  these two rules do to every kind of console line.
- `FFMPEGExecutor` (module `FFMPEGExecutors`) is an executor whose handler is
  fixed to the `FFMPEGHandler` it installs.
- `FFMPEGEvent` (module `FFMPEGEvents`) covers the events' narrow `equals`
  and `hashCode` contract.
- `ProgressMessage` (module `Progress`) is the seven-field progress-line
  parser. The fixed regular expression is modelled exactly as a splitter on
  the seven markers.

**Command-argument formatting.**
- The two `Flag` enums (modules `Flags` and `GlobalFlags`), `LogLevel`,
  `InFileOption`, `CompileUtils` and `FFMPEGError` (module `Errors`).
- The three builders: `ArgumentBuilder`, `InFileBuilder` and
  `FFMPEGBuilder`.
- A Java `null` that the code checks or passes on is an `Option`.
- A thrown exception is the `Throw`/`Fail` case of `Result`/`Outcome`. Its
  kind is a constructor of `Base.Exception`.

**The model follows the code, not its comments, where they disagree:**
- `FFMPEGError.compile` proceeds only when it is given more arguments than
  placeholders, the reverse of what its comment describes. Every caller
  passes exactly `getNumArgs()` arguments, so every rejection path of the
  flags throws `IllegalArgumentException` from inside `compile`.
  - Past the guard, the first `String.format(base, args[0])` hands a single
    argument to a template with at least three placeholders. It throws
    `MissingFormatArgumentException`, so no call of `compile` returns a
    message.
  - The model therefore has no loop for `compile`: the loop's first step
    throws.
- Both `InFileOption` constants have `min = max = 1`. The check
  `min <= n < max` therefore rejects every argument list.
- `Flag.compileFlag(value)` ignores `value`.
- In the executor, an error event carries the standard-output line, not the
  text read from the error stream.

## Model

| member | source | states |
|---|---|---|
| CompileUtils.CompileWithValuesDelimitedBy | src/ffmpeg/options/CompileUtils.java:63-75 | a null identifier, delimiter or argument array, and nothing else, throws `NullPointerException`; otherwise the result is the identifier followed by every argument in order, each preceded by the delimiter |
| CompileUtils.CompileWithValues | src/ffmpeg/options/CompileUtils.java:42-49 | the delimited form with a single space; it throws exactly when the identifier or the arguments are null |
| CompileUtils.CompileWithOneValue | src/ffmpeg/options/CompileUtils.java:42-49 | one value compiles to the identifier, a space and the value |
| ArgumentBuilders.CompileWith | src/process/ArgumentBuilder.java:70 | a global flag compiles with values exactly when it takes input and is given one value; an input-file option always throws `IllegalArgumentException`; a success is a one-token array |
| ArgumentBuilders.ArgumentBuilder.constructor | src/process/ArgumentBuilder.java:35-37 | the target is the one given and the value list starts empty |
| ArgumentBuilders.ArgumentBuilder.AddArg | src/process/ArgumentBuilder.java:46-49 | the value is appended at the end and the builder itself is returned |
| ArgumentBuilders.ArgumentBuilder.AddArgs | src/process/ArgumentBuilder.java:57-60 | all the values are appended in order and the builder itself is returned |
| ArgumentBuilders.ArgumentBuilder.Build | src/process/ArgumentBuilder.java:68-74 | with values, the target compiled with them (a global flag succeeds only with one value and when it takes input; an input-file option throws); without values, the target's default |
| ArgumentBuilders.LogLevelWithValue | src/process/ArgumentBuilder.java:46-74 | example: a `LOG_LEVEL` builder given `quiet` builds `-loglevel quiet` |
| GlobalFlags.CompileExamples | src/ffmpeg/options/global/flags/Flag.java:28-50 | the five constants compile to `-loglevel verbose`, `-y`, `-n`, `-stats` and `-report` |
| GlobalFlags.CompileAgreesWithArguments | src/ffmpeg/options/global/flags/Flag.java:96-167 | `LOG_LEVEL`'s `compile()` equals `compile(args)` given its default as the one argument; every other flag's `compile()` is the prefix `compile(value)` puts before a space and the value |
| GlobalFlags.CompileValue | src/ffmpeg/options/global/flags/Flag.java:116-127 | succeeds exactly on a flag that takes no input, giving the literal, a space and the value; the input-taking flag is rejected with `IllegalArgumentException`, thrown while the error message is built |
| GlobalFlags.CompileArgs | src/ffmpeg/options/global/flags/Flag.java:140-167 | succeeds exactly with one argument on the input-taking flag, giving the literal, a space and that argument; every other call throws `IllegalArgumentException` |
| GlobalFlags.CompileArgsRejectsWithIllegalArgument | src/ffmpeg/options/global/flags/Flag.java:140-167 | every call either is `LOG_LEVEL` given one argument, compiling to `-loglevel` and that argument, or throws `IllegalArgumentException`, never the `UnsupportedOperationException` the code constructs |
| Flags.CompileFlagValue | src/ffmpeg/options/flags/Flag.java:85-98 | succeeds exactly on a flag that takes no input, giving the literal, a space and the default rendered as Java concatenation renders it (`null` for a null default); the input-taking flag throws `IllegalArgumentException` |
| Flags.CompileFlagValueIgnoresValue | src/ffmpeg/options/flags/Flag.java:85-98 | the value passed never changes the result |
| Flags.FlagExamples | src/ffmpeg/options/flags/Flag.java:18-98 | `LOG_LEVEL` compiles to `-loglevel verbose` and `REPORT` to `-report`; `REPORT` with any value gives `-report null`; `LOG_LEVEL` with any value throws |
| Flags.CompileFlagValueAgainstDefault | src/ffmpeg/options/flags/Flag.java:65-98 | `REPORT` with any value is its `compileFlag()` followed by ` null`; `LOG_LEVEL`'s `compileFlag()` is its literal and a non-empty default |
| LogLevels.Compile | src/ffmpeg/options/flags/LogLevel.java:99-102 | the constant's name lower-cased: a non-empty string of lower-case letters, so never containing `+` |
| LogLevels.CompileVerbose | src/ffmpeg/options/flags/LogLevel.java:99-102 | example: `VERBOSE` compiles to `verbose` |
| LogLevels.FlagsPlusValues | src/ffmpeg/options/flags/LogLevel.java:133-139 | every level is tallied either as a flag or as a value, so the two tallies add up to the number of levels |
| LogLevels.CompileLevels | src/ffmpeg/options/flags/LogLevel.java:118-156 | `IllegalArgumentException` exactly when there are fewer than 1 or more than 3 levels; otherwise more than two flags or more than one value throws `MalformedParametersException`; it succeeds exactly when neither check fails, with the lower-cased names joined by `+` in order |
| LogLevels.JoinCompiled | src/ffmpeg/options/flags/LogLevel.java:151-153 | feeding each level's lower-cased name to a `StringJoiner("+")` in order gives the names joined by `+` |
| LogLevels.CompiledPlusCount | src/ffmpeg/options/flags/LogLevel.java:152-154 | a compiled list has exactly one `+` fewer than it has levels |
| LogLevels.LevelVerboseExample | src/ffmpeg/options/flags/LogLevel.java:152-154 | example: `LEVEL, VERBOSE` joins to `level+verbose` |
| Errors.CountPlaceholders | src/ffmpeg/error/FFMPEGError.java:45-55 | the constructor's `find()` loop counts the non-overlapping `%s` occurrences of the base string, scanning left to right |
| Errors.NumArgs | src/ffmpeg/error/FFMPEGError.java:19-55 | `getNumArgs()` is the placeholder count of the base string: 3 for `ERR_FLAG_ARGS_NOT_REQUIRED`, 4 for `ERR_FLAG_NUM_ARGS_INVALID` |
| Errors.Compile | src/ffmpeg/error/FFMPEGError.java:65-79 | every call throws an `IllegalArgumentException`: the class itself exactly when there are at most `getNumArgs()` arguments, and `MissingFormatArgumentException` from the first `String.format` call exactly when there are more |
| Errors.CompileWithNumArgsThrows | src/ffmpeg/error/FFMPEGError.java:65-78 | handing `compile` exactly `getNumArgs()` arguments, as every caller does, throws `IllegalArgumentException` |
| InFileOptions.CompileAlwaysRejects | src/ffmpeg/options/infile/InFileOption.java:15-73 | with both bounds 1 the accepted range is empty, so every argument list is rejected |
| InFileBuilders.BuiltAllConcat | src/ffmpeg/options/infile/InFileBuilder.java:86 | the options' tokens concatenate in list order: building `xs + ys` fails with the first failure of `xs`, else the first of `ys`, else yields the tokens of `xs` followed by those of `ys` |
| InFileBuilders.BuiltAllSingle | src/ffmpeg/options/infile/InFileBuilder.java:86 | one option contributes exactly its own tokens; when its `build()` throws, that exception is the result; when it builds to null, `Arrays.asList` throws `NullPointerException` |
| InFileBuilders.CommandLayout | src/ffmpeg/options/infile/InFileBuilder.java:82-89 | a built command has an input file, starts with `-i` and the rendered file, and continues with exactly the options' tokens |
| InFileBuilders.InFileOptionFails | src/ffmpeg/options/infile/InFileBuilder.java:69-86 | a command holding an input-file option cannot be built: with values it throws `IllegalArgumentException`, without them its null `compile()` throws `NullPointerException` in the fold, once the input file is set and the builders before it build |
| InFileBuilders.InFileBuilder.constructor | src/ffmpeg/options/infile/InFileBuilder.java:32-37 | no input file and no options |
| InFileBuilders.InFileBuilder.SetInFile | src/ffmpeg/options/infile/InFileBuilder.java:45-48 | the file is replaced, the options stay, and the builder itself is returned |
| InFileBuilders.InFileBuilder.AddOption | src/ffmpeg/options/infile/InFileBuilder.java:56-59 | exactly that option builder is appended, the file stays, and the builder itself is returned |
| InFileBuilders.InFileBuilder.AddOptionWithArgs | src/ffmpeg/options/infile/InFileBuilder.java:69-73 | a new argument builder over the option, holding exactly the given values, is appended |
| InFileBuilders.InFileBuilder.Build | src/ffmpeg/options/infile/InFileBuilder.java:82-89 | the loop's result is `Command`: a null input file throws `NullPointerException`; otherwise `-i`, the rendered file and every option's tokens in order, or the first option's failure |
| FFMPEGBuilders.FFMPEGBuilder.constructor | src/ffmpeg/FFMPEGBuilder.java:14-17 | no files and no flags, so no duplicates |
| FFMPEGBuilders.FFMPEGBuilder.AddFlag | src/ffmpeg/FFMPEGBuilder.java:24-31 | the flag is appended only when absent, so the list stays free of duplicates and afterwards holds the flag; the files stay and the builder itself is returned |
| FFMPEGBuilders.FFMPEGBuilder.RemoveFlag | src/ffmpeg/FFMPEGBuilder.java:38-42 | the first occurrence is removed and the others keep their order; afterwards the flag is absent and every other flag is present exactly when it was before |
| FFMPEGBuilders.FFMPEGBuilder.SetInFile | src/ffmpeg/FFMPEGBuilder.java:49-52 | only the input file changes, and the builder itself is returned |
| FFMPEGBuilders.FFMPEGBuilder.SetOutFile | src/ffmpeg/FFMPEGBuilder.java:61-64 | only the output file changes, and the builder itself is returned |
| FFMPEGBuilders.AddAllProperties | src/ffmpeg/FFMPEGBuilder.java:24-31 | any run of `addFlag` calls keeps the list duplicate-free, keeps the earlier flags as a prefix, and holds exactly the earlier and the added flags |
| FFMPEGBuilders.AddTwiceIsAddOnce | src/ffmpeg/FFMPEGBuilder.java:26-28 | adding a flag twice is the same as adding it once |
| EventGroups.FanOutTotal | src/process/builder/event/generic/GenericEventGroup.java:47-49 | an action that never throws runs once per list entry, in list order, and the fan-out succeeds |
| EventGroups.FanOutStopsAtFirstFailure | src/process/builder/event/generic/GenericEventGroup.java:47-49 | the fan-out stops at the first listener the action throws on: the earlier listeners have had their effect, the later ones are not reached, and that exception propagates |
| EventGroups.FanOutPrefixFailure | src/process/builder/event/generic/GenericEventGroup.java:47-49 | a failure within a prefix of the list is the failure of the whole fan-out |
| EventGroups.GenericEventGroup.constructor | src/process/builder/event/generic/GenericEventGroup.java:21-22 | the group starts with no listeners |
| EventGroups.GenericEventGroup.AddListener | src/process/builder/event/generic/GenericEventGroup.java:29-31 | the listener is appended at the end, even when it is already present |
| EventGroups.GenericEventGroup.RemoveListener | src/process/builder/event/generic/GenericEventGroup.java:38-40 | only the first occurrence is removed; an absent listener changes nothing |
| EventGroups.GenericEventGroup.ForEach | src/process/builder/event/generic/GenericEventGroup.java:47-49 | the loop's result is `FanOut`: each listener in list order, up to the first exception |
| EventGroups.AddFanOutRemoveFanOut | src/process/builder/event/generic/GenericEventGroup.java:29-49 | adding an absent listener and then removing it restores the list; a fan-out in between reaches it exactly once, and one after the removal does not reach it |
| FFMPEGEvents.HashCode | src/ffmpeg/event/handler/event/FFMPEGEvent.java:90-92 | `Objects.hash(handler)`, computed in 32-bit `int` arithmetic, so always within the `int` range |
| FFMPEGEvents.EqualsIffSameClassAndHandler | src/ffmpeg/event/handler/event/FFMPEGEvent.java:76-81 | two events are equal exactly when they are of the same class and have the same handler; nothing equals null |
| FFMPEGEvents.DifferentClassesDiffer | src/ffmpeg/event/handler/event/FFMPEGEvent.java:78 | a message event and a progress event are never equal, whatever they carry |
| FFMPEGEvents.EqualsIsEquivalence | src/ffmpeg/event/handler/event/FFMPEGEvent.java:76-81 | `equals` is reflexive, symmetric and transitive |
| FFMPEGEvents.EqualEventsHashEqually | src/ffmpeg/event/handler/event/FFMPEGEvent.java:76-92 | equal events have equal hash codes, whatever identity hashes the platform assigns |
| FFMPEGEvents.PayloadIrrelevant | src/ffmpeg/event/handler/event/FFMPEGEvent.java:66-81 | two progress events from the same handler are equal however their listeners, groups and payloads differ |
| Progress.FieldsCharacterized | src/ffmpeg/message/ProgressMessage.java:22-30 | the reluctant groups split a text into exactly the fields that, interleaved with the markers, give back the text, each of the first six ending at the first occurrence of the following marker |
| Progress.FieldsLang | src/ffmpeg/message/ProgressMessage.java:22-30 | the splitter succeeds exactly on the texts the pattern's marker sequence admits |
| Progress.Parse | src/ffmpeg/message/ProgressMessage.java:109-124 | a text the pattern does not fully match throws `MalformedParametersException` |
| Progress.ParseMatchesRegex | src/ffmpeg/message/ProgressMessage.java:109-124 | construction succeeds exactly on the strings `PROGRESS_REGEX` fully matches: no line terminator, `frame=` at the start, and the other six markers in order |
| Progress.NewMatchesRegex | src/ffmpeg/message/ProgressMessage.java:109-124 | the constructor succeeds exactly on a non-null string `PROGRESS_REGEX` fully matches, and the message renders back to that string |
| Progress.ParseRoundTrip | src/ffmpeg/message/ProgressMessage.java:113-120 | re-joining the seven parsed values with their markers gives back the input exactly |
| Progress.ParseFields | src/ffmpeg/message/ProgressMessage.java:113-120 | a parsed input is `frame=` followed by the seven values interleaved with the markers, each of the first six the shortest possible |
| Progress.RenderParses | src/ffmpeg/message/ProgressMessage.java:109-124 | any seven values, whitespace included, parse back unchanged when they hold no line terminator and none of the first six holds the marker that follows it |
| Progress.RenderNoLineTerminator | src/ffmpeg/message/ProgressMessage.java:22-30 | a rendered message holds no line terminator exactly when none of its seven values does |
| Progress.ParseShortest | src/ffmpeg/message/ProgressMessage.java:23-29 | each of the first six parsed values is free of the marker that follows it |
| Progress.MissingMarkerFails | src/ffmpeg/message/ProgressMessage.java:113-123 | a line missing any of the seven markers throws `MalformedParametersException` |
| RegexHandlers.StripWhitespace | src/process/builder/event/handler/RegexHandler.java:196-203 | the cleansed text holds no `\s` character and is no longer than the message |
| RegexHandlers.TargetString | src/process/builder/event/handler/RegexHandler.java:196-203 | with cleansing off the target is the message itself; with it on, the target holds no whitespace |
| RegexHandlers.StripWithoutWhitespace | src/process/builder/event/handler/RegexHandler.java:198 | text without whitespace passes through cleansing unchanged |
| RegexHandlers.StripIdempotent | src/process/builder/event/handler/RegexHandler.java:198 | cleansing twice is cleansing once |
| RegexHandlers.StripConcat | src/process/builder/event/handler/RegexHandler.java:198 | cleansing a concatenation is the concatenation of the cleansed parts |
| RegexHandlers.StripKeepsOthers | src/process/builder/event/handler/RegexHandler.java:198 | every character other than whitespace occurs as often after cleansing as before |
| RegexHandlers.ElementsMembers | src/process/builder/event/handler/RegexHandler.java:153 | a pattern is among the keys visited exactly when it is in the iteration order |
| RegexHandlers.FiredMatch | src/process/builder/event/handler/RegexHandler.java:153-165 | only patterns of the table that fully match the target fire |
| RegexHandlers.NoMatchFiresNothing | src/process/builder/event/handler/RegexHandler.java:157 | when no pattern matches the target no callback is called, lazy or not |
| RegexHandlers.LazyFiresAtMostOne | src/process/builder/event/handler/RegexHandler.java:160-163 | under lazy evaluation at most one callback is called |
| RegexHandlers.LazyFiresFirstMatch | src/process/builder/event/handler/RegexHandler.java:153-165 | under lazy evaluation exactly the first matching pattern in iteration order fires |
| RegexHandlers.ExhaustiveFiresEveryMatchOnce | src/process/builder/event/handler/RegexHandler.java:153-165 | without lazy evaluation every matching key fires exactly once and no other key fires |
| RegexHandlers.FiredInTable | src/process/builder/event/handler/RegexHandler.java:158 | every fired pattern has a callback in the table, so `get(p).accept` finds one |
| RegexHandlers.MessageCalls | src/process/builder/event/handler/RegexHandler.java:158 | one `accept` per fired pattern, in order, with that pattern's callback and the event |
| RegexHandlers.ErrorCalls | src/process/builder/event/handler/RegexHandler.java:179 | one `accept` per fired error pattern, in order, with that pattern's callback and the event |
| RegexHandlers.Select | src/process/builder/event/handler/RegexHandler.java:153-165 | the dispatch loop fires exactly the patterns `Fired` names, returning after the first under lazy evaluation |
| RegexHandlers.PutRule | src/process/builder/event/handler/RegexHandler.java:99 | `put` maps the key to the callback, keeps every key listed once, and leaves the order alone when the key was present |
| RegexHandlers.InsertEnumerates | src/process/builder/event/handler/RegexHandler.java:99 | a new key inserted anywhere in the order keeps the order an enumeration of the keys |
| RegexHandlers.ElementsConcat | src/process/builder/event/handler/RegexHandler.java:153 | the keys of two concatenated orders are the union of their keys |
| RegexHandlers.ElementsCardinality | src/process/builder/event/handler/RegexHandler.java:153 | an order without duplicates lists as many keys as the table has |
| RegexHandlers.ElementsRemoveFirst | src/process/builder/event/handler/RegexHandler.java:109 | dropping a key from the order drops exactly that key from its set |
| RegexHandlers.InsertNoDuplicates | src/process/builder/event/handler/RegexHandler.java:99 | inserting an absent key keeps the order free of duplicates |
| RegexHandlers.RemoveRule | src/process/builder/event/handler/RegexHandler.java:109 | `remove` drops the key from the table and the order, the other keys keeping their order |
| RegexHandlers.RemoveEnumerates | src/process/builder/event/handler/RegexHandler.java:109 | after a removal the order still enumerates the table's keys |
| RegexHandlers.Pattern.constructor | src/process/builder/event/handler/RegexHandler.java:14 | a pattern object compiled from the given regex |
| RegexHandlers.RegexHandler.constructor | src/process/builder/event/handler/RegexHandler.java:45-64 | empty message and error tables, the given finished callback, lazy evaluation on and cleansing off |
| RegexHandlers.RegexHandler.SetIsLazyEvaluation | src/process/builder/event/handler/RegexHandler.java:74-76 | sets the lazy flag and nothing else |
| RegexHandlers.RegexHandler.SetIsCleanseWhitespace | src/process/builder/event/handler/RegexHandler.java:85-87 | sets the cleansing flag and nothing else |
| RegexHandlers.RegexHandler.AddRegMessageHandler | src/process/builder/event/handler/RegexHandler.java:95-100 | throws `NullPointerException` exactly when an argument is null, leaving the tables; otherwise maps the pattern to the callback in the message table only |
| RegexHandlers.RegexHandler.RemoveRegHandler | src/process/builder/event/handler/RegexHandler.java:107-110 | throws on a null pattern; otherwise removes that key from the message table only |
| RegexHandlers.RegexHandler.AddRegErrHandler | src/process/builder/event/handler/RegexHandler.java:118-123 | as for messages, on the error table only |
| RegexHandlers.RegexHandler.RemoveErrHandler | src/process/builder/event/handler/RegexHandler.java:130-133 | as for messages, on the error table only |
| RegexHandlers.RegexHandler.SetRegFinishedHandler | src/process/builder/event/handler/RegexHandler.java:141-144 | replaces the finished callback, null included, and nothing else |
| RegexHandlers.RegexHandler.OnConsoleMessage | src/process/builder/event/handler/RegexHandler.java:151-166 | appends exactly the `accept` calls of the matching message rules for the target string, tables and flags unchanged |
| RegexHandlers.RegexHandler.OnErrorMessage | src/process/builder/event/handler/RegexHandler.java:172-187 | appends exactly the `accept` calls of the matching error rules for the error message's target string |
| RegexHandlers.RegexHandler.OnProcessFinished | src/process/builder/event/handler/RegexHandler.java:209-211 | calls the finished callback once, or throws `NullPointerException` when it is null |
| FFMPEGHandlers.ProgressDelivery | src/ffmpeg/event/handler/FFMPEGHandler.java:39-46 | a listener is handed a `ProgressEvent` exactly when the raw message parses, carrying the parsed message; otherwise `MalformedParametersException` |
| FFMPEGHandlers.Call | src/process/builder/event/handler/RegexHandler.java:158 | one called consumer records its `accept`, and the dispatch fails exactly when that callback's fan-out threw |
| FFMPEGHandlers.DispatchExtends | src/process/builder/event/handler/RegexHandler.java:153-165 | calls and deliveries recorded before a dispatch stay in front of those it adds and do not change them |
| FFMPEGHandlers.CallExtends | src/process/builder/event/handler/RegexHandler.java:158 | the one-call case of the same property |
| FFMPEGHandlers.DispatchAfter | src/process/builder/event/handler/RegexHandler.java:151-166 | a dispatch after earlier calls is the earlier calls followed by the dispatch from scratch |
| FFMPEGHandlers.FFMPEGHandler.constructor | src/ffmpeg/event/handler/FFMPEGHandler.java:67-85 | empty groups, cleansing on, exhaustive evaluation, exactly the two message rules `PROGRESS_REGEX` to `progressHandler` and a new `.*` to `msgHandler`, no error rules |
| FFMPEGHandlers.FFMPEGHandler.AddProgressListener | src/ffmpeg/event/handler/FFMPEGHandler.java:92-94 | appends the listener to the progress group and leaves the message group |
| FFMPEGHandlers.FFMPEGHandler.AddRegMsgListener | src/ffmpeg/event/handler/FFMPEGHandler.java:96-98 | appends the listener to the message group and leaves the progress group |
| FFMPEGHandlers.FFMPEGHandler.ProgressHandler | src/ffmpeg/event/handler/FFMPEGHandler.java:38-47 | delivers to the progress listeners exactly the fan-out of the parsed-message action, and throws what it throws |
| FFMPEGHandlers.FFMPEGHandler.MsgHandler | src/ffmpeg/event/handler/FFMPEGHandler.java:53-62 | delivers the event to every message listener in order, never throwing |
| FFMPEGHandlers.FFMPEGHandler.OnConsoleMessage | src/process/builder/event/handler/RegexHandler.java:151-166 | records exactly the calls and deliveries of `ConsoleDispatch` on the current configuration, which it keeps, and returns its outcome |
| FFMPEGHandlers.FFMPEGHandler.CallAll | src/process/builder/event/handler/RegexHandler.java:153-165 | the dispatch loop calls the consumers in order up to the first failure, as `ConsoleEffects` states |
| FFMPEGHandlers.FFMPEGHandler.CallConsumer | src/process/builder/event/handler/RegexHandler.java:158 | one `accept`: the handler's own methods fan out over their group, any other consumer is only recorded |
| FFMPEGHandlers.FFMPEGHandler.OnErrorMessage | src/process/builder/event/handler/RegexHandler.java:172-187 | the inherited error dispatch over the (empty) error table, configuration kept |
| FFMPEGHandlers.FFMPEGHandler.OnProcessFinished | src/process/builder/event/handler/RegexHandler.java:209-211 | calls the finished callback once, or throws `NullPointerException` when it is null |
| FFMPEGRules.ProgressFanOut | src/ffmpeg/event/handler/FFMPEGHandler.java:38-47 | when the raw text parses every progress listener receives it; otherwise the first listener throws `MalformedParametersException` and nothing is delivered |
| FFMPEGRules.MessageFanOut | src/ffmpeg/event/handler/FFMPEGHandler.java:53-62 | every message listener receives the event and nothing throws |
| FFMPEGRules.DefaultOrder | src/ffmpeg/event/handler/FFMPEGHandler.java:79-84 | a table of the two constructor rules is visited in one of the two orders |
| FFMPEGRules.DefaultConsumers | src/ffmpeg/event/handler/FFMPEGHandler.java:75-84 | the consumers a line fires are those of the rules its cleansed text matches, in iteration order |
| FFMPEGRules.FiredOfTwo | src/process/builder/event/handler/RegexHandler.java:153-165 | exhaustive evaluation over two rules fires each one that matches, in order |
| FFMPEGRules.DistinctConsumers | src/ffmpeg/event/handler/FFMPEGHandler.java:81-84 | `this::progressHandler` and `this::msgHandler` are different consumers |
| FFMPEGRules.DispatchOne | src/process/builder/event/handler/RegexHandler.java:153-165 | a one-consumer dispatch records its call and its fan-out |
| FFMPEGRules.DispatchTwo | src/process/builder/event/handler/RegexHandler.java:153-165 | a two-consumer dispatch stops after the first when it throws |
| FFMPEGRules.TerminatedLineIgnored | src/ffmpeg/event/handler/FFMPEGHandler.java:84 | a line whose cleansed text keeps a line terminator fires no rule and delivers nothing |
| FFMPEGRules.PlainLineToMessages | src/ffmpeg/event/handler/FFMPEGHandler.java:79-84 | a line that is not a progress line reaches every message listener and no progress listener, and succeeds |
| FFMPEGRules.ProgressLineToBoth | src/ffmpeg/event/handler/FFMPEGHandler.java:79-84 | a progress line whose raw text parses reaches every progress listener and every message listener, in rule order |
| FFMPEGRules.MalformedProgressLineThrows | src/ffmpeg/event/handler/FFMPEGHandler.java:38-47 | a line that parses only once cleansed throws `MalformedParametersException` at the first progress listener |
| FFMPEGRules.StripInnerSpace | src/process/builder/event/handler/RegexHandler.java:198 | removing the whitespace of `[x] + " " + rest` gives `[x] + rest` |
| FFMPEGRules.SplitMarkerCleansed | src/process/builder/event/handler/RegexHandler.java:198 | cleansing `f rame=` gives `frame=` |
| FFMPEGRules.EmptyProgressParses | src/ffmpeg/message/ProgressMessage.java:109-124 | the progress line with seven empty values parses back to itself |
| FFMPEGRules.EmptyProgressText | src/ffmpeg/message/ProgressMessage.java:109-124 | that line is `frame=` followed by the other markers, with no whitespace |
| FFMPEGRules.CleansedOnlyProgressLine | src/ffmpeg/event/handler/FFMPEGHandler.java:44 | there is a raw line that does not parse while its cleansed text does, so `MalformedProgressLineThrows` is reachable |
| ProcessHandlers.ValidHandlerView | src/process/builder/event/handler/ProcessHandler.java:15 | a valid handler's rules and flags enumerate its message table |
| ProcessHandlers.Respond | src/process/builder/event/handler/ProcessHandler.java:26-56 | the console handler and every error callback return normally; a finished callback throws `NullPointerException` exactly when the handler has none; a `null` handler throws `NullPointerException` on every call |
| ProcessHandlers.Notify | src/process/builder/event/handler/ProcessHandler.java:15 | the event reaches the matching callback, the handler keeps its rules and flags, and the outcome is what `Respond` says, a `NullPointerException` for a `null` handler |
| Executors.StepShape | src/process/builder/TrackedProcessExecutor.java:86-100 | a turn goes on having added handler calls and no finished event, ends with the finished call and closed streams, or ends on an exception |
| Executors.StepExtends | src/process/builder/TrackedProcessExecutor.java:86-100 | a turn does not depend on the calls made before it |
| Executors.TranscriptExtends | src/process/builder/TrackedProcessExecutor.java:86-117 | calls made before a run stay in front of it, unchanged |
| Executors.ResponderAnswers | src/process/builder/TrackedProcessExecutor.java:89-117 | a handler's responder answers every event this executor raises as the handler would |
| Executors.EndsAfterEarlier | src/process/builder/TrackedProcessExecutor.java:86-117 | a run ending after later calls also ends after earlier ones |
| Executors.StepEnds | src/process/builder/TrackedProcessExecutor.java:86-117 | a turn that ends the run ends it in one of the two ways a run can end |
| Executors.TranscriptEnds | src/process/builder/TrackedProcessExecutor.java:83-118 | every run either closes the streams and publishes exactly one finished event, last, reporting whether the exit value is 0, or stops on an exception with the streams open and no finished event; every call goes to the handler |
| Executors.TextsAppend | src/process/builder/TrackedProcessExecutor.java:89-98 | appending a call appends its text to the console or error texts |
| Executors.ConsoleTextsLast | src/process/builder/TrackedProcessExecutor.java:86-91 | each turn of a clean run adds exactly its standard-output line to the console texts |
| Executors.ErrorTextsLast | src/process/builder/TrackedProcessExecutor.java:94-100 | each turn of a clean run adds one error event carrying its standard-output line while the error stream has lines, and none after |
| Executors.ExpectedConsoleTexts | src/process/builder/TrackedProcessExecutor.java:86-91 | in a clean run the console events carry every standard-output line, in order |
| Executors.ExpectedErrorTexts | src/process/builder/TrackedProcessExecutor.java:94-98 | in a clean run the error events carry standard-output lines, one per line of the error stream: the error text never reaches the handler |
| Executors.CleanStep | src/process/builder/TrackedProcessExecutor.java:86-100 | a turn that goes through adds exactly the reference calls of that line |
| Executors.CleanPrefix | src/process/builder/TrackedProcessExecutor.java:86-100 | turns that go through leave the run as the reference prefix says |
| Executors.CleanRun | src/process/builder/TrackedProcessExecutor.java:83-118 | a run whose turns all go through publishes the reference calls, then the finished event, or stops with the stream's `IOException` |
| Executors.ConsoleFailureStops | src/process/builder/TrackedProcessExecutor.java:89-91 | a console callback that throws ends the run at once with its exception, the streams open |
| Executors.ErrorReadStops | src/process/builder/TrackedProcessExecutor.java:94 | an error stream that throws once its lines are used up ends the run right after the next console call |
| Executors.ErrorTextIgnored | src/process/builder/TrackedProcessExecutor.java:94-98 | the run depends on how many lines the error stream has, never on their text |
| Executors.Process.constructor | src/process/builder/TrackedProcessExecutor.java:71 | a process as the factory describes it, alive as it says |
| Executors.Process.DestroyForcibly | src/process/builder/TrackedProcessExecutor.java:175-179 | a process that had ended stays ended; a live one has ended afterwards exactly when the operating system says so |
| Executors.OutputSink.constructor | src/process/builder/TrackedProcessExecutor.java:146-148 | an open sink |
| Executors.OutputSink.Close | src/process/builder/TrackedProcessExecutor.java:111 | the sink is closed |
| Executors.Apart | src/process/builder/TrackedProcessExecutor.java:47 | the executor, its processes and sinks are never part of a handler |
| Executors.TrackedProcessExecutor.constructor | src/process/builder/TrackedProcessExecutor.java:21-47 | the console handler, the given factory, no process, no streams, no calls |
| Executors.TrackedProcessExecutor.OwnApart | src/process/builder/TrackedProcessExecutor.java:47 | the executor's own objects are outside its handler's state |
| Executors.TrackedProcessExecutor.HandlerKept | src/process/builder/TrackedProcessExecutor.java:83-118 | a step that leaves the handler's objects alone keeps it valid and its rules as before |
| Executors.TrackedProcessExecutor.StreamsKept | src/process/builder/TrackedProcessExecutor.java:83-118 | a step that leaves the process and streams alone keeps them open and reading |
| Executors.TrackedProcessExecutor.Publish | src/process/builder/TrackedProcessExecutor.java:89-91 | one handler call, recorded; the handler answers as its rules say and keeps them |
| Executors.TrackedProcessExecutor.Start | src/process/builder/TrackedProcessExecutor.java:64-77 | with a live process throws `IllegalStateException` and changes nothing; a factory exception propagates with nothing changed; otherwise a fresh process and streams, exactly the calls of `ProcessRun`, and the process or the loop's exception |
| Executors.TrackedProcessExecutor.Launch | src/process/builder/TrackedProcessExecutor.java:71-76 | the factory's process becomes current and `ProcessRun` is published, streams closed exactly when the loop reached its end |
| Executors.TrackedProcessExecutor.InitTask | src/process/builder/TrackedProcessExecutor.java:139-149 | fresh open readers at the start of the process's two output streams and a fresh sink |
| Executors.TrackedProcessExecutor.HandleProcess | src/process/builder/TrackedProcessExecutor.java:83-118 | publishes exactly the calls of `Transcript`, closes the streams exactly when the loop ends normally, and returns the run's exception |
| Executors.TrackedProcessExecutor.ReadLoop | src/process/builder/TrackedProcessExecutor.java:86-100 | the loop to the end of standard output, or its first exception, as `Transcript` says |
| Executors.TrackedProcessExecutor.Turn | src/process/builder/TrackedProcessExecutor.java:86 | one turn: a standard-output line read, then as `LoopStep` says |
| Executors.TrackedProcessExecutor.ConsoleTurn | src/process/builder/TrackedProcessExecutor.java:89-91 | the line published as a console event, as `ConsoleStep` says |
| Executors.TrackedProcessExecutor.ErrorTurn | src/process/builder/TrackedProcessExecutor.java:94-98 | one poll of the error stream, and an error event carrying the standard-output line when it read one, as `ErrorStep` says |
| Executors.TrackedProcessExecutor.Finish | src/process/builder/TrackedProcessExecutor.java:102-117 | the three streams closed and one finished event reporting whether the exit value is 0 |
| Executors.TrackedProcessExecutor.CloseStreams | src/process/builder/TrackedProcessExecutor.java:109-111 | the two readers and the sink are closed, nothing else |
| Executors.TrackedProcessExecutor.SetProcessFactory | src/process/builder/TrackedProcessExecutor.java:158-160 | the factory is replaced |
| Executors.TrackedProcessExecutor.HaltTask | src/process/builder/TrackedProcessExecutor.java:175-179 | with no process nothing changes; otherwise a process is alive afterwards exactly when one was alive before and the operating system has not yet ended it |
| Executors.TrackedProcessExecutor.GetOutputStream | src/process/builder/TrackedProcessExecutor.java:188-190 | the sink of the last process started, or null before the first |
| Executors.TrackedProcessExecutor.SetProcessHandler | src/process/builder/TrackedProcessExecutor.java:202-204 | any handler, `null` included, is installed, and every later call goes to it |
| Executors.NullHandlerRun | src/process/builder/TrackedProcessExecutor.java:83-118 | with a `null` handler a run stops at its first handler call with `NullPointerException`: the first line's console call, or the finished call on an empty output; a stream that throws at once ends it first |
| FFMPEGExecutors.FFMPEGExecutor.constructor | src/ffmpeg/FFMPEGExecutor.java:23-25 | a base executor whose handler is a fresh `FFMPEGHandler` with its two default rules and empty groups |
| FFMPEGExecutors.FFMPEGExecutor.GetProcessHandler | src/ffmpeg/FFMPEGExecutor.java:30-33 | the installed handler, as an `FFMPEGHandler` |
| FFMPEGExecutors.FFMPEGExecutor.SetProcessHandler | src/ffmpeg/FFMPEGExecutor.java:43-47 | always throws `UnsupportedOperationException`, the handler staying |
| FFMPEGExecutors.FFMPEGExecutor.AddProgressListener | src/ffmpeg/FFMPEGExecutor.java:55-57 | appends the listener to the handler's progress group and nothing else |
| FFMPEGExecutors.FFMPEGExecutor.Start | src/ffmpeg/FFMPEGExecutor.java:9-13 | the base `start` with the FFMPEG handler, whose rules and listeners stay |
| FFMPEGExecutors.FFMPEGExecutor.HaltTask | src/ffmpeg/FFMPEGExecutor.java:9-13 | the inherited `haltTask`: a process is alive afterwards exactly when one was alive before and the operating system has not yet ended it |
| Base.WrapInt32 | src/ffmpeg/event/handler/event/FFMPEGEvent.java:90-92 | Java `int` wrap-around: the result is in the 32-bit range and congruent to the mathematical value modulo 2^32 |
| Errors.NotRequiredCount | src/ffmpeg/error/FFMPEGError.java:18-19 | the base message of `ERR_FLAG_ARGS_NOT_REQUIRED` holds exactly three `%s` placeholders |
| Errors.NumArgsInvalidCount | src/ffmpeg/error/FFMPEGError.java:24-25 | the base message of `ERR_FLAG_NUM_ARGS_INVALID` holds exactly four `%s` placeholders |
| LogLevels.ToLower | src/ffmpeg/options/flags/LogLevel.java:99-102 | `toLowerCase()` maps each character to its lower-case form and keeps the length |
| LogLevels.CompiledEach | src/ffmpeg/options/flags/LogLevel.java:152-154 | one compiled name per level, in order |
| Progress.FieldsSound | src/ffmpeg/message/ProgressMessage.java:22-30 | a successful split gives fields that, interleaved with the markers, give back the text, each of the first six free of the marker after it |
| Progress.FieldsComplete | src/ffmpeg/message/ProgressMessage.java:22-30 | any such fields are exactly what the split of their interleaving yields |

## Left out
- Operating-system processes: `ProcessFactory.DEFAULT_FACTORY` spawns a real process. The factory is a parameter of the executor's constructor, a function from arguments to a process description or an `IOException`.
- `ProcessHandler.ConsoleHandler`: it only prints to `System.out`/`System.err`. It is modelled as a handler that accepts every event and has no state. The `FFMPEG.main` demonstration program is not part of this model.
- Stream mechanics: `BufferedReader` and `BufferedOutputStream` are line queues with a position and a closed flag. Nothing is ever written to the process's input. A `close()` that throws `IOException` is not modelled.
- Concurrency: `synchronized`, `AtomicBoolean` and the synchronized collections. The model is single-threaded, and the process's aliveness does not change while the read loop runs. Listeners changed during a fan-out (`ConcurrentModificationException`) are not modelled.
- Java's regular-expression engine: patterns other than `PROGRESS_REGEX` and `.*` are full-match predicates given by an `Engine` parameter.
- `String.format` substitution: no call of `FFMPEGError.compile` reaches a complete substitution, so only the exception of the first call is modelled.
- `Path.toAbsolutePath` and `CompileUtils.quote` in `InFileBuilder.build`: the rendering of the input file is a function parameter, `quotePath`. `quote` is not part of this model.
- User callbacks: lambdas registered with a `RegexHandler` and listeners in a group are modelled as never throwing. Each call is recorded, not executed. Only `progressHandler` can throw, with `MalformedParametersException`.
- The error-callback outcome: no error callback of any modelled handler can throw, so the executor does not look at it.
- `toString` methods, including the reflection-based `GenericEventGroup.toString`.
- A `null` varargs array passed to a builder method, and a `null` flag passed to `FFMPEGBuilder.addFlag`: the lists hold non-null values.
- LogLevels.CompileLevels, GlobalFlags.CompileArgs, InFileOptions.Compile, InFileOptions.CompileAlwaysRejects: a `null` array, which Java dereferences at once and so throws `NullPointerException`, and `null` elements (a `null` level throws `NullPointerException` in the tally; `LOG_LEVEL` given `{null}` compiles to `-loglevel null`) are not modelled; the arrays and their elements are non-null values, so "every argument list is rejected" speaks of non-null lists.
- CompileUtils.CompileWithValuesDelimitedBy: a `null` element of the argument array, which `StringJoiner` renders as `null`, is not modelled; the arguments are strings.
- GlobalFlags.CompileValue: a `null` value, which Java renders as, for example, `-y null`, is not modelled; the value is a string.
- ArgumentBuilders.ArgumentBuilder.AddArg, ArgumentBuilders.ArgumentBuilder.AddArgs: a `null` argument, which Java stores and hands to the target's `compile`, is not modelled; arguments are strings.
- FFMPEGEvents: an event built with a `null` handler is not modelled (its `equals` would dereference the handler); every event carries a handler.
- Executors.Process.DestroyForcibly, Executors.TrackedProcessExecutor.HaltTask, FFMPEGExecutors.FFMPEGExecutor.HaltTask: `destroyForcibly()` is asynchronous, so whether the process has ended afterwards is a parameter, the operating system's answer. A process that exits by itself between calls is not modelled: its aliveness changes only through these members.
- `FFMPEGEvent.equals` against an object that is not an `FFMPEGEvent` other than `null`: events are compared only with an optional event. Identity hash codes are left abstract.
- The unused field `cFfmpegExecutor` of `FFMPEGBuilder` is not modelled, because no method reads it.
- Source that does not compile is modelled by its evident intent:
  - `FFMPEGHandler`'s `super()` call matches no `RegexHandler` constructor, so the finished callback is a constructor parameter of the model.
  - `FFMPEGExecutor.getProcessHandler` overrides a method the base class lacks. It is modelled as returning the installed handler.
  - `Flag` returns `String` where `ProcessArgument` declares `String[]`, and the model follows the `Flag` code.
  - `FFMPEGHandler` imports `ProgressMessage` from a package that does not declare it.
- Subclassing: `FFMPEGHandler extends RegexHandler` and `FFMPEGExecutor extends TrackedProcessExecutor` are modelled by composition. The subclass holds the base object and forwards the inherited operations to it. The base executor is the field `executor` and is reachable from outside, so the fixed-handler property of `FFMPEGExecutor` holds only for clients that go through its own methods: a direct `executor.SetProcessHandler` call would replace the handler, which Java's override forbids.
- The data carriers `OutputMessageEvent`, `OutputErrorEvent`, `OutputFinishedEvent`, `MessageEvent`, `ProgressEvent` and their getters are datatypes and their fields.
- `CommandBuilder`, `ProcessArgument` and `InputProcessArgument` are interfaces only and are not modelled.
