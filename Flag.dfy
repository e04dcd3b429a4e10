/** The command flags of `ffmpeg.options.flags.Flag`. */
module Flags {

  import opened Base
  import Errors
  import LogLevels

  datatype Flag = LogLevel | Report

  /** The enum constant's `name()`. */
  function Name(f: Flag): string
  {
    match f
    case LogLevel => "LOG_LEVEL"
    case Report => "REPORT"
  }

  /** The literal that invokes the flag. */
  function Literal(f: Flag): string
  {
    match f
    case LogLevel => "-loglevel"
    case Report => "-report"
  }

  /** `isInputRequired()`: the constructor flag, true for `LOG_LEVEL` only. */
  predicate IsInputRequired(f: Flag)
  {
    f == LogLevel
  }

  /** The default value: `LogLevel.VERBOSE.compile()` for `LOG_LEVEL`, null for `REPORT`. */
  function DefaultValue(f: Flag): Option<string>
  {
    match f
    case LogLevel => Some(LogLevels.Compile(LogLevels.Verbose))
    case Report => None
  }

  /**
   * `compileFlag()`: the literal alone when the default is null or empty,
   * otherwise the literal, a space and the default.
   */
  function CompileFlag(f: Flag): (r: string)
    ensures DefaultValue(f).None? || DefaultValue(f) == Some("") ==> r == Literal(f)
    ensures DefaultValue(f).Some? && DefaultValue(f) != Some("")
            ==> r == Literal(f) + " " + DefaultValue(f).value
  {
    var d := DefaultValue(f);
    if d.None? || d.value == "" then Literal(f) else Literal(f) + " " + d.value
  }

  /**
   * `compileFlag(value)`: a flag that requires input is rejected (the
   * `FFMPEGError.compile` call that builds the message throws
   * `IllegalArgumentException` itself); any other flag yields the literal, a
   * space and its default, rendered as Java concatenation renders it, and
   * ignores `value`.
   */
  function CompileFlagValue(f: Flag, value: string): (r: Result<string>)
    ensures r.Ok? <==> !IsInputRequired(f)
    ensures r.Throw? ==> r.ex == IllegalArgument
    ensures r.Ok? ==> r.value == Literal(f) + " " + ToJavaString(DefaultValue(f))
  {
    if IsInputRequired(f) then
      match Errors.Compile(Errors.ErrFlagArgsNotRequired, [Name(f), Literal(f), value])
      case Throw(ex) => Throw(ex)
      case Ok(message) => Throw(UnsupportedOperation)
    else
      Ok(Literal(f) + " " + ToJavaString(DefaultValue(f)))
  }

  /** The value handed to `compileFlag(value)` never affects its result. */
  lemma CompileFlagValueIgnoresValue(f: Flag, v1: string, v2: string)
    ensures CompileFlagValue(f, v1) == CompileFlagValue(f, v2)
  {
  }

  /**
   * The flag without input, whose default is null, compiled with any value is
   * its no-argument form followed by a space and `null`; the flag that
   * requires input compiles to its literal and a non-empty default.
   */
  lemma CompileFlagValueAgainstDefault(f: Flag)
    ensures !IsInputRequired(f) ==> forall v :: CompileFlagValue(f, v) == Ok(CompileFlag(f) + " null")
    ensures IsInputRequired(f) ==>
            DefaultValue(f).Some? && DefaultValue(f).value != ""
            && CompileFlag(f) == Literal(f) + " " + DefaultValue(f).value
  {
    if IsInputRequired(f) {
      LogLevels.CompileVerbose();
    } else {
      assert ToJavaString(DefaultValue(f)) == "null";
      assert Literal(f) + " " + "null" == CompileFlag(f) + " null";
    }
  }

  lemma FlagExamples()
    ensures CompileFlag(LogLevel) == "-loglevel verbose"
    ensures CompileFlag(Report) == "-report"
    ensures forall v :: CompileFlagValue(Report, v) == Ok("-report null")
    ensures forall v :: CompileFlagValue(LogLevel, v) == Throw(IllegalArgument)
  {
    LogLevels.CompileVerbose();
    assert "-report" + " " + "null" == "-report null";
    assert "-loglevel" + " " + "verbose" == "-loglevel verbose";
  }
}
