/** The global flags of `ffmpeg.options.global.flags.Flag`, placed before the input file. */
module GlobalFlags {

  import opened Base
  import opened Text
  import Errors
  import LogLevels
  import CompileUtils

  datatype GlobalFlag = LogLevel | Report | AlwaysOverwrite | NeverOverwrite | Stats

  /** The enum constant's `name()`. */
  function Name(f: GlobalFlag): string
  {
    match f
    case LogLevel => "LOG_LEVEL"
    case Report => "REPORT"
    case AlwaysOverwrite => "ALWAYS_OVERWRITE"
    case NeverOverwrite => "NEVER_OVERWRITE"
    case Stats => "STATS"
  }

  /** The literal that invokes the flag. */
  function Literal(f: GlobalFlag): string
  {
    match f
    case LogLevel => "-loglevel"
    case Report => "-report"
    case AlwaysOverwrite => "-y"
    case NeverOverwrite => "-n"
    case Stats => "-stats"
  }

  /** `isInputRequired()`: true for `LOG_LEVEL` only. */
  predicate IsInputRequired(f: GlobalFlag)
  {
    f == LogLevel
  }

  /** The default value: `LogLevel.VERBOSE.compile()` for `LOG_LEVEL`, null for the rest. */
  function DefaultValue(f: GlobalFlag): Option<string>
  {
    if f == LogLevel then Some(LogLevels.Compile(LogLevels.Verbose)) else None
  }

  /**
   * `compile()`: the literal alone when the default is null or empty,
   * otherwise the literal, a space and the default.
   */
  function Compile(f: GlobalFlag): (r: string)
    ensures DefaultValue(f).None? || DefaultValue(f) == Some("") ==> r == Literal(f)
    ensures DefaultValue(f).Some? && DefaultValue(f) != Some("")
            ==> r == Literal(f) + " " + DefaultValue(f).value
    ensures StartsWith(r, Literal(f))
  {
    var d := DefaultValue(f);
    var r := if d.None? || d.value == "" then Literal(f) else Literal(f) + " " + d.value;
    assert r[..|Literal(f)|] == Literal(f);
    r
  }

  lemma CompileExamples()
    ensures Compile(LogLevel) == "-loglevel verbose"
    ensures Compile(AlwaysOverwrite) == "-y"
    ensures Compile(NeverOverwrite) == "-n"
    ensures Compile(Stats) == "-stats"
    ensures Compile(Report) == "-report"
  {
    LogLevels.CompileVerbose();
    assert "-loglevel" + " " + "verbose" == "-loglevel verbose";
  }

  /**
   * `compile(value)`: a flag that requires input is rejected (building the
   * message with `FFMPEGError.compile` and its three placeholders throws
   * `IllegalArgumentException` before the `UnsupportedOperationException` is
   * constructed); any other flag yields `compileWithValues(literal, value)`.
   */
  function CompileValue(f: GlobalFlag, value: string): (r: Result<string>)
    ensures r.Ok? <==> !IsInputRequired(f)
    ensures r.Throw? ==> r.ex == IllegalArgument
    ensures r.Ok? ==> r.value == Literal(f) + " " + value
  {
    if IsInputRequired(f) then
      match Errors.Compile(Errors.ErrFlagArgsNotRequired, [Name(f), Literal(f), value])
      case Throw(ex) => Throw(ex)
      case Ok(message) => Throw(UnsupportedOperation)
    else
      CompileUtils.CompileWithOneValue(Literal(f), value);
      CompileUtils.CompileWithValues(Some(Literal(f)), Some([value]))
  }

  /** The argument count `compile(String...)` expects: 1 with input, 0 without. */
  function ExpectedArgCount(f: GlobalFlag): nat
  {
    if IsInputRequired(f) then 1 else 0
  }

  /**
   * `compile(args...)`: exactly one argument on a flag that requires input
   * gives the literal, a space and that argument. One argument on any other
   * flag, or any other argument count, builds an error message with exactly
   * `getNumArgs()` arguments, so the message builder itself throws
   * `IllegalArgumentException`.
   */
  function CompileArgs(f: GlobalFlag, args: seq<string>): (r: Result<string>)
    ensures r.Ok? <==> |args| == 1 && IsInputRequired(f)
    ensures r.Ok? ==> r.value == Literal(f) + " " + args[0]
    ensures r.Throw? ==> r.ex == IllegalArgument
  {
    if |args| == 1 then
      if IsInputRequired(f) then
        CompileUtils.CompileWithOneValue(Literal(f), args[0]);
        assert args == [args[0]];
        CompileUtils.CompileWithValues(Some(Literal(f)), Some(args))
      else
        match Errors.Compile(Errors.ErrFlagArgsNotRequired, [Name(f), Literal(f), args[0]])
        case Throw(ex) => Throw(ex)
        case Ok(message) => Throw(UnsupportedOperation)
    else
      match Errors.Compile(Errors.ErrFlagNumArgsInvalid,
        [Name(f), Literal(f), DecimalString(ExpectedArgCount(f)), DecimalString(|args|)])
      case Throw(ex) => Throw(ex)
      case Ok(message) => Throw(IllegalArgument)
  }

  /**
   * The no-argument `compile()` agrees with the forms that take values: the
   * flag that requires input compiles as if given its default as the one
   * argument, and any other flag compiles to exactly the prefix its value
   * follows.
   */
  lemma CompileAgreesWithArguments(f: GlobalFlag)
    ensures IsInputRequired(f) ==>
            DefaultValue(f).Some? && CompileArgs(f, [DefaultValue(f).value]) == Ok(Compile(f))
    ensures !IsInputRequired(f) ==> forall v :: CompileValue(f, v) == Ok(Compile(f) + " " + v)
  {
    if IsInputRequired(f) {
      LogLevels.CompileVerbose();
    }
  }

  /**
   * A flag compiled from arguments either is the required-input flag given its
   * single argument, or is rejected with `IllegalArgumentException`, never the
   * `UnsupportedOperationException` the code appears to throw.
   */
  lemma CompileArgsRejectsWithIllegalArgument(f: GlobalFlag, args: seq<string>)
    ensures CompileArgs(f, args) == Throw(IllegalArgument)
            || (f == LogLevel && |args| == 1 && CompileArgs(f, args) == Ok("-loglevel " + args[0]))
  {
    if f == LogLevel && |args| == 1 {
      assert "-loglevel" + " " + args[0] == "-loglevel " + args[0];
    }
  }
}
