/** The `-loglevel` values and flags of `ffmpeg.options.flags.LogLevel`. */
module LogLevels {

  import opened Base
  import opened Text

  datatype LogLevel =
    | Repeat | Level                                  // flags of the log level
    | Quiet | Panic | Fatal | Error | Warning | Info   // level values
    | Verbose | Debug | Trace

  /** The constructor argument `isLogFlag`: only `REPEAT` and `LEVEL` are flags. */
  predicate IsLogFlag(l: LogLevel)
  {
    l == Repeat || l == Level
  }

  /** The enum constant's `name()`. */
  function Name(l: LogLevel): string
  {
    match l
    case Repeat => "REPEAT"
    case Level => "LEVEL"
    case Quiet => "QUIET"
    case Panic => "PANIC"
    case Fatal => "FATAL"
    case Error => "ERROR"
    case Warning => "WARNING"
    case Info => "INFO"
    case Verbose => "VERBOSE"
    case Debug => "DEBUG"
    case Trace => "TRACE"
  }

  predicate IsUpper(c: char) { 'A' <= c <= 'Z' }

  /** `Character.toLowerCase` on the characters that occur in the names. */
  function LowerChar(c: char): char
  {
    if IsUpper(c) then (c as int - 'A' as int + 'a' as int) as char else c
  }

  /** `String.toLowerCase(Locale.UK)` restricted to the names' alphabet. */
  function ToLower(s: string): (r: string)
    ensures |r| == |s|
    ensures forall i :: 0 <= i < |s| ==> r[i] == LowerChar(s[i])
  {
    seq(|s|, i requires 0 <= i < |s| => LowerChar(s[i]))
  }

  /**
   * `compile()`: the constant's name in lower case; it consists of lower-case
   * letters only, so in particular it never contains the joiner `+`.
   */
  function Compile(l: LogLevel): (r: string)
    ensures r == ToLower(Name(l))
    ensures |r| > 0 && forall i :: 0 <= i < |r| ==> 'a' <= r[i] <= 'z'
    ensures '+' !in r
  {
    ToLower(Name(l))
  }

  lemma CompileVerbose()
    ensures Compile(Verbose) == "verbose"
  {
    var r := Compile(Verbose);
    assert Name(Verbose) == "VERBOSE";
    assert r[0] == 'v' && r[1] == 'e' && r[2] == 'r' && r[3] == 'b';
    assert r[4] == 'o' && r[5] == 's' && r[6] == 'e';
  }

  /** How many entries of `levels` are flags. */
  function FlagCount(levels: seq<LogLevel>): (n: nat)
    ensures n <= |levels|
  {
    if |levels| == 0 then 0
    else FlagCount(levels[..|levels| - 1]) + (if IsLogFlag(levels[|levels| - 1]) then 1 else 0)
  }

  /** How many entries of `levels` are level values. */
  function ValueCount(levels: seq<LogLevel>): (n: nat)
    ensures n <= |levels|
  {
    if |levels| == 0 then 0
    else ValueCount(levels[..|levels| - 1]) + (if IsLogFlag(levels[|levels| - 1]) then 0 else 1)
  }

  lemma {:induction false} FlagsPlusValues(levels: seq<LogLevel>)
    ensures FlagCount(levels) + ValueCount(levels) == |levels|
    decreases |levels|
  {
    if |levels| > 0 {
      FlagsPlusValues(levels[..|levels| - 1]);
    }
  }

  /** Each level compiled on its own, in the given order. */
  function CompiledEach(levels: seq<LogLevel>): (r: seq<string>)
    ensures |r| == |levels|
    ensures forall i :: 0 <= i < |levels| ==> r[i] == Compile(levels[i])
  {
    seq(|levels|, i requires 0 <= i < |levels| => Compile(levels[i]))
  }

  const MAX_ARGS: nat := 3
  const MIN_ARGS: nat := 1
  const MAX_FLAGS: nat := 2
  const MAX_VALUES: nat := 1

  lemma CountsStep(levels: seq<LogLevel>, i: nat)
    requires i < |levels|
    ensures FlagCount(levels[..i + 1]) == FlagCount(levels[..i]) + if IsLogFlag(levels[i]) then 1 else 0
    ensures ValueCount(levels[..i + 1]) == ValueCount(levels[..i]) + if IsLogFlag(levels[i]) then 0 else 1
  {
    assert levels[..i + 1][..i] == levels[..i];
  }

  /**
   * The static `compile(levels...)`: an argument count outside 1..3 throws
   * `IllegalArgumentException` before anything else is looked at; more than
   * two flags, or more than one level value, throws
   * `MalformedParametersException`; otherwise the lower-cased names are
   * joined by `+` in the given order.
   */
  method CompileLevels(levels: seq<LogLevel>) returns (r: Result<string>)
    ensures r == Throw(IllegalArgument) <==> |levels| < MIN_ARGS || |levels| > MAX_ARGS
    ensures MIN_ARGS <= |levels| <= MAX_ARGS && FlagCount(levels) > MAX_FLAGS
            ==> r == Throw(MalformedParameters)
    ensures MIN_ARGS <= |levels| <= MAX_ARGS && ValueCount(levels) > MAX_VALUES
            ==> r == Throw(MalformedParameters)
    ensures r.Ok? <==> MIN_ARGS <= |levels| <= MAX_ARGS
                       && FlagCount(levels) <= MAX_FLAGS && ValueCount(levels) <= MAX_VALUES
    ensures r.Ok? ==> r.value == Join(CompiledEach(levels), "+")
  {
    if |levels| > MAX_ARGS || |levels| < MIN_ARGS {
      return Throw(IllegalArgument);
    }
    var flagCount, valueCount := 0, 0;
    var i := 0;
    while i < |levels|
      invariant 0 <= i <= |levels|
      invariant flagCount == FlagCount(levels[..i])
      invariant valueCount == ValueCount(levels[..i])
    {
      CountsStep(levels, i);
      if IsLogFlag(levels[i]) {
        flagCount := flagCount + 1;
      } else {
        valueCount := valueCount + 1;
      }
      i := i + 1;
    }
    assert levels[..i] == levels;
    if flagCount > MAX_FLAGS {
      return Throw(MalformedParameters);
    }
    if valueCount > MAX_VALUES {
      return Throw(MalformedParameters);
    }
    var joined := JoinCompiled(levels);
    return Ok(joined);
  }

  /** The `StringJoiner("+")` of `compile`, fed with each compiled level in turn. */
  method JoinCompiled(levels: seq<LogLevel>) returns (joined: string)
    ensures joined == Join(CompiledEach(levels), "+")
  {
    ghost var parts := CompiledEach(levels);
    joined := "";
    var j := 0;
    while j < |levels|
      invariant 0 <= j <= |levels|
      invariant joined == Join(parts[..j], "+")
    {
      JoinPrefixStep(parts, j, "+");
      joined := if j == 0 then Compile(levels[j]) else joined + "+" + Compile(levels[j]);
      j := j + 1;
    }
    assert parts[..j] == parts;
  }

  /** A successful result holds exactly one `+` fewer than there are levels. */
  lemma CompiledPlusCount(levels: seq<LogLevel>)
    requires |levels| >= 1
    ensures CountChar(Join(CompiledEach(levels), "+"), '+') == |levels| - 1
  {
    JoinDelimiterCount(CompiledEach(levels), '+');
  }

  /** For instance, `(LEVEL, VERBOSE)` compiles to `level+verbose`. */
  lemma LevelVerboseExample()
    ensures Join(CompiledEach([Level, Verbose]), "+") == "level+verbose"
  {
    CompileVerbose();
    var l := Compile(Level);
    assert l[0] == 'l' && l[1] == 'e' && l[2] == 'v' && l[3] == 'e' && l[4] == 'l';
    assert l == "level";
    var parts := CompiledEach([Level, Verbose]);
    assert parts == ["level", "verbose"];
    assert parts[1..] == ["verbose"];
  }
}
