/** The input-file options of `ffmpeg.options.infile.InFileOption`. */
module InFileOptions {

  import opened Base
  import CompileUtils

  datatype InFileOption = VideoBitRate | AudioBitRate

  /** The identifier that invokes the option. */
  function Identifier(o: InFileOption): string
  {
    match o
    case VideoBitRate => "-b:v"
    case AudioBitRate => "-b:a"
  }

  /** Both options are declared as requiring input, with default `1024`. */
  predicate RequiresInput(o: InFileOption) { true }

  function DefaultValue(o: InFileOption): string { "1024" }

  /** The declared minimum number of arguments: 1 for both options. */
  function MinArgs(o: InFileOption): int { 1 }

  /** The declared (exclusive) maximum number of arguments: 1 for both options. */
  function MaxArgs(o: InFileOption): int { 1 }

  /**
   * `compile(args...)`: accepted exactly when `minArgs <= |args| < maxArgs`,
   * and then the identifier joined with the arguments; otherwise
   * `IllegalArgumentException`.
   */
  function Compile(o: InFileOption, args: seq<string>): (r: Result<string>)
    ensures r.Ok? <==> MinArgs(o) <= |args| < MaxArgs(o)
    ensures r.Ok? ==> r == CompileUtils.CompileWithValues(Some(Identifier(o)), Some(args))
    ensures r.Throw? ==> r.ex == IllegalArgument
  {
    if MinArgs(o) <= |args| < MaxArgs(o) then
      CompileUtils.CompileWithValues(Some(Identifier(o)), Some(args))
    else
      Throw(IllegalArgument)
  }

  /**
   * With `min = max = 1` the accepting range is empty: every argument list is
   * rejected.
   */
  lemma CompileAlwaysRejects(o: InFileOption, args: seq<string>)
    ensures Compile(o, args) == Throw(IllegalArgument)
  {
  }

  /** `compile()`: always null. */
  function CompileDefault(o: InFileOption): (r: Option<string>)
    ensures r.None?
  {
    None
  }
}
