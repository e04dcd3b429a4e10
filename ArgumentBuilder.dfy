/** `process.ArgumentBuilder`: a list of values accumulated for one argument. */
module ArgumentBuilders {

  import opened Base
  import GlobalFlags
  import InFileOptions

  /** The argument kinds a builder can target: a global flag or an input-file option. */
  datatype InputArgument =
    | GlobalFlagArg(flag: GlobalFlags.GlobalFlag)
    | InFileArg(option: InFileOptions.InFileOption)

  /**
   * `compile(args...)` of the target, its single compiled string taken as the
   * one-element token array the builder returns.
   */
  function CompileWith(target: InputArgument, args: seq<string>): (r: Result<Option<seq<string>>>)
    ensures r.Ok? ==> r.value.Some? && |r.value.value| == 1
    ensures target.GlobalFlagArg? ==>
              (r.Ok? <==> |args| == 1 && GlobalFlags.IsInputRequired(target.flag))
    ensures target.InFileArg? ==> r == Throw(IllegalArgument)
    ensures r.Throw? ==> r.ex == IllegalArgument
  {
    match target
    case GlobalFlagArg(f) =>
      var s :- GlobalFlags.CompileArgs(f, args);
      Ok(Some([s]))
    case InFileArg(o) =>
      match InFileOptions.Compile(o, args)
      case Throw(ex) => Throw(ex)
      case Ok(s) => Ok(Some([s]))
  }

  /** `compile()` of the target: a global flag's default form, an input-file option's null. */
  function CompileDefault(target: InputArgument): (r: Option<seq<string>>)
    ensures target.GlobalFlagArg? ==> r == Some([GlobalFlags.Compile(target.flag)])
    ensures target.InFileArg? ==> r.None?
  {
    match target
    case GlobalFlagArg(f) => Some([GlobalFlags.Compile(f)])
    case InFileArg(o) =>
      match InFileOptions.CompileDefault(o)
      case None => None
      case Some(s) => Some([s])
  }

  class ArgumentBuilder {
    /** The argument this builder builds, fixed at construction. */
    const target: InputArgument
    /** The values added so far, in insertion order. */
    var args: seq<string>

    constructor (arg: InputArgument)
      ensures target == arg && args == []
    {
      target := arg;
      args := [];
    }

    /** `addArg(arg)`: appends one value and returns this builder. */
    method AddArg(arg: string) returns (self: ArgumentBuilder)
      modifies this
      ensures args == old(args) + [arg]
      ensures self == this
    {
      args := args + [arg];
      self := this;
    }

    /** `addArgs(args...)`: appends every value in order and returns this builder. */
    method AddArgs(more: seq<string>) returns (self: ArgumentBuilder)
      modifies this
      ensures args == old(args) + more
      ensures self == this
    {
      args := args + more;
      self := this;
    }

    /**
     * `build()`: the target compiled with the values in insertion order when
     * there are any, otherwise the target's default. A global flag thus
     * builds to its one-token default or, given exactly one value, to that
     * value when it takes input; an input-file option builds to null without
     * values and is rejected with them.
     */
    function Build(): (r: Result<Option<seq<string>>>)
      reads this
      ensures |args| > 0 ==> r == CompileWith(target, args)
      ensures |args| == 0 ==> r == Ok(CompileDefault(target))
      ensures target.GlobalFlagArg? && |args| == 0 ==> r == Ok(Some([GlobalFlags.Compile(target.flag)]))
      ensures target.GlobalFlagArg? && |args| > 0 ==>
                (r.Ok? <==> |args| == 1 && GlobalFlags.IsInputRequired(target.flag))
      ensures target.InFileArg? ==> r == (if |args| == 0 then Ok(None) else Throw(IllegalArgument))
    {
      if |args| > 0 then CompileWith(target, args) else Ok(CompileDefault(target))
    }
  }

  /** `new ArgumentBuilder<>(LOG_LEVEL).addArg("quiet").build()` yields `-loglevel quiet`. */
  lemma LogLevelWithValue(b: ArgumentBuilder)
    requires b.target == GlobalFlagArg(GlobalFlags.LogLevel) && b.args == ["quiet"]
    ensures b.Build() == Ok(Some(["-loglevel quiet"]))
  {
    assert "-loglevel" + " " + "quiet" == "-loglevel quiet";
  }
}
