/** `ffmpeg.options.infile.InFileBuilder`: the `-i <file> [options]` section of a command. */
module InFileBuilders {

  import opened Base
  import InFileOptions
  import opened ArgumentBuilders

  /** The flag that introduces the input file. */
  const IN_FILE_IDENTIFIER: string := "-i"

  /**
   * The tokens of the builders in order, each builder's `build()` contributing
   * its array; the first builder (in list order) that throws, or that builds
   * to null (`Arrays.asList(null)` throws `NullPointerException`), ends the
   * fold with that exception.
   */
  function BuiltAll(bs: seq<ArgumentBuilder>): (r: Result<seq<string>>)
    reads set b | b in bs
  {
    if |bs| == 0 then Ok([])
    else
      var init :- BuiltAll(bs[..|bs| - 1]);
      var last :- bs[|bs| - 1].Build();
      if last.None? then Throw(NullPointer) else Ok(init + last.value)
  }

  /**
   * `build()` on a given input file and option list: the identifier `-i`,
   * the rendered input file, then every option's tokens. A null input file
   * throws `NullPointerException` before any option is built.
   */
  function Command(inFile: Option<Path>, bs: seq<ArgumentBuilder>, quotePath: Path -> string)
    : (r: Result<seq<string>>)
    reads set b | b in bs
  {
    if inFile.None? then Throw(NullPointer)
    else
      var rest :- BuiltAll(bs);
      Ok([IN_FILE_IDENTIFIER, quotePath(inFile.value)] + rest)
  }

  /** The fold over `bs + [b]`: the fold over `bs`, then `b`'s tokens or failure. */
  lemma BuiltAllSnoc(bs: seq<ArgumentBuilder>, b: ArgumentBuilder)
    ensures BuiltAll(bs + [b])
            == if BuiltAll(bs).Throw? then BuiltAll(bs)
               else if b.Build().Throw? then Throw(b.Build().ex)
               else if b.Build().value.None? then Throw(NullPointer)
               else Ok(BuiltAll(bs).value + b.Build().value.value)
  {
    assert (bs + [b])[..|bs|] == bs;
  }

  /** The builders' tokens concatenate: the fold over `xs + ys` is the fold over `xs`, then `ys`. */
  lemma {:induction false} BuiltAllConcat(xs: seq<ArgumentBuilder>, ys: seq<ArgumentBuilder>)
    ensures BuiltAll(xs + ys) ==
            (if BuiltAll(xs).Throw? then BuiltAll(xs)
             else if BuiltAll(ys).Throw? then BuiltAll(ys)
             else Ok(BuiltAll(xs).value + BuiltAll(ys).value))
    decreases |ys|
  {
    if |ys| == 0 {
      assert xs + ys == xs;
      assert BuiltAll(xs) == BuiltAll(xs + ys);
      if BuiltAll(xs).Ok? {
        assert BuiltAll(xs).value + [] == BuiltAll(xs).value;
      }
    } else {
      var init, b := ys[..|ys| - 1], ys[|ys| - 1];
      assert xs + ys == (xs + init) + [b] && ys == init + [b];
      BuiltAllConcat(xs, init);
      BuiltAllSnoc(xs + init, b);
      BuiltAllSnoc(init, b);
      if BuiltAll(xs).Ok? && BuiltAll(init).Ok? && b.Build().Ok? && b.Build().value.Some? {
        assert BuiltAll(xs).value + BuiltAll(init).value + b.Build().value.value
            == BuiltAll(xs).value + (BuiltAll(init).value + b.Build().value.value);
      }
    }
  }

  /** A single builder contributes exactly its own tokens, or its failure. */
  lemma BuiltAllSingle(b: ArgumentBuilder)
    ensures BuiltAll([b]) ==
            (if b.Build().Throw? then Throw(b.Build().ex)
             else if b.Build().value.None? then Throw(NullPointer)
             else Ok(b.Build().value.value))
  {
    assert [b][..0] == [];
    assert BuiltAll([]) == Ok([]);
    var last := b.Build();
    if last.Ok? && last.value.Some? {
      assert [] + last.value.value == last.value.value;
    }
  }

  /**
   * A built command starts with `-i` and the rendered input file, and holds
   * exactly two tokens more than the options contribute.
   */
  lemma CommandLayout(inFile: Option<Path>, bs: seq<ArgumentBuilder>, quotePath: Path -> string)
    requires Command(inFile, bs, quotePath).Ok?
    ensures inFile.Some? && BuiltAll(bs).Ok?
    ensures var r := Command(inFile, bs, quotePath).value;
            |r| == 2 + |BuiltAll(bs).value| && r[0] == "-i" && r[1] == quotePath(inFile.value)
            && r[2..] == BuiltAll(bs).value
  {
  }

  /**
   * An input-file option can never be built, so the whole command fails: with
   * values it rejects every argument list, and without them its `compile()`
   * is null, which the fold dereferences. When the input file is set and the
   * builders before it build, the exception is exactly that one.
   */
  lemma InFileOptionFails(inFile: Option<Path>, bs: seq<ArgumentBuilder>,
                          quotePath: Path -> string, i: nat)
    requires i < |bs| && bs[i].target.InFileArg?
    ensures Command(inFile, bs, quotePath).Throw?
    ensures inFile.Some? && BuiltAll(bs[..i]).Ok? ==>
            Command(inFile, bs, quotePath)
            == Throw(if |bs[i].args| == 0 then NullPointer else IllegalArgument)
  {
    if inFile.Some? {
      assert bs == bs[..i] + [bs[i]] + bs[i + 1..];
      BuiltAllConcat(bs[..i] + [bs[i]], bs[i + 1..]);
      BuiltAllConcat(bs[..i], [bs[i]]);
      BuiltAllSingle(bs[i]);
    }
  }

  /** One more builder in the fold: its tokens are appended, or its failure ends the fold. */
  lemma BuiltAllStep(bs: seq<ArgumentBuilder>, i: nat)
    requires i < |bs| && BuiltAll(bs[..i]).Ok?
    ensures var b := bs[i].Build();
            BuiltAll(bs[..i + 1])
            == if b.Throw? then Throw(b.ex)
               else if b.value.None? then Throw(NullPointer)
               else Ok(BuiltAll(bs[..i]).value + b.value.value)
  {
    assert bs[..i + 1][..i] == bs[..i];
  }

  /** A failure within a prefix of the builders is the failure of the whole fold. */
  lemma BuiltAllStops(bs: seq<ArgumentBuilder>, i: nat)
    requires i < |bs| && BuiltAll(bs[..i + 1]).Throw?
    ensures BuiltAll(bs) == BuiltAll(bs[..i + 1])
  {
    BuiltAllConcat(bs[..i + 1], bs[i + 1..]);
    assert bs[..i + 1] + bs[i + 1..] == bs;
  }

  class InFileBuilder {
    /** The input file; null until set. */
    var inFile: Option<Path>
    /** The option builders, in insertion order. */
    var arguments: seq<ArgumentBuilder>

    constructor ()
      ensures inFile == None && arguments == []
    {
      inFile := None;
      arguments := [];
    }

    /** `setInFile(inFile)`: replaces the file and leaves the options alone. */
    method SetInFile(file: Option<Path>) returns (self: InFileBuilder)
      modifies this
      ensures inFile == file && arguments == old(arguments)
      ensures self == this
    {
      inFile := file;
      self := this;
    }

    /** `addOption(builder)`: appends exactly that builder. */
    method AddOption(option: ArgumentBuilder) returns (self: InFileBuilder)
      modifies this
      ensures arguments == old(arguments) + [option] && inFile == old(inFile)
      ensures self == this
    {
      arguments := arguments + [option];
      self := this;
    }

    /** `addOption(option, args...)`: appends a fresh builder over `option` holding `args`. */
    method AddOptionWithArgs(option: InFileOptions.InFileOption, args: seq<string>)
      returns (self: InFileBuilder, added: ArgumentBuilder)
      modifies this
      ensures fresh(added) && added.target == InFileArg(option) && added.args == args
      ensures arguments == old(arguments) + [added] && inFile == old(inFile)
      ensures self == this
    {
      added := new ArgumentBuilder(InFileArg(option));
      added := added.AddArgs(args);
      arguments := arguments + [added];
      self := this;
    }

    /**
     * `build()`: fills a list with `-i`, the rendered input file and the
     * tokens of each option builder in turn; `quotePath` stands for
     * `CompileUtils.quote(path.toAbsolutePath().toString())`.
     */
    method Build(quotePath: Path -> string) returns (r: Result<seq<string>>)
      ensures r == Command(inFile, arguments, quotePath)
    {
      if inFile.None? {
        return Throw(NullPointer);
      }
      var bs := arguments;
      var command := [IN_FILE_IDENTIFIER, quotePath(inFile.value)];
      ghost var head := command;
      var i := 0;
      while i < |bs|
        invariant 0 <= i <= |bs|
        invariant BuiltAll(bs[..i]).Ok? && command == head + BuiltAll(bs[..i]).value
      {
        var built := bs[i].Build();
        BuiltAllStep(bs, i);
        if built.Throw? || built.value.None? {
          BuiltAllStops(bs, i);
          return if built.Throw? then Throw(built.ex) else Throw(NullPointer);
        }
        command := command + built.value.value;
        i := i + 1;
      }
      assert bs[..i] == bs;
      return Ok(command);
    }
  }
}
