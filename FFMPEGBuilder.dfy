/** `ffmpeg.FFMPEGBuilder`: the global flags and the input and output files of a command. */
module FFMPEGBuilders {

  import opened Base
  import opened Lists
  import Flags

  class FFMPEGBuilder {
    var inFile: Option<Path>
    var outFile: Option<string>
    /** The global flags, in first-insertion order. */
    var globalFlags: seq<Flags.Flag>

    /** The flag list holds every flag at most once. */
    predicate Valid()
      reads this
    {
      NoDuplicates(globalFlags)
    }

    constructor ()
      ensures Valid()
      ensures inFile == None && outFile == None && globalFlags == []
    {
      inFile := None;
      outFile := None;
      globalFlags := [];
    }

    /** `addFlag(flag)`: appends the flag unless it is already present. */
    method AddFlag(flag: Flags.Flag) returns (self: FFMPEGBuilder)
      requires Valid()
      modifies this
      ensures Valid()
      ensures globalFlags == if flag in old(globalFlags) then old(globalFlags) else old(globalFlags) + [flag]
      ensures flag in globalFlags
      ensures inFile == old(inFile) && outFile == old(outFile)
      ensures self == this
    {
      if flag !in globalFlags {
        AppendNoDuplicates(globalFlags, flag);
        globalFlags := globalFlags + [flag];
      }
      self := this;
    }

    /** `removeFlag(flag)`: drops the flag, keeping the others in order. */
    method RemoveFlag(flag: Flags.Flag) returns (self: FFMPEGBuilder)
      requires Valid()
      modifies this
      ensures Valid()
      ensures globalFlags == RemoveFirst(old(globalFlags), flag)
      ensures flag !in globalFlags
      ensures forall g :: g != flag ==> (g in globalFlags <==> g in old(globalFlags))
      ensures inFile == old(inFile) && outFile == old(outFile)
      ensures self == this
    {
      RemoveFirstNoDuplicates(globalFlags, flag);
      forall g | g != flag
        ensures g in RemoveFirst(globalFlags, flag) <==> g in globalFlags
      {
        RemoveFirstCount(globalFlags, flag, g);
      }
      globalFlags := RemoveFirst(globalFlags, flag);
      self := this;
    }

    /** `setInFile(inFile)`: changes the input file only. */
    method SetInFile(file: Option<Path>) returns (self: FFMPEGBuilder)
      modifies this
      ensures inFile == file && outFile == old(outFile) && globalFlags == old(globalFlags)
      ensures self == this
    {
      inFile := file;
      self := this;
    }

    /** `setOutFile(outFilePath)`: changes the output file only. */
    method SetOutFile(path: Option<string>) returns (self: FFMPEGBuilder)
      modifies this
      ensures outFile == path && inFile == old(inFile) && globalFlags == old(globalFlags)
      ensures self == this
    {
      outFile := path;
      self := this;
    }
  }

  /** The flag list after a run of `addFlag` calls, each guarded by presence. */
  function AddAll(flags: seq<Flags.Flag>, added: seq<Flags.Flag>): seq<Flags.Flag>
    decreases |added|
  {
    if |added| == 0 then flags
    else AddAll(if added[0] in flags then flags else flags + [added[0]], added[1..])
  }

  /**
   * Adding the same flag twice changes nothing the second time, and any run
   * of additions keeps the list free of duplicates and its first-insertion
   * order.
   */
  lemma {:induction false} AddAllProperties(flags: seq<Flags.Flag>, added: seq<Flags.Flag>)
    requires NoDuplicates(flags)
    ensures NoDuplicates(AddAll(flags, added))
    ensures |AddAll(flags, added)| >= |flags| && AddAll(flags, added)[..|flags|] == flags
    ensures forall g :: g in AddAll(flags, added) <==> g in flags || g in added
    decreases |added|
  {
    if |added| > 0 {
      var next := if added[0] in flags then flags else flags + [added[0]];
      if added[0] !in flags { AppendNoDuplicates(flags, added[0]); }
      AddAllProperties(next, added[1..]);
      assert next[..|flags|] == flags;
      assert AddAll(flags, added)[..|flags|] == AddAll(flags, added)[..|next|][..|flags|];
      forall g ensures g in AddAll(flags, added) <==> g in flags || g in added
      {
        assert g in added <==> g == added[0] || g in added[1..];
      }
    }
  }

  lemma AddTwiceIsAddOnce(flags: seq<Flags.Flag>, f: Flags.Flag)
    ensures AddAll(flags, [f, f]) == AddAll(flags, [f])
  {
    assert [f, f][1..] == [f];
    assert [f, f][1..][1..] == [];
    assert [f][1..] == [];
  }
}
