/** Joining an option identifier with its values (`ffmpeg.options.CompileUtils`). */
module CompileUtils {

  import opened Base
  import opened Text

  /** The delimiter `compileWithValues` uses: a single space. */
  const DEFAULT_ARG_DELIMITER: string := " "

  /**
   * `compileWithValuesDelimitedBy(identifier, delimiter, args)`: a null
   * identifier, delimiter or argument array is rejected with a
   * `NullPointerException`; otherwise the identifier and then every argument
   * are joined with the delimiter.
   */
  function CompileWithValuesDelimitedBy(identifier: Option<string>, delimiter: Option<string>,
                                        args: Option<seq<string>>): (r: Result<string>)
    ensures r.Throw? <==> identifier.None? || delimiter.None? || args.None?
    ensures r.Throw? ==> r.ex == NullPointer
    ensures r.Ok? ==> r.value == identifier.value + Prefixed(args.value, delimiter.value)
    ensures r.Ok? ==> StartsWith(r.value, identifier.value)
    ensures r.Ok? && args.value == [] ==> r.value == identifier.value
  {
    if identifier.None? || delimiter.None? || args.None? then Throw(NullPointer)
    else
      JoinCons(identifier.value, args.value, delimiter.value);
      Ok(Join([identifier.value] + args.value, delimiter.value))
  }

  /** `compileWithValues(identifier, args)`: the form delimited by a single space. */
  function CompileWithValues(identifier: Option<string>, args: Option<seq<string>>): (r: Result<string>)
    ensures r == CompileWithValuesDelimitedBy(identifier, Some(DEFAULT_ARG_DELIMITER), args)
    ensures r.Throw? <==> identifier.None? || args.None?
    ensures r.Ok? ==> r.value == identifier.value + Prefixed(args.value, " ")
  {
    CompileWithValuesDelimitedBy(identifier, Some(DEFAULT_ARG_DELIMITER), args)
  }

  /** One explicit value: `identifier + " " + value`. */
  lemma CompileWithOneValue(identifier: string, value: string)
    ensures CompileWithValues(Some(identifier), Some([value])) == Ok(identifier + " " + value)
  {
    assert [value][1..] == [];
    assert Prefixed([value], " ") == " " + value;
    var r := CompileWithValues(Some(identifier), Some([value]));
    assert r.value == identifier + (" " + value);
    assert identifier + (" " + value) == identifier + " " + value;
  }
}
