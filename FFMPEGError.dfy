/** The error-message templates of `ffmpeg.error.FFMPEGError`. */
module Errors {

  import opened Base

  datatype FFMPEGError = ErrFlagArgsNotRequired | ErrFlagNumArgsInvalid

  // The literal pieces between the placeholders of the two base messages.
  const LEAD: string := "[FLAG_ERROR] The flag '"
  const SEP: string := "'/'"
  const NOT_REQUIRED_1: string := "' does not require any input"
  const NOT_REQUIRED_2: string := " but was given the input: '"
  const NOT_REQUIRED_END: string := "'"
  const INVALID_1: string := "' could not be compiled expected '"
  const INVALID_2: string := "' number of arguments but was given '"
  const INVALID_END: string := "'."

  const ARGS_NOT_REQUIRED_BASE: string :=
    LEAD + ("%s" + (SEP + ("%s" + (NOT_REQUIRED_1 + (NOT_REQUIRED_2 + ("%s" + NOT_REQUIRED_END))))))

  const NUM_ARGS_INVALID_BASE: string :=
    LEAD + ("%s" + (SEP + ("%s" + (INVALID_1 + ("%s" + (INVALID_2 + ("%s" + INVALID_END)))))))

  /** The base message each constant is declared with. */
  function BaseStr(e: FFMPEGError): string
  {
    match e
    case ErrFlagArgsNotRequired => ARGS_NOT_REQUIRED_BASE
    case ErrFlagNumArgsInvalid => NUM_ARGS_INVALID_BASE
  }

  /** Number of non-overlapping `%s` occurrences, scanning left to right. */
  function PlaceholderCount(s: string): nat
  {
    if |s| < 2 then 0
    else if s[0] == '%' && s[1] == 's' then 1 + PlaceholderCount(s[2..])
    else PlaceholderCount(s[1..])
  }

  /**
   * The enum constructor's counting loop: repeated `Matcher.find()` of the
   * pattern `%s`, each search resuming after the previous match.
   */
  method CountPlaceholders(base: string) returns (count: nat)
    ensures count == PlaceholderCount(base)
  {
    count := 0;
    var i := 0;
    while i + 1 < |base|
      invariant 0 <= i <= |base|
      invariant count + PlaceholderCount(base[i..]) == PlaceholderCount(base)
    {
      if base[i] == '%' && base[i + 1] == 's' {
        assert base[i..][2..] == base[i + 2..];
        count := count + 1;
        i := i + 2;
      } else {
        assert base[i..][1..] == base[i + 1..];
        i := i + 1;
      }
    }
  }

  lemma {:induction false} NoPercentAdds(a: string, b: string)
    requires '%' !in a
    ensures PlaceholderCount(a + b) == PlaceholderCount(b)
    decreases |a|
  {
    if |a| > 0 {
      var s := a + b;
      assert s[0] == a[0] && a[0] in a;
      assert s[1..] == a[1..] + b;
      assert '%' !in a[1..] by {
        forall k | 0 <= k < |a[1..]| ensures a[1..][k] != '%' { assert a[1..][k] == a[k + 1]; }
      }
      NoPercentAdds(a[1..], b);
      if |s| >= 2 {
        assert PlaceholderCount(s) == PlaceholderCount(s[1..]);
      } else {
        assert b == [];
      }
    } else {
      assert a + b == b;
    }
  }

  lemma MarkerAdds(b: string)
    ensures PlaceholderCount("%s" + b) == 1 + PlaceholderCount(b)
  {
    assert ("%s" + b)[2..] == b;
  }

  /**
   * `getNumArgs()`: the placeholder count fixed when the constant is built,
   * three for `ERR_FLAG_ARGS_NOT_REQUIRED` and four for
   * `ERR_FLAG_NUM_ARGS_INVALID`.
   */
  function NumArgs(e: FFMPEGError): (n: nat)
    ensures n == PlaceholderCount(BaseStr(e))
    ensures e == ErrFlagArgsNotRequired ==> n == 3
    ensures e == ErrFlagNumArgsInvalid ==> n == 4
  {
    NotRequiredCount();
    NumArgsInvalidCount();
    PlaceholderCount(BaseStr(e))
  }

  lemma {:induction false} NoPercentNone(a: string)
    requires '%' !in a
    ensures PlaceholderCount(a) == 0
  {
    NoPercentAdds(a, "");
    assert a + "" == a;
  }

  // The literal pieces hold no `%`, one piece at a time.
  lemma NoPercentLead()
    ensures '%' !in LEAD
  {
  }

  lemma NoPercentNotRequired1()
    ensures '%' !in NOT_REQUIRED_1
  {
  }

  lemma NoPercentNotRequired2()
    ensures '%' !in NOT_REQUIRED_2
  {
  }

  lemma NoPercentInvalid1()
    ensures '%' !in INVALID_1
  {
  }

  lemma NoPercentInvalid2()
    ensures '%' !in INVALID_2
  {
  }

  lemma NotRequiredTail()
    ensures PlaceholderCount(NOT_REQUIRED_1 + (NOT_REQUIRED_2 + ("%s" + NOT_REQUIRED_END))) == 1
  {
    NoPercentNone(NOT_REQUIRED_END);
    MarkerAdds(NOT_REQUIRED_END);
    NoPercentNotRequired2();
    NoPercentAdds(NOT_REQUIRED_2, "%s" + NOT_REQUIRED_END);
    NoPercentNotRequired1();
    NoPercentAdds(NOT_REQUIRED_1, NOT_REQUIRED_2 + ("%s" + NOT_REQUIRED_END));
  }

  lemma NotRequiredCount()
    ensures PlaceholderCount(ARGS_NOT_REQUIRED_BASE) == 3
  {
    var x := NOT_REQUIRED_1 + (NOT_REQUIRED_2 + ("%s" + NOT_REQUIRED_END));
    NotRequiredTail();
    MarkerAdds(x);
    NoPercentAdds(SEP, "%s" + x);
    MarkerAdds(SEP + ("%s" + x));
    NoPercentLead();
    NoPercentAdds(LEAD, "%s" + (SEP + ("%s" + x)));
  }

  lemma NumArgsInvalidTail()
    ensures PlaceholderCount(INVALID_1 + ("%s" + (INVALID_2 + ("%s" + INVALID_END)))) == 2
  {
    NoPercentNone(INVALID_END);
    MarkerAdds(INVALID_END);
    NoPercentInvalid2();
    NoPercentAdds(INVALID_2, "%s" + INVALID_END);
    MarkerAdds(INVALID_2 + ("%s" + INVALID_END));
    NoPercentInvalid1();
    NoPercentAdds(INVALID_1, "%s" + (INVALID_2 + ("%s" + INVALID_END)));
  }

  lemma NumArgsInvalidCount()
    ensures PlaceholderCount(NUM_ARGS_INVALID_BASE) == 4
  {
    var x := INVALID_1 + ("%s" + (INVALID_2 + ("%s" + INVALID_END)));
    NumArgsInvalidTail();
    MarkerAdds(x);
    NoPercentAdds(SEP, "%s" + x);
    MarkerAdds(SEP + ("%s" + x));
    NoPercentLead();
    NoPercentAdds(LEAD, "%s" + (SEP + ("%s" + x)));
  }

  /**
   * `compile(args)`: proceeds only when there are MORE arguments than
   * placeholders, and throws `IllegalArgumentException` for every count up to
   * and including the number of placeholders. Past the guard, the first
   * `String.format(base, args[0])` of the loop hands a single argument to a
   * base holding `NumArgs(e)` placeholders, at least three, so the second
   * placeholder finds no argument and `MissingFormatArgumentException` is
   * thrown: no call returns a message.
   */
  function Compile(e: FFMPEGError, args: seq<string>): (r: Result<string>)
    ensures r.Throw? && IsIllegalArgument(r.ex)
    ensures r.ex == IllegalArgument <==> |args| <= NumArgs(e)
    ensures r.ex == MissingFormatArgument <==> |args| > NumArgs(e)
  {
    if |args| > NumArgs(e) then FormatOne(BaseStr(e), args[0]) else Throw(IllegalArgument)
  }

  /**
   * `String.format(template, arg)` on a template with at least two `%s`
   * placeholders: only the first has an argument.
   */
  function FormatOne(template: string, arg: string): Result<string>
    requires PlaceholderCount(template) >= 2
  {
    Throw(MissingFormatArgument)
  }

  /** Handing `compile` exactly the placeholder count of arguments always throws. */
  lemma CompileWithNumArgsThrows(e: FFMPEGError, args: seq<string>)
    requires |args| == NumArgs(e)
    ensures Compile(e, args) == Throw(IllegalArgument)
  {
  }
}
