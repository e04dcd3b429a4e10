/** String helpers shared by the argument-formatting modules. */
module Text {

  import opened Base

  /**
   * What `java.util.StringJoiner(delim)` produces after `add`ing each part in
   * order (no prefix, no suffix): the parts separated by `delim`.
   */
  function Join(parts: seq<string>, delim: string): string
  {
    if |parts| == 0 then ""
    else if |parts| == 1 then parts[0]
    else parts[0] + delim + Join(parts[1..], delim)
  }

  /** Adding one more part to a joiner: the new part goes after a delimiter, unless it is the first. */
  lemma {:induction false} JoinSnoc(parts: seq<string>, x: string, delim: string)
    ensures Join(parts + [x], delim) == if |parts| == 0 then x else Join(parts, delim) + delim + x
    decreases |parts|
  {
    if |parts| == 0 {
      assert parts + [x] == [x];
    } else if |parts| == 1 {
      assert parts + [x] == [parts[0], x];
      assert [parts[0], x][1..] == [x];
    } else {
      assert (parts + [x])[1..] == parts[1..] + [x];
      JoinSnoc(parts[1..], x, delim);
    }
  }

  /** The joiner of the first `j + 1` parts: one more part behind the joiner of the first `j`. */
  lemma JoinPrefixStep(parts: seq<string>, j: nat, delim: string)
    requires j < |parts|
    ensures Join(parts[..j + 1], delim) == if j == 0 then parts[j] else Join(parts[..j], delim) + delim + parts[j]
  {
    var init, x := parts[..j], parts[j];
    assert parts[..j + 1] == init + [x];
    JoinSnoc(init, x, delim);
  }

  /** `delim + a[0] + delim + a[1] + ... + delim + a[n-1]`. */
  function Prefixed(args: seq<string>, delim: string): string
  {
    if |args| == 0 then "" else delim + args[0] + Prefixed(args[1..], delim)
  }

  /** A joined head followed by more parts is the head, then each part behind a delimiter. */
  lemma {:induction false} JoinCons(head: string, args: seq<string>, delim: string)
    ensures Join([head] + args, delim) == head + Prefixed(args, delim)
    decreases |args|
  {
    if |args| == 0 {
      assert [head] + args == [head];
    } else {
      assert ([head] + args)[1..] == args;
      JoinCons(args[0], args[1..], delim);
      assert [args[0]] + args[1..] == args;
    }
  }

  /** Number of occurrences of the character `c` in `s`. */
  function CountChar(s: string, c: char): nat
  {
    if |s| == 0 then 0 else (if s[0] == c then 1 else 0) + CountChar(s[1..], c)
  }

  lemma {:induction false} CountCharAppend(a: string, b: string, c: char)
    ensures CountChar(a + b, c) == CountChar(a, c) + CountChar(b, c)
    decreases |a|
  {
    if |a| == 0 {
      assert a + b == b;
    } else {
      assert (a + b)[1..] == a[1..] + b;
      CountCharAppend(a[1..], b, c);
    }
  }

  lemma {:induction false} CountCharAbsent(s: string, c: char)
    requires c !in s
    ensures CountChar(s, c) == 0
    decreases |s|
  {
    if |s| > 0 {
      assert c !in s[1..] by {
        forall k | 0 <= k < |s[1..]| ensures s[1..][k] != c { assert s[1..][k] == s[k + 1]; }
      }
      CountCharAbsent(s[1..], c);
    }
  }

  /**
   * Joining parts that do not contain `c`, with the one-character delimiter
   * `[c]`, yields exactly one `c` per gap between parts.
   */
  lemma {:induction false} JoinDelimiterCount(parts: seq<string>, c: char)
    requires forall i :: 0 <= i < |parts| ==> c !in parts[i]
    ensures |parts| > 0 ==> CountChar(Join(parts, [c]), c) == |parts| - 1
    ensures |parts| == 0 ==> Join(parts, [c]) == ""
    decreases |parts|
  {
    if |parts| == 1 {
      CountCharAbsent(parts[0], c);
    } else if |parts| > 1 {
      JoinDelimiterCount(parts[1..], c);
      CountCharAbsent(parts[0], c);
      CountCharAppend(parts[0], [c], c);
      CountCharAppend(parts[0] + [c], Join(parts[1..], [c]), c);
    }
  }

  /** `s` begins with `prefix`. */
  predicate StartsWith(s: string, prefix: string)
  {
    |prefix| <= |s| && s[..|prefix|] == prefix
  }

  /** `m` occurs in `s` starting at index `i`. */
  predicate OccursAt(s: string, m: string, i: int)
  {
    0 <= i && i + |m| <= |s| && s[i..i + |m|] == m
  }

  /** The index of the first occurrence of `m` in `s` (`String.indexOf`), if any. */
  function IndexOf(s: string, m: string): (r: Option<nat>)
    ensures r.Some? ==> OccursAt(s, m, r.value)
    ensures r.Some? ==> forall j :: 0 <= j < r.value ==> !OccursAt(s, m, j)
    ensures r.None? ==> forall j :: !OccursAt(s, m, j)
  {
    IndexFrom(s, m, 0)
  }

  /** The first occurrence of `m` in `s` at or after `from`. */
  function IndexFrom(s: string, m: string, from: nat): (r: Option<nat>)
    requires forall j :: 0 <= j < from ==> !OccursAt(s, m, j)
    ensures r.Some? ==> from <= r.value && OccursAt(s, m, r.value)
    ensures r.Some? ==> forall j :: 0 <= j < r.value ==> !OccursAt(s, m, j)
    ensures r.None? ==> forall j :: !OccursAt(s, m, j)
    decreases |s| - from
  {
    if from + |m| > |s| then None
    else if s[from..from + |m|] == m then Some(from)
    else IndexFrom(s, m, from + 1)
  }

  /** `String.valueOf(n)` for a non-negative `int`: its decimal digits. */
  function DecimalString(n: nat): (r: string)
    ensures |r| > 0
    ensures forall i :: 0 <= i < |r| ==> '0' <= r[i] <= '9'
    decreases n
  {
    var digit := ['0' + (n % 10) as char];
    if n < 10 then digit else DecimalString(n / 10) + digit
  }
}
