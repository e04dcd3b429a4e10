/** The `java.util.List` operations the model relies on, over sequences. */
module Lists {

  /** How many times `x` occurs in `s` (`Collections.frequency`). */
  function Count<T(==)>(s: seq<T>, x: T): (n: nat)
    ensures n <= |s|
    ensures n == 0 <==> x !in s
  {
    if |s| == 0 then 0 else (if s[0] == x then 1 else 0) + Count(s[1..], x)
  }

  /** `List.remove(Object)`: drops the first element equal to `x`, if any. */
  function RemoveFirst<T(==)>(s: seq<T>, x: T): (r: seq<T>)
    ensures x !in s ==> r == s
    ensures x in s ==> |r| == |s| - 1
  {
    if |s| == 0 then s
    else if s[0] == x then s[1..]
    else [s[0]] + RemoveFirst(s[1..], x)
  }

  /** Nothing occurs twice. */
  predicate NoDuplicates<T(==)>(s: seq<T>)
  {
    forall i, j :: 0 <= i < j < |s| ==> s[i] != s[j]
  }

  lemma {:induction false} CountAppend<T>(a: seq<T>, b: seq<T>, x: T)
    ensures Count(a + b, x) == Count(a, x) + Count(b, x)
    decreases |a|
  {
    if |a| == 0 {
      assert a + b == b;
    } else {
      assert (a + b)[1..] == a[1..] + b;
      CountAppend(a[1..], b, x);
    }
  }

  /**
   * Removing `x` removes exactly one occurrence of `x` when there is one and
   * leaves the count of every other value alone.
   */
  lemma {:induction false} RemoveFirstCount<T>(s: seq<T>, x: T, y: T)
    ensures Count(RemoveFirst(s, x), y)
            == if x == y && x in s then Count(s, y) - 1 else Count(s, y)
    decreases |s|
  {
    if |s| > 0 && s[0] != x {
      RemoveFirstCount(s[1..], x, y);
      assert x in s <==> x in s[1..];
      CountAppend([s[0]], RemoveFirst(s[1..], x), y);
    }
  }

  /**
   * The elements that stay keep their relative order: the result is the part
   * of `s` before the first `x` followed by the part after it.
   */
  lemma {:induction false} RemoveFirstSplit<T>(s: seq<T>, x: T, i: nat)
    requires i < |s| && s[i] == x && x !in s[..i]
    ensures RemoveFirst(s, x) == s[..i] + s[i + 1..]
    decreases i
  {
    if i > 0 {
      assert s[0] in s[..i];
      assert s[1..][i - 1] == x;
      assert s[1..][..i - 1] == s[..i][1..];
      assert x !in s[1..][..i - 1];
      RemoveFirstSplit(s[1..], x, i - 1);
      assert s[1..][..i - 1] + s[1..][i..] == s[1..i] + s[i + 1..];
      assert [s[0]] + (s[1..i] + s[i + 1..]) == s[..i] + s[i + 1..];
    }
  }

  /** Appending an `x` that is absent and then removing `x` gives back the list. */
  lemma AppendThenRemove<T>(s: seq<T>, x: T)
    requires x !in s
    ensures RemoveFirst(s + [x], x) == s
  {
    assert (s + [x])[..|s|] == s;
    RemoveFirstSplit(s + [x], x, |s|);
    assert (s + [x])[|s| + 1..] == [];
  }

  lemma {:induction false} NoDuplicatesTail<T>(s: seq<T>)
    requires |s| > 0 && NoDuplicates(s)
    ensures NoDuplicates(s[1..]) && s[0] !in s[1..]
  {
    assert forall k :: 0 <= k < |s| - 1 ==> s[1..][k] == s[k + 1];
  }

  /** In a list without duplicates, removing `x` removes every `x`. */
  lemma {:induction false} RemoveFirstNoDuplicates<T>(s: seq<T>, x: T)
    requires NoDuplicates(s)
    ensures x !in RemoveFirst(s, x)
    ensures NoDuplicates(RemoveFirst(s, x))
    decreases |s|
  {
    RemoveFirstCount(s, x, x);
    if x in s {
      assert Count(s, x) == 1 by { CountAtMostOne(s, x); }
    }
    if |s| > 0 && s[0] != x {
      NoDuplicatesTail(s);
      RemoveFirstNoDuplicates(s[1..], x);
      RemoveFirstCount(s[1..], x, s[0]);
      var r := RemoveFirst(s[1..], x);
      assert s[0] !in r;
      var t := [s[0]] + r;
      forall i, j | 0 <= i < j < |t| ensures t[i] != t[j]
      {
        if i == 0 { assert t[j] == r[j - 1]; } else { assert t[i] == r[i - 1] && t[j] == r[j - 1]; }
      }
    } else if |s| > 0 {
      NoDuplicatesTail(s);
    }
  }

  lemma {:induction false} CountAtMostOne<T>(s: seq<T>, x: T)
    requires NoDuplicates(s)
    ensures Count(s, x) <= 1
    decreases |s|
  {
    if |s| > 0 {
      NoDuplicatesTail(s);
      CountAtMostOne(s[1..], x);
    }
  }

  /** Appending an absent element keeps the list free of duplicates. */
  lemma AppendNoDuplicates<T>(s: seq<T>, x: T)
    requires NoDuplicates(s) && x !in s
    ensures NoDuplicates(s + [x])
  {
    var t := s + [x];
    forall i, j | 0 <= i < j < |t| ensures t[i] != t[j]
    {
      if j == |s| { assert t[i] == s[i]; }
    }
  }
}
