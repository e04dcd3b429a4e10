/**
 * `ffmpeg.message.ProgressMessage`: the seven fields of an ffmpeg progress
 * line, parsed by a full match of `PROGRESS_REGEX`.
 *
 * The pattern is `(?m)^frame=(.*?)fps=(.*?)q=(.*?)size=(.*?)time=(.*?)bitrate=(.*?)speed=(.*?)$`.
 * `.` matches anything except a line terminator and no marker holds one, so
 * a full match needs a text free of line terminators and is otherwise any
 * split of the text at the seven markers in order; the reluctant groups make
 * each of the first six fields end at the first occurrence of the next
 * marker. The ghost predicate `MatchesProgressRegex` states the pattern's
 * language directly, and `ParseMatchesRegex` proves the string-splitting
 * parser accepts exactly it.
 */
module Progress {

  import opened Base
  import opened Text

  /** The characters `.` does not match outside `DOTALL` and `UNIX_LINES` mode. */
  predicate IsLineTerminator(c: char)
  {
    c == '\n' || c == '\r' || c == '\U{85}' || c == '\U{2028}' || c == '\U{2029}'
  }

  predicate NoLineTerminator(s: string)
  {
    forall i :: 0 <= i < |s| ==> !IsLineTerminator(s[i])
  }

  /** `s` contains `m` somewhere. */
  ghost predicate Contains(s: string, m: string)
  {
    exists j :: OccursAt(s, m, j)
  }

  const FIRST_MARKER: string := "frame="
  /** The markers that end groups 1 to 6, in order; group 7 runs to the end. */
  const FIELD_MARKERS: seq<string> := ["fps=", "q=", "size=", "time=", "bitrate=", "speed="]

  predicate MarkersOk(ms: seq<string>)
  {
    forall k :: 0 <= k < |ms| ==> |ms[k]| > 0 && NoLineTerminator(ms[k])
  }

  /**
   * The splits `(.*?)m1(.*?)m2 ... mk(.*?)` allows: `t` holds an occurrence
   * of each marker in turn, each after the end of the previous one.
   */
  ghost predicate Lang(ms: seq<string>, t: string)
    decreases |ms|
  {
    if |ms| == 0 then true
    else exists i :: OccursAt(t, ms[0], i) && Lang(ms[1..], t[i + |ms[0]|..])
  }

  /** A full match of `PROGRESS_REGEX` (the `Matcher.matches()` the constructor uses). */
  ghost predicate MatchesProgressRegex(s: string)
  {
    NoLineTerminator(s) && StartsWith(s, FIRST_MARKER) && Lang(FIELD_MARKERS, s[|FIRST_MARKER|..])
  }

  /** The fields separated by the markers: `fs[0] + ms[0] + fs[1] + ... + fs[|ms|]`. */
  function Interleave(fs: seq<string>, ms: seq<string>): string
    requires |fs| == |ms| + 1
    decreases |ms|
  {
    if |ms| == 0 then fs[0] else fs[0] + (ms[0] + Interleave(fs[1..], ms[1..]))
  }

  /**
   * Each field but the last is as short as it can be: its marker does not
   * occur before the end of the field.
   */
  predicate Shortest(fs: seq<string>, ms: seq<string>)
    requires |fs| == |ms| + 1
  {
    forall k :: 0 <= k < |ms| ==> IndexOf(fs[k] + ms[k], ms[k]) == Some(|fs[k]|)
  }

  /**
   * The reluctant captures: each field up to the first occurrence of its
   * marker, the last field the remainder; `None` when a marker is missing.
   */
  function Fields(ms: seq<string>, t: string): (r: Option<seq<string>>)
    ensures r.Some? ==> |r.value| == |ms| + 1
    decreases |ms|
  {
    if |ms| == 0 then Some([t])
    else
      match IndexOf(t, ms[0])
      case None => None
      case Some(i) =>
        match Fields(ms[1..], t[i + |ms[0]|..])
        case None => None
        case Some(rest) => Some([t[..i]] + rest)
  }

  // ---- occurrences in concatenations

  lemma OccursPrefix(a: string, b: string, m: string, j: int)
    requires 0 <= j && j + |m| <= |a|
    ensures OccursAt(a + b, m, j) <==> OccursAt(a, m, j)
  {
    assert (a + b)[j..j + |m|] == a[j..j + |m|];
  }

  lemma OccursShift(a: string, b: string, m: string, j: int)
    requires OccursAt(b, m, j)
    ensures OccursAt(a + b, m, |a| + j)
  {
    assert (a + b)[|a| + j..|a| + j + |m|] == b[j..j + |m|];
  }

  /** Text after an occurrence of `m` does not change where `m` first occurs. */
  lemma IndexOfPrefix(a: string, b: string, m: string, k: int)
    requires OccursAt(a, m, k)
    ensures IndexOf(a + b, m) == IndexOf(a, m)
  {
    var y := IndexOf(a, m);
    assert y.Some? && y.value <= k;
    OccursPrefix(a, b, m, y.value);
    var x := IndexOf(a + b, m);
    assert x.Some? && x.value <= y.value;
    OccursPrefix(a, b, m, x.value);
  }

  lemma MarkerAt(g: string, m: string)
    ensures OccursAt(g + m, m, |g|)
  {
    assert (g + m)[|g|..|g| + |m|] == m;
  }

  /** A text splits around an occurrence of `m`. */
  lemma SplitAt(t: string, m: string, i: int)
    requires OccursAt(t, m, i)
    ensures t == t[..i] + m + t[i + |m|..]
  {
    assert t[i..i + |m|] == m;
    assert t == t[..i] + t[i..i + |m|] + t[i + |m|..];
  }

  // ---- the splitter against the interleaving

  /** A successful split with a marker left: the prefix up to it, then the split of the rest. */
  lemma FieldsCons(ms: seq<string>, t: string)
    requires |ms| > 0 && Fields(ms, t).Some?
    ensures var i := IndexOf(t, ms[0]);
            i.Some? && Fields(ms[1..], t[i.value + |ms[0]|..]).Some?
            && Fields(ms, t).value == [t[..i.value]] + Fields(ms[1..], t[i.value + |ms[0]|..]).value
  {
  }

  /** A shortest first field in front of shortest fields keeps them all shortest. */
  lemma ShortestCons(g: string, m: string, fs: seq<string>, ms: seq<string>)
    requires |fs| == |ms| + 1 && IndexOf(g + m, m) == Some(|g|) && Shortest(fs, ms)
    ensures Shortest([g] + fs, [m] + ms)
  {
    var gs, ns := [g] + fs, [m] + ms;
    forall k | 0 <= k < |ns| ensures IndexOf(gs[k] + ns[k], ns[k]) == Some(|gs[k]|)
    {
      if k > 0 { assert gs[k] == fs[k - 1] && ns[k] == ms[k - 1]; }
    }
  }

  lemma {:induction false} FieldsSound(ms: seq<string>, t: string)
    requires Fields(ms, t).Some?
    ensures Interleave(Fields(ms, t).value, ms) == t
    ensures Shortest(Fields(ms, t).value, ms)
    decreases |ms|
  {
    if |ms| > 0 {
      var m := ms[0];
      FieldsCons(ms, t);
      var i := IndexOf(t, m).value;
      var g, rest := t[..i], t[i + |m|..];
      var fs' := Fields(ms[1..], rest).value;
      FieldsSound(ms[1..], rest);
      SplitAt(t, m, i);
      MarkerAt(g, m);
      IndexOfPrefix(g + m, rest, m, |g|);
      assert t == (g + m) + rest;
      ShortestCons(g, m, fs', ms[1..]);
      assert [m] + ms[1..] == ms;
      var fs := [g] + fs';
      assert fs[0] == g && fs[1..] == fs';
    }
  }

  lemma {:induction false} FieldsComplete(ms: seq<string>, fs: seq<string>)
    requires |fs| == |ms| + 1 && Shortest(fs, ms)
    ensures Fields(ms, Interleave(fs, ms)) == Some(fs)
    decreases |ms|
  {
    if |ms| > 0 {
      var m, g := ms[0], fs[0];
      var rest := Interleave(fs[1..], ms[1..]);
      var t := Interleave(fs, ms);
      assert t == (g + m) + rest;
      MarkerAt(g, m);
      IndexOfPrefix(g + m, rest, m, |g|);
      assert IndexOf(t, m) == Some(|g|);
      assert t[|g| + |m|..] == rest;
      assert t[..|g|] == g;
      ShortestTail(fs, ms);
      FieldsComplete(ms[1..], fs[1..]);
      assert Fields(ms, t) == Some([g] + fs[1..]);
      assert [g] + fs[1..] == fs;
    } else {
      assert fs == [fs[0]];
    }
  }

  lemma ShortestTail(fs: seq<string>, ms: seq<string>)
    requires |fs| == |ms| + 1 && |ms| > 0 && Shortest(fs, ms)
    ensures Shortest(fs[1..], ms[1..])
  {
    forall k | 0 <= k < |ms[1..]|
      ensures IndexOf(fs[1..][k] + ms[1..][k], ms[1..][k]) == Some(|fs[1..][k]|)
    {
      assert fs[1..][k] == fs[k + 1] && ms[1..][k] == ms[k + 1];
    }
  }

  /** The splitter's result is exactly the shortest interleaving that gives back `t`. */
  lemma FieldsCharacterized(ms: seq<string>, t: string, fs: seq<string>)
    ensures Fields(ms, t) == Some(fs)
            <==> |fs| == |ms| + 1 && Interleave(fs, ms) == t && Shortest(fs, ms)
  {
    if Fields(ms, t) == Some(fs) {
      FieldsSound(ms, t);
    }
    if |fs| == |ms| + 1 && Interleave(fs, ms) == t && Shortest(fs, ms) {
      FieldsComplete(ms, fs);
    }
  }

  // ---- the splitter against the regex language

  lemma NoLineTerminatorConcat(a: string, b: string)
    ensures NoLineTerminator(a + b) <==> NoLineTerminator(a) && NoLineTerminator(b)
  {
    if NoLineTerminator(a + b) {
      assert forall k :: 0 <= k < |b| ==> b[k] == (a + b)[|a| + k];
      assert forall k :: 0 <= k < |a| ==> a[k] == (a + b)[k];
    }
  }

  /** Free text before a match of `Lang` still matches: the leading `(.*?)` absorbs it. */
  lemma LangPrepend(ms: seq<string>, u: string, t: string)
    requires Lang(ms, t)
    ensures Lang(ms, u + t)
  {
    if |ms| > 0 {
      var m := ms[0];
      var i :| OccursAt(t, m, i) && Lang(ms[1..], t[i + |m|..]);
      OccursShift(u, t, m, i);
      assert (u + t)[|u| + i + |m|..] == t[i + |m|..];
    }
  }

  /** A split of a later suffix of `t` is a split of an earlier one too. */
  lemma LangFromEarlier(ms: seq<string>, t: string, a: int, b: int)
    requires 0 <= a <= b <= |t| && Lang(ms, t[b..])
    ensures Lang(ms, t[a..])
  {
    LangPrepend(ms, t[a..b], t[b..]);
    assert t[a..b] + t[b..] == t[a..];
  }

  /** One split step establishes `Lang`. */
  lemma LangStep(ms: seq<string>, t: string, i: int)
    requires |ms| > 0 && OccursAt(t, ms[0], i) && Lang(ms[1..], t[i + |ms[0]|..])
    ensures Lang(ms, t)
  {
  }

  /** The splitter succeeds once the first marker is found and the rest splits. */
  lemma FieldsStep(ms: seq<string>, t: string, i: nat)
    requires |ms| > 0 && IndexOf(t, ms[0]) == Some(i)
    requires Fields(ms[1..], t[i + |ms[0]|..]).Some?
    ensures Fields(ms, t).Some?
  {
  }

  lemma {:induction false} FieldsToLang(ms: seq<string>, t: string)
    requires Fields(ms, t).Some?
    ensures Lang(ms, t)
    decreases |ms|
  {
    if |ms| > 0 {
      var i := IndexOf(t, ms[0]).value;
      FieldsToLang(ms[1..], t[i + |ms[0]|..]);
      LangStep(ms, t, i);
    }
  }

  /**
   * If any split exists, the one at the first occurrence of the marker
   * exists too: the later groups absorb the text in between.
   */
  lemma {:induction false} LangToFields(ms: seq<string>, t: string)
    requires Lang(ms, t)
    ensures Fields(ms, t).Some?
    decreases |ms|
  {
    if |ms| > 0 {
      var i :| OccursAt(t, ms[0], i) && Lang(ms[1..], t[i + |ms[0]|..]);
      var i0 := IndexOf(t, ms[0]).value;
      LangFromEarlier(ms[1..], t, i0 + |ms[0]|, i + |ms[0]|);
      LangToFields(ms[1..], t[i0 + |ms[0]|..]);
      FieldsStep(ms, t, i0);
    }
  }

  /** The splitter succeeds exactly on the splits the pattern allows. */
  lemma FieldsLang(ms: seq<string>, t: string)
    ensures Fields(ms, t).Some? <==> Lang(ms, t)
  {
    if Fields(ms, t).Some? { FieldsToLang(ms, t); }
    if Lang(ms, t) { LangToFields(ms, t); }
  }

  // ---- the message

  /** The seven captured groups, as the getters return them. */
  datatype ProgressMessage = ProgressMessage(
    frame: string, fps: string, qVal: string, size: string,
    time: string, bitrate: string, speed: string)

  function FieldList(p: ProgressMessage): (r: seq<string>)
    ensures |r| == |FIELD_MARKERS| + 1
  {
    [p.frame, p.fps, p.qVal, p.size, p.time, p.bitrate, p.speed]
  }

  /** The markers with the seven values between and after them. */
  function Render(p: ProgressMessage): string
  {
    "frame=" + (p.frame + ("fps=" + (p.fps + ("q=" + (p.qVal + ("size=" + (p.size
      + ("time=" + (p.time + ("bitrate=" + (p.bitrate + ("speed=" + p.speed))))))))))))
  }

  /**
   * The parsing constructor on a non-null string: the groups of a full match
   * of `PROGRESS_REGEX`, or `MalformedParametersException`.
   */
  function Parse(raw: string): (r: Result<ProgressMessage>)
    ensures r.Throw? ==> r.ex == MalformedParameters
  {
    if StartsWith(raw, FIRST_MARKER) && NoLineTerminator(raw) then
      match Fields(FIELD_MARKERS, raw[|FIRST_MARKER|..])
      case Some(fs) => Ok(ProgressMessage(fs[0], fs[1], fs[2], fs[3], fs[4], fs[5], fs[6]))
      case None => Throw(MalformedParameters)
    else
      Throw(MalformedParameters)
  }

  /** `new ProgressMessage(raw)`: a null string is rejected before any matching. */
  function New(raw: Option<string>): (r: Result<ProgressMessage>)
    ensures raw.None? ==> r == Throw(NullPointer)
    ensures raw.Some? ==> r == Parse(raw.value)
  {
    if raw.None? then Throw(NullPointer) else Parse(raw.value)
  }

  lemma MarkersAreOk()
    ensures MarkersOk(FIELD_MARKERS)
    ensures NoLineTerminator(FIRST_MARKER)
  {
  }

  lemma InterleaveCons(g: string, fs: seq<string>, m: string, ms: seq<string>)
    requires |fs| == |ms| + 1
    ensures Interleave([g] + fs, [m] + ms) == g + m + Interleave(fs, ms)
  {
    assert ([g] + fs)[1..] == fs && ([m] + ms)[1..] == ms;
  }

  lemma RenderInterleaves(p: ProgressMessage)
    ensures Render(p) == FIRST_MARKER + Interleave(FieldList(p), FIELD_MARKERS)
  {
    var fs, ms := FieldList(p), FIELD_MARKERS;
    assert fs[1..] == [p.fps, p.qVal, p.size, p.time, p.bitrate, p.speed];
    assert fs[2..] == [p.qVal, p.size, p.time, p.bitrate, p.speed];
    assert fs[3..] == [p.size, p.time, p.bitrate, p.speed];
    assert fs[4..] == [p.time, p.bitrate, p.speed];
    assert fs[5..] == [p.bitrate, p.speed];
    assert fs[6..] == [p.speed];
    assert ms[1..] == ["q=", "size=", "time=", "bitrate=", "speed="];
    assert ms[2..] == ["size=", "time=", "bitrate=", "speed="];
    assert ms[3..] == ["time=", "bitrate=", "speed="];
    assert ms[4..] == ["bitrate=", "speed="];
    assert ms[5..] == ["speed="];
    assert ms[6..] == [];
  }

  /** Construction succeeds exactly on the strings `PROGRESS_REGEX` fully matches. */
  lemma ParseMatchesRegex(raw: string)
    ensures Parse(raw).Ok? <==> MatchesProgressRegex(raw)
  {
    MarkersAreOk();
    if StartsWith(raw, FIRST_MARKER) {
      var t := raw[|FIRST_MARKER|..];
      assert raw == FIRST_MARKER + t;
      FieldsLang(FIELD_MARKERS, t);
    }
  }

  /**
   * The constructor on a possibly null string: it succeeds exactly on a
   * non-null string that `PROGRESS_REGEX` fully matches, and the message it
   * builds renders back to that string.
   */
  lemma NewMatchesRegex(raw: Option<string>)
    ensures New(raw).Ok? <==> raw.Some? && MatchesProgressRegex(raw.value)
    ensures New(raw).Ok? ==> Render(New(raw).value) == raw.value
  {
    if raw.Some? {
      ParseMatchesRegex(raw.value);
      if Parse(raw.value).Ok? {
        ParseRoundTrip(raw.value);
      }
    }
  }

  /** Re-concatenating the markers with the seven values reproduces the input exactly. */
  lemma ParseRoundTrip(raw: string)
    requires Parse(raw).Ok?
    ensures Render(Parse(raw).value) == raw
  {
    ParseFields(raw);
    RenderInterleaves(Parse(raw).value);
  }

  lemma SevenDisplay(fs: seq<string>)
    requires |fs| == 7
    ensures fs == [fs[0], fs[1], fs[2], fs[3], fs[4], fs[5], fs[6]]
  {
  }

  /** A successful parse: the first marker, then the seven captures of the rest. */
  lemma ParseUnfold(raw: string)
    requires Parse(raw).Ok?
    ensures |FIRST_MARKER| <= |raw| && raw == FIRST_MARKER + raw[|FIRST_MARKER|..]
    ensures Fields(FIELD_MARKERS, raw[|FIRST_MARKER|..]).Some?
    ensures FieldList(Parse(raw).value) == Fields(FIELD_MARKERS, raw[|FIRST_MARKER|..]).value
  {
    var fs := Fields(FIELD_MARKERS, raw[|FIRST_MARKER|..]).value;
    assert Parse(raw).value == ProgressMessage(fs[0], fs[1], fs[2], fs[3], fs[4], fs[5], fs[6]);
    SevenDisplay(fs);
    assert raw[..|FIRST_MARKER|] == FIRST_MARKER;
    assert raw == raw[..|FIRST_MARKER|] + raw[|FIRST_MARKER|..];
  }

  /** What a successful parse knows about its seven values. */
  lemma ParseFields(raw: string)
    requires Parse(raw).Ok?
    ensures raw == FIRST_MARKER + Interleave(FieldList(Parse(raw).value), FIELD_MARKERS)
    ensures Shortest(FieldList(Parse(raw).value), FIELD_MARKERS)
  {
    ParseUnfold(raw);
    FieldsSound(FIELD_MARKERS, raw[|FIRST_MARKER|..]);
  }

  /**
   * Any seven values are accepted, whitespace included, as long as they hold
   * no line terminator and none of the first six holds its following marker
   * (not even overlapping the marker itself): they come back unchanged.
   */
  lemma RenderParses(p: ProgressMessage)
    requires forall k :: 0 <= k < 7 ==> NoLineTerminator(FieldList(p)[k])
    requires Shortest(FieldList(p), FIELD_MARKERS)
    ensures Parse(Render(p)) == Ok(p)
  {
    var fs, ms := FieldList(p), FIELD_MARKERS;
    RenderInterleaves(p);
    FieldsComplete(ms, fs);
    var raw := Render(p);
    var t := Interleave(fs, ms);
    assert raw[|FIRST_MARKER|..] == t;
    assert raw[..|FIRST_MARKER|] == FIRST_MARKER;
    RenderNoLineTerminator(p);
  }

  /** An interleaving is free of line terminators exactly when its fields are. */
  lemma {:induction false} InterleaveNoLineTerminator(fs: seq<string>, ms: seq<string>)
    requires |fs| == |ms| + 1 && MarkersOk(ms)
    ensures NoLineTerminator(Interleave(fs, ms)) <==> forall k :: 0 <= k < |fs| ==> NoLineTerminator(fs[k])
    decreases |ms|
  {
    if |ms| > 0 {
      assert forall k :: 0 <= k < |ms[1..]| ==> ms[1..][k] == ms[k + 1];
      InterleaveNoLineTerminator(fs[1..], ms[1..]);
      NoLineTerminatorConcat(ms[0], Interleave(fs[1..], ms[1..]));
      NoLineTerminatorConcat(fs[0], ms[0] + Interleave(fs[1..], ms[1..]));
      assert (forall k :: 0 <= k < |fs| ==> NoLineTerminator(fs[k]))
         <==> NoLineTerminator(fs[0]) && forall k :: 0 <= k < |fs[1..]| ==> NoLineTerminator(fs[1..][k]) by {
        assert forall k :: 0 <= k < |fs[1..]| ==> fs[1..][k] == fs[k + 1];
      }
    } else {
      assert Interleave(fs, ms) == fs[0];
    }
  }

  /** A rendered message holds no line terminator exactly when none of its seven values does. */
  lemma RenderNoLineTerminator(p: ProgressMessage)
    ensures NoLineTerminator(Render(p)) <==> forall k :: 0 <= k < 7 ==> NoLineTerminator(FieldList(p)[k])
  {
    MarkersAreOk();
    RenderInterleaves(p);
    InterleaveNoLineTerminator(FieldList(p), FIELD_MARKERS);
    NoLineTerminatorConcat(FIRST_MARKER, Interleave(FieldList(p), FIELD_MARKERS));
  }

  lemma NoEarlierMarker(g: string, m: string)
    requires |m| > 0 && IndexOf(g + m, m) == Some(|g|)
    ensures !Contains(g, m)
  {
    if Contains(g, m) {
      var j :| OccursAt(g, m, j);
      OccursPrefix(g, m, m, j);
    }
  }

  /**
   * Each of the first six values is the shortest admissible one: it never
   * contains the marker that follows it (`frame` never holds `fps=`, ...).
   */
  lemma ParseShortest(raw: string)
    requires Parse(raw).Ok?
    ensures var p := Parse(raw).value;
            !Contains(p.frame, "fps=") && !Contains(p.fps, "q=") && !Contains(p.qVal, "size=")
            && !Contains(p.size, "time=") && !Contains(p.time, "bitrate=")
            && !Contains(p.bitrate, "speed=")
  {
    ParseFields(raw);
    ShortestValues(Parse(raw).value);
  }

  lemma ShortestValues(p: ProgressMessage)
    requires Shortest(FieldList(p), FIELD_MARKERS)
    ensures !Contains(p.frame, "fps=") && !Contains(p.fps, "q=") && !Contains(p.qVal, "size=")
            && !Contains(p.size, "time=") && !Contains(p.time, "bitrate=")
            && !Contains(p.bitrate, "speed=")
  {
    var fs, ms := FieldList(p), FIELD_MARKERS;
    assert IndexOf(fs[0] + ms[0], ms[0]) == Some(|fs[0]|);
    NoEarlierMarker(p.frame, "fps=");
    assert IndexOf(fs[1] + ms[1], ms[1]) == Some(|fs[1]|);
    NoEarlierMarker(p.fps, "q=");
    assert IndexOf(fs[2] + ms[2], ms[2]) == Some(|fs[2]|);
    NoEarlierMarker(p.qVal, "size=");
    assert IndexOf(fs[3] + ms[3], ms[3]) == Some(|fs[3]|);
    NoEarlierMarker(p.size, "time=");
    assert IndexOf(fs[4] + ms[4], ms[4]) == Some(|fs[4]|);
    NoEarlierMarker(p.time, "bitrate=");
    assert IndexOf(fs[5] + ms[5], ms[5]) == Some(|fs[5]|);
    NoEarlierMarker(p.bitrate, "speed=");
  }

  /** A line missing any of the seven markers is rejected. */
  lemma MissingMarkerFails(raw: string)
    requires !Contains(raw, FIRST_MARKER) || exists k :: 0 <= k < 6 && !Contains(raw, FIELD_MARKERS[k])
    ensures Parse(raw) == Throw(MalformedParameters)
  {
    if Parse(raw).Ok? {
      var p := Parse(raw).value;
      ParseRoundTrip(raw);
      RenderInterleaves(p);
      assert OccursAt(raw, FIRST_MARKER, 0);
      forall k | 0 <= k < 6 ensures Contains(raw, FIELD_MARKERS[k])
      {
        InterleaveContains(FieldList(p), FIELD_MARKERS, k);
        var j :| OccursAt(Interleave(FieldList(p), FIELD_MARKERS), FIELD_MARKERS[k], j);
        OccursShift(FIRST_MARKER, Interleave(FieldList(p), FIELD_MARKERS), FIELD_MARKERS[k], j);
      }
    }
  }

  lemma {:induction false} InterleaveContains(fs: seq<string>, ms: seq<string>, k: nat)
    requires |fs| == |ms| + 1 && k < |ms|
    ensures Contains(Interleave(fs, ms), ms[k])
    decreases |ms|
  {
    var rest := Interleave(fs[1..], ms[1..]);
    if k == 0 {
      assert OccursAt(ms[0], ms[0], 0);
      OccursPrefix(ms[0], rest, ms[0], 0);
      OccursShift(fs[0], ms[0] + rest, ms[0], 0);
    } else {
      InterleaveContains(fs[1..], ms[1..], k - 1);
      var j :| OccursAt(rest, ms[1..][k - 1], j);
      OccursShift(ms[0], rest, ms[k], j);
      OccursShift(fs[0], ms[0] + rest, ms[k], |ms[0]| + j);
    }
  }
}
