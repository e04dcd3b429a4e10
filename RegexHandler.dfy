/**
 * `process.builder.event.handler.RegexHandler`: two rule tables from a
 * pattern to a callback, one for console lines and one for error lines, and
 * a callback for the end of the process.
 *
 * A `java.util.regex.Pattern` keeps `Object`'s identity `equals` and
 * `hashCode`, so a rule table is keyed by pattern objects and the order in
 * which `HashMap.keySet()` yields them is not specified: each table carries
 * a sequence of its keys, in which dispatch visits them, and a key added to
 * a table may land anywhere in it. Callbacks are kept as `Consumer` values
 * and each call of `accept` is recorded, in order, in `invoked`.
 */
module RegexHandlers {

  import opened Base
  import opened Lists
  import opened Events
  import Progress

  /** What a pattern matches: the progress pattern, `.*`, or any other regex. */
  datatype Regex = ProgressRegex | AnyLine | Other(source: string)

  /** A compiled `java.util.regex.Pattern`; equality is identity. */
  class Pattern {
    const regex: Regex

    constructor (regex: Regex)
      ensures this.regex == regex
    {
      this.regex := regex;
    }
  }

  /** Full matching (`Matcher.matches()`) of a regex given by its source text. */
  type Engine = (string, string) -> bool

  /**
   * `Pattern.matcher(text).matches()`. The progress pattern matches exactly
   * what `ProgressMessage` parses (`Progress.ParseMatchesRegex`), `.*`
   * matches exactly the texts without a line terminator, and any other regex
   * is left to the engine.
   */
  predicate FullMatch(r: Regex, text: string, engine: Engine)
  {
    match r
    case ProgressRegex => Progress.Parse(text).Ok?
    case AnyLine => Progress.NoLineTerminator(text)
    case Other(source) => engine(source, text)
  }

  /**
   * A `java.util.function.Consumer`: a lambda of the caller's, or a method
   * bound to an object (`this::progressHandler`).
   */
  datatype Consumer = Lambda(id: nat) | Method(owner: object, name: string)

  /** One `accept` call a dispatch made. */
  datatype Invocation =
    | MessageCall(consumer: Consumer, message: OutputMessageEvent)
    | ErrorCall(consumer: Consumer, error: OutputErrorEvent)
    | FinishedCall(consumer: Consumer, finished: OutputFinishedEvent)

  // ---- whitespace cleansing

  /** The characters of the regex class `\s`. */
  predicate IsWhitespace(c: char)
  {
    c == ' ' || c == '\t' || c == '\n' || c == '\U{0B}' || c == '\U{0C}' || c == '\r'
  }

  predicate NoWhitespace(s: string)
  {
    forall i :: 0 <= i < |s| ==> !IsWhitespace(s[i])
  }

  /** `msg.replaceAll("\\s", "")`. */
  function StripWhitespace(s: string): (r: string)
    ensures NoWhitespace(r)
    ensures |r| <= |s|
  {
    if |s| == 0 then ""
    else (if IsWhitespace(s[0]) then "" else [s[0]]) + StripWhitespace(s[1..])
  }

  /** `getTargetString(msg)`: the message cleansed when cleansing is on, unchanged otherwise. */
  function TargetString(msg: string, cleanse: bool): (r: string)
    ensures !cleanse ==> r == msg
    ensures cleanse ==> NoWhitespace(r)
  {
    if cleanse then StripWhitespace(msg) else msg
  }

  /** Text without whitespace is left as it is. */
  lemma {:induction false} StripWithoutWhitespace(s: string)
    requires NoWhitespace(s)
    ensures StripWhitespace(s) == s
    decreases |s|
  {
    if |s| > 0 {
      assert NoWhitespace(s[1..]) by {
        forall i | 0 <= i < |s[1..]| ensures !IsWhitespace(s[1..][i]) { assert s[1..][i] == s[i + 1]; }
      }
      StripWithoutWhitespace(s[1..]);
      assert [s[0]] + s[1..] == s;
    }
  }

  /** Cleansing twice is cleansing once. */
  lemma StripIdempotent(s: string)
    ensures StripWhitespace(StripWhitespace(s)) == StripWhitespace(s)
  {
    StripWithoutWhitespace(StripWhitespace(s));
  }

  /** Cleansing works piece by piece. */
  lemma {:induction false} StripConcat(a: string, b: string)
    ensures StripWhitespace(a + b) == StripWhitespace(a) + StripWhitespace(b)
    decreases |a|
  {
    if |a| == 0 {
      assert a + b == b;
    } else {
      var h: string := if IsWhitespace(a[0]) then "" else [a[0]];
      assert (a + b)[0] == a[0] && (a + b)[1..] == a[1..] + b;
      assert StripWhitespace(a + b) == h + StripWhitespace(a[1..] + b);
      StripConcat(a[1..], b);
      assert h + (StripWhitespace(a[1..]) + StripWhitespace(b)) == (h + StripWhitespace(a[1..])) + StripWhitespace(b);
    }
  }

  /** Every character other than whitespace survives cleansing as often as it occurs. */
  lemma {:induction false} StripKeepsOthers(s: string, c: char)
    requires !IsWhitespace(c)
    ensures Count(StripWhitespace(s), c) == Count(s, c)
    decreases |s|
  {
    if |s| > 0 {
      var head: string := if IsWhitespace(s[0]) then "" else [s[0]];
      StripKeepsOthers(s[1..], c);
      CountAppend(head, StripWhitespace(s[1..]), c);
      if !IsWhitespace(s[0]) { assert head[1..] == ""; }
    }
  }

  // ---- dispatch

  /**
   * The keys of a rule table in the order `keySet()` yields them: each key
   * exactly once.
   */
  ghost predicate Enumerates(order: seq<Pattern>, table: map<Pattern, Consumer>)
  {
    NoDuplicates(order) && table.Keys == Elements(order)
  }

  /** The elements of a list, as a set. */
  function Elements(s: seq<Pattern>): set<Pattern>
  {
    if |s| == 0 then {} else {s[0]} + Elements(s[1..])
  }

  lemma {:induction false} ElementsMembers(s: seq<Pattern>, p: Pattern)
    ensures p in Elements(s) <==> p in s
    decreases |s|
  {
    if |s| > 0 {
      ElementsMembers(s[1..], p);
      assert s == [s[0]] + s[1..];
    }
  }

  /**
   * The patterns whose callbacks a dispatch calls, in iteration order: each
   * visited pattern that fully matches the target fires, and under lazy
   * evaluation the first one to fire ends the dispatch.
   */
  function Fired(order: seq<Pattern>, target: string, lazy: bool, engine: Engine): (r: seq<Pattern>)
    decreases |order|
  {
    if |order| == 0 then []
    else if FullMatch(order[0].regex, target, engine) then
      if lazy then [order[0]] else [order[0]] + Fired(order[1..], target, lazy, engine)
    else Fired(order[1..], target, lazy, engine)
  }

  /** Only matching patterns of the table fire. */
  lemma {:induction false} FiredMatch(order: seq<Pattern>, target: string, lazy: bool, engine: Engine)
    ensures forall p :: p in Fired(order, target, lazy, engine) ==> p in order && FullMatch(p.regex, target, engine)
    decreases |order|
  {
    if |order| > 0 {
      FiredMatch(order[1..], target, lazy, engine);
    }
  }

  /** A target no pattern matches fires nothing. */
  lemma {:induction false} NoMatchFiresNothing(order: seq<Pattern>, target: string, lazy: bool, engine: Engine)
    requires forall i :: 0 <= i < |order| ==> !FullMatch(order[i].regex, target, engine)
    ensures Fired(order, target, lazy, engine) == []
    decreases |order|
  {
    if |order| > 0 {
      NoMatchFiresNothing(order[1..], target, true, engine);
      NoMatchFiresNothing(order[1..], target, lazy, engine);
    }
  }

  /** Lazy evaluation fires at most one rule. */
  lemma {:induction false} LazyFiresAtMostOne(order: seq<Pattern>, target: string, engine: Engine)
    ensures |Fired(order, target, true, engine)| <= 1
    decreases |order|
  {
    if |order| > 0 {
      LazyFiresAtMostOne(order[1..], target, engine);
    }
  }

  /** Lazy evaluation fires exactly the first matching pattern in iteration order. */
  lemma {:induction false} LazyFiresFirstMatch(order: seq<Pattern>, target: string, engine: Engine, k: nat)
    requires k < |order| && FullMatch(order[k].regex, target, engine)
    requires forall j :: 0 <= j < k ==> !FullMatch(order[j].regex, target, engine)
    ensures Fired(order, target, true, engine) == [order[k]]
    decreases k
  {
    if k > 0 {
      LazyFiresFirstMatch(order[1..], target, engine, k - 1);
    }
  }

  /**
   * Exhaustive evaluation fires every matching pattern of the table exactly
   * once and no other, in iteration order.
   */
  lemma {:induction false} ExhaustiveFiresEveryMatchOnce(order: seq<Pattern>, target: string, engine: Engine, p: Pattern)
    requires NoDuplicates(order)
    ensures Count(Fired(order, target, false, engine), p)
            == if p in order && FullMatch(p.regex, target, engine) then 1 else 0
    decreases |order|
  {
    if |order| > 0 {
      NoDuplicatesTail(order);
      ExhaustiveFiresEveryMatchOnce(order[1..], target, engine, p);
      var rest := Fired(order[1..], target, false, engine);
      if FullMatch(order[0].regex, target, engine) {
        assert ([order[0]] + rest)[1..] == rest;
      }
      if p == order[0] {
        assert p !in order[1..] by {
          forall j | 0 <= j < |order[1..]| ensures order[1..][j] != p { assert order[1..][j] == order[j + 1]; }
        }
      } else {
        assert p in order <==> p in order[1..] by {
          assert order == [order[0]] + order[1..];
        }
      }
    }
  }

  /** Every fired pattern is a key of the table it was drawn from. */
  lemma FiredInTable(order: seq<Pattern>, table: map<Pattern, Consumer>, target: string, lazy: bool, engine: Engine)
    requires Enumerates(order, table)
    ensures forall i :: 0 <= i < |Fired(order, target, lazy, engine)| ==> Fired(order, target, lazy, engine)[i] in table
  {
    var fired := Fired(order, target, lazy, engine);
    FiredMatch(order, target, lazy, engine);
    forall i | 0 <= i < |fired| ensures fired[i] in table {
      assert fired[i] in fired;
      ElementsMembers(order, fired[i]);
    }
  }

  /**
   * The `accept` calls dispatching `event` over a table makes: one per
   * fired pattern, with that pattern's callback.
   */
  function MessageDispatch(order: seq<Pattern>, table: map<Pattern, Consumer>, lazy: bool, cleanse: bool,
                           engine: Engine, event: OutputMessageEvent): seq<Invocation>
    requires Enumerates(order, table)
  {
    FiredInTable(order, table, TargetString(event.message, cleanse), lazy, engine);
    MessageCalls(Fired(order, TargetString(event.message, cleanse), lazy, engine), table, event)
  }

  /** The same for an error event, matched on its error message. */
  function ErrorDispatch(order: seq<Pattern>, table: map<Pattern, Consumer>, lazy: bool, cleanse: bool,
                         engine: Engine, event: OutputErrorEvent): seq<Invocation>
    requires Enumerates(order, table)
  {
    FiredInTable(order, table, TargetString(event.errorMessage, cleanse), lazy, engine);
    ErrorCalls(Fired(order, TargetString(event.errorMessage, cleanse), lazy, engine), table, event)
  }

  /** The `accept` calls a console dispatch makes for the fired patterns. */
  function MessageCalls(fired: seq<Pattern>, table: map<Pattern, Consumer>, event: OutputMessageEvent): (r: seq<Invocation>)
    requires forall i :: 0 <= i < |fired| ==> fired[i] in table
    ensures |r| == |fired|
    ensures forall i :: 0 <= i < |fired| ==> r[i] == MessageCall(table[fired[i]], event)
  {
    seq(|fired|, i requires 0 <= i < |fired| => MessageCall(table[fired[i]], event))
  }

  /** The `accept` calls an error dispatch makes for the fired patterns. */
  function ErrorCalls(fired: seq<Pattern>, table: map<Pattern, Consumer>, event: OutputErrorEvent): (r: seq<Invocation>)
    requires forall i :: 0 <= i < |fired| ==> fired[i] in table
    ensures |r| == |fired|
    ensures forall i :: 0 <= i < |fired| ==> r[i] == ErrorCall(table[fired[i]], event)
  {
    seq(|fired|, i requires 0 <= i < |fired| => ErrorCall(table[fired[i]], event))
  }

  /**
   * The dispatch loop of `onConsoleMessage` and `onErrorMessage` over one
   * table: visit the keys in iteration order, fire each one that fully
   * matches, and return right after the first under lazy evaluation.
   */
  method Select(order: seq<Pattern>, target: string, lazy: bool, engine: Engine) returns (fired: seq<Pattern>)
    ensures fired == Fired(order, target, lazy, engine)
  {
    fired := [];
    var i := 0;
    while i < |order|
      invariant 0 <= i <= |order|
      invariant Fired(order, target, lazy, engine) == fired + Fired(order[i..], target, lazy, engine)
      invariant lazy ==> fired == []
    {
      assert order[i..][1..] == order[i + 1..];
      if FullMatch(order[i].regex, target, engine) {
        fired := fired + [order[i]];
        if lazy {
          return;
        }
      }
      i := i + 1;
    }
  }

  /** A rule table after `put(p, c)`: the key gets the callback, wherever it lands in the order. */
  method PutRule(order: seq<Pattern>, table: map<Pattern, Consumer>, p: Pattern, c: Consumer)
    returns (order': seq<Pattern>, table': map<Pattern, Consumer>)
    requires Enumerates(order, table)
    ensures table' == table[p := c]
    ensures Enumerates(order', table')
    ensures p in table ==> order' == order
  {
    table' := table[p := c];
    if p in table {
      order' := order;
    } else {
      var k :| 0 <= k <= |order|;
      order' := order[..k] + [p] + order[k..];
      InsertEnumerates(order, table, p, c, k);
    }
  }

  /** Inserting a new key anywhere in the order keeps it an enumeration of the keys. */
  lemma InsertEnumerates(order: seq<Pattern>, table: map<Pattern, Consumer>, p: Pattern, c: Consumer, k: nat)
    requires Enumerates(order, table) && p !in table && k <= |order|
    ensures Enumerates(order[..k] + [p] + order[k..], table[p := c])
  {
    ElementsMembers(order, p);
    InsertNoDuplicates(order, p, k);
    assert order == order[..k] + order[k..];
    ElementsConcat(order[..k], order[k..]);
    ElementsConcat(order[..k] + [p], order[k..]);
    ElementsConcat(order[..k], [p]);
    assert Elements([p]) == {p};
  }

  lemma {:induction false} ElementsConcat(a: seq<Pattern>, b: seq<Pattern>)
    ensures Elements(a + b) == Elements(a) + Elements(b)
    decreases |a|
  {
    if |a| == 0 {
      assert a + b == b;
    } else {
      assert (a + b)[0] == a[0] && (a + b)[1..] == a[1..] + b;
      ElementsConcat(a[1..], b);
    }
  }

  /** A list without duplicates has as many elements as its set. */
  lemma {:induction false} ElementsCardinality(s: seq<Pattern>)
    requires NoDuplicates(s)
    ensures |Elements(s)| == |s|
    decreases |s|
  {
    if |s| > 0 {
      NoDuplicatesTail(s);
      ElementsMembers(s[1..], s[0]);
      ElementsCardinality(s[1..]);
    }
  }

  lemma {:induction false} ElementsRemoveFirst(s: seq<Pattern>, p: Pattern)
    requires NoDuplicates(s)
    ensures Elements(RemoveFirst(s, p)) == Elements(s) - {p}
    decreases |s|
  {
    if |s| > 0 {
      NoDuplicatesTail(s);
      if s[0] == p {
        assert p !in s[1..] by {
          forall j | 0 <= j < |s[1..]| ensures s[1..][j] != p { assert s[1..][j] == s[j + 1]; }
        }
        ElementsMembers(s[1..], p);
      } else {
        ElementsRemoveFirst(s[1..], p);
        ElementsConcat([s[0]], RemoveFirst(s[1..], p));
        assert [s[0]][1..] == [];
      }
    }
  }

  /** Inserting an absent element anywhere keeps a list free of duplicates. */
  lemma InsertNoDuplicates(s: seq<Pattern>, p: Pattern, k: nat)
    requires NoDuplicates(s) && p !in s && k <= |s|
    ensures NoDuplicates(s[..k] + [p] + s[k..])
  {
    var t := s[..k] + [p] + s[k..];
    forall i, j | 0 <= i < j < |t| ensures t[i] != t[j]
    {
      if i < k { assert t[i] == s[i]; }
      if i > k { assert t[i] == s[i - 1]; }
      if j < k { assert t[j] == s[j]; }
      if j > k { assert t[j] == s[j - 1]; }
    }
  }

  /** A rule table after `remove(p)`: the other keys keep their order. */
  method RemoveRule(order: seq<Pattern>, table: map<Pattern, Consumer>, p: Pattern)
    returns (order': seq<Pattern>, table': map<Pattern, Consumer>)
    requires Enumerates(order, table)
    ensures table' == table - {p}
    ensures order' == RemoveFirst(order, p)
    ensures Enumerates(order', table')
  {
    table' := table - {p};
    order' := RemoveFirst(order, p);
    RemoveEnumerates(order, table, p);
  }

  /** Removing a key from the table and from the order keeps one enumerating the other. */
  lemma RemoveEnumerates(order: seq<Pattern>, table: map<Pattern, Consumer>, p: Pattern)
    requires Enumerates(order, table)
    ensures Enumerates(RemoveFirst(order, p), table - {p})
  {
    RemoveFirstNoDuplicates(order, p);
    ElementsRemoveFirst(order, p);
  }

  /** Everything a `RegexHandler` holds besides its record of calls. */
  datatype RuleSet = RuleSet(msgOrder: seq<Pattern>, msgHandlers: map<Pattern, Consumer>,
                             errOrder: seq<Pattern>, errHandlers: map<Pattern, Consumer>,
                             finishedHandler: Option<Consumer>, isLazy: bool, isCleanse: bool)

  class RegexHandler {
    var msgHandlers: map<Pattern, Consumer>
    var msgOrder: seq<Pattern>
    var errHandlers: map<Pattern, Consumer>
    var errOrder: seq<Pattern>
    /** `regFinishedHandler`, which nothing keeps from being null. */
    var finishedHandler: Option<Consumer>
    var isLazy: bool
    var isCleanse: bool
    /** Every `accept` call made so far, in order. */
    var invoked: seq<Invocation>

    ghost predicate Valid()
      reads this
    {
      Enumerates(msgOrder, msgHandlers) && Enumerates(errOrder, errHandlers)
    }

    function Rules(): RuleSet
      reads this
    {
      RuleSet(msgOrder, msgHandlers, errOrder, errHandlers, finishedHandler, isLazy, isCleanse)
    }

    /** Empty tables, lazy evaluation on, cleansing off. */
    constructor (handler: Option<Consumer>)
      ensures Valid()
      ensures msgHandlers == map[] && errHandlers == map[]
      ensures msgOrder == [] && errOrder == []
      ensures finishedHandler == handler
      ensures isLazy && !isCleanse
      ensures invoked == []
    {
      msgHandlers, errHandlers := map[], map[];
      msgOrder, errOrder := [], [];
      finishedHandler := handler;
      isLazy, isCleanse := true, false;
      invoked := [];
    }

    method SetIsLazyEvaluation(lazy: bool)
      modifies this
      ensures isLazy == lazy
      ensures msgHandlers == old(msgHandlers) && msgOrder == old(msgOrder)
      ensures errHandlers == old(errHandlers) && errOrder == old(errOrder)
      ensures finishedHandler == old(finishedHandler) && isCleanse == old(isCleanse)
      ensures invoked == old(invoked)
    {
      isLazy := lazy;
    }

    method SetIsCleanseWhitespace(cleanse: bool)
      modifies this
      ensures isCleanse == cleanse
      ensures msgHandlers == old(msgHandlers) && msgOrder == old(msgOrder)
      ensures errHandlers == old(errHandlers) && errOrder == old(errOrder)
      ensures finishedHandler == old(finishedHandler) && isLazy == old(isLazy)
      ensures invoked == old(invoked)
    {
      isCleanse := cleanse;
    }

    /**
     * `addRegMessageHandler(regex, handl)`: a null argument throws
     * `NullPointerException` and changes nothing; otherwise the message
     * table maps `regex` to `handl` and nothing else changes.
     */
    method AddRegMessageHandler(regex: Option<Pattern>, handl: Option<Consumer>) returns (o: Outcome)
      requires Valid()
      modifies this
      ensures Valid()
      ensures o.Fail? <==> regex.None? || handl.None?
      ensures o.Fail? ==> o.ex == NullPointer && msgHandlers == old(msgHandlers) && msgOrder == old(msgOrder)
      ensures o.Pass? ==> msgHandlers == old(msgHandlers)[regex.value := handl.value]
      ensures o.Pass? && regex.value in old(msgHandlers) ==> msgOrder == old(msgOrder)
      ensures errHandlers == old(errHandlers) && errOrder == old(errOrder)
      ensures finishedHandler == old(finishedHandler)
      ensures isLazy == old(isLazy) && isCleanse == old(isCleanse) && invoked == old(invoked)
    {
      if regex.None? || handl.None? {
        return Fail(NullPointer);
      }
      msgOrder, msgHandlers := PutRule(msgOrder, msgHandlers, regex.value, handl.value);
      return Pass;
    }

    /**
     * `removeRegHandler(regex)`: a null pattern throws; otherwise the key
     * leaves the message table and the rest of the handler is unchanged.
     */
    method RemoveRegHandler(regex: Option<Pattern>) returns (o: Outcome)
      requires Valid()
      modifies this
      ensures Valid()
      ensures o.Fail? <==> regex.None?
      ensures o.Fail? ==> o.ex == NullPointer && msgHandlers == old(msgHandlers) && msgOrder == old(msgOrder)
      ensures o.Pass? ==> msgHandlers == old(msgHandlers) - {regex.value} && msgOrder == RemoveFirst(old(msgOrder), regex.value)
      ensures errHandlers == old(errHandlers) && errOrder == old(errOrder)
      ensures finishedHandler == old(finishedHandler)
      ensures isLazy == old(isLazy) && isCleanse == old(isCleanse) && invoked == old(invoked)
    {
      if regex.None? {
        return Fail(NullPointer);
      }
      msgOrder, msgHandlers := RemoveRule(msgOrder, msgHandlers, regex.value);
      return Pass;
    }

    /** `addRegErrHandler(regex, handl)`: as for messages, on the error table only. */
    method AddRegErrHandler(regex: Option<Pattern>, handl: Option<Consumer>) returns (o: Outcome)
      requires Valid()
      modifies this
      ensures Valid()
      ensures o.Fail? <==> regex.None? || handl.None?
      ensures o.Fail? ==> o.ex == NullPointer && errHandlers == old(errHandlers) && errOrder == old(errOrder)
      ensures o.Pass? ==> errHandlers == old(errHandlers)[regex.value := handl.value]
      ensures o.Pass? && regex.value in old(errHandlers) ==> errOrder == old(errOrder)
      ensures msgHandlers == old(msgHandlers) && msgOrder == old(msgOrder)
      ensures finishedHandler == old(finishedHandler)
      ensures isLazy == old(isLazy) && isCleanse == old(isCleanse) && invoked == old(invoked)
    {
      if regex.None? || handl.None? {
        return Fail(NullPointer);
      }
      errOrder, errHandlers := PutRule(errOrder, errHandlers, regex.value, handl.value);
      return Pass;
    }

    /** `removeErrHandler(regex)`: as for messages, on the error table only. */
    method RemoveErrHandler(regex: Option<Pattern>) returns (o: Outcome)
      requires Valid()
      modifies this
      ensures Valid()
      ensures o.Fail? <==> regex.None?
      ensures o.Fail? ==> o.ex == NullPointer && errHandlers == old(errHandlers) && errOrder == old(errOrder)
      ensures o.Pass? ==> errHandlers == old(errHandlers) - {regex.value} && errOrder == RemoveFirst(old(errOrder), regex.value)
      ensures msgHandlers == old(msgHandlers) && msgOrder == old(msgOrder)
      ensures finishedHandler == old(finishedHandler)
      ensures isLazy == old(isLazy) && isCleanse == old(isCleanse) && invoked == old(invoked)
    {
      if regex.None? {
        return Fail(NullPointer);
      }
      errOrder, errHandlers := RemoveRule(errOrder, errHandlers, regex.value);
      return Pass;
    }

    /** `setRegFinishedHandler(handler)`: replaces the finished callback, null included. */
    method SetRegFinishedHandler(handler: Option<Consumer>)
      modifies this
      ensures finishedHandler == handler
      ensures msgHandlers == old(msgHandlers) && msgOrder == old(msgOrder)
      ensures errHandlers == old(errHandlers) && errOrder == old(errOrder)
      ensures isLazy == old(isLazy) && isCleanse == old(isCleanse) && invoked == old(invoked)
    {
      finishedHandler := handler;
    }

    /**
     * `onConsoleMessage(event)`: the callbacks of the message rules whose
     * pattern fully matches the target string are called in iteration
     * order, only the first one under lazy evaluation; the tables and flags
     * stay as they are.
     */
    method OnConsoleMessage(event: OutputMessageEvent, engine: Engine)
      requires Valid()
      modifies this
      ensures msgHandlers == old(msgHandlers) && msgOrder == old(msgOrder)
      ensures errHandlers == old(errHandlers) && errOrder == old(errOrder)
      ensures finishedHandler == old(finishedHandler)
      ensures isLazy == old(isLazy) && isCleanse == old(isCleanse)
      ensures Valid()
      ensures invoked == old(invoked) + MessageDispatch(msgOrder, msgHandlers, isLazy, isCleanse, engine, event)
    {
      var target := TargetString(event.message, isCleanse);
      var fired := Select(msgOrder, target, isLazy, engine);
      FiredInTable(msgOrder, msgHandlers, target, isLazy, engine);
      invoked := invoked + MessageCalls(fired, msgHandlers, event);
    }

    /**
     * `onErrorMessage(event)`: the same dispatch over the error table, on
     * the event's error message, under the same lazy flag.
     */
    method OnErrorMessage(event: OutputErrorEvent, engine: Engine)
      requires Valid()
      modifies this
      ensures msgHandlers == old(msgHandlers) && msgOrder == old(msgOrder)
      ensures errHandlers == old(errHandlers) && errOrder == old(errOrder)
      ensures finishedHandler == old(finishedHandler)
      ensures isLazy == old(isLazy) && isCleanse == old(isCleanse)
      ensures Valid()
      ensures invoked == old(invoked) + ErrorDispatch(errOrder, errHandlers, isLazy, isCleanse, engine, event)
    {
      var target := TargetString(event.errorMessage, isCleanse);
      var fired := Select(errOrder, target, isLazy, engine);
      FiredInTable(errOrder, errHandlers, target, isLazy, engine);
      invoked := invoked + ErrorCalls(fired, errHandlers, event);
    }

    /**
     * `onProcessFinished(event)`: the finished callback is called once; when
     * it is null the call throws `NullPointerException`.
     */
    method OnProcessFinished(event: OutputFinishedEvent) returns (o: Outcome)
      modifies this
      ensures finishedHandler.None? ==> o == Fail(NullPointer) && invoked == old(invoked)
      ensures finishedHandler.Some? ==> o == Pass && invoked == old(invoked) + [FinishedCall(finishedHandler.value, event)]
      ensures msgHandlers == old(msgHandlers) && msgOrder == old(msgOrder)
      ensures errHandlers == old(errHandlers) && errOrder == old(errOrder)
      ensures finishedHandler == old(finishedHandler)
      ensures isLazy == old(isLazy) && isCleanse == old(isCleanse)
    {
      if finishedHandler.None? {
        return Fail(NullPointer);
      }
      invoked := invoked + [FinishedCall(finishedHandler.value, event)];
      return Pass;
    }
  }
}
