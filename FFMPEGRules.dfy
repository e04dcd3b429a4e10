/**
 * What the two rules an `FFMPEGHandler` is constructed with do to one
 * console line: the shared `PROGRESS_REGEX` pattern bound to
 * `progressHandler`, and `.*` bound to `msgHandler`, matched against the
 * whitespace-cleansed line without lazy evaluation.
 */
module FFMPEGRules {

  import opened Base
  import opened Lists
  import opened Events
  import opened EventGroups
  import opened FFMPEGEvents
  import opened RegexHandlers
  import opened FFMPEGHandlers
  import opened Text
  import Progress

  /** A configuration holding exactly the constructor's two message rules. */
  ghost predicate DefaultRules(cfg: Config, p: Pattern, a: Pattern)
  {
    p.regex == ProgressRegex && a.regex == AnyLine && p != a
    && cfg.msgHandlers == map[p := ProgressConsumer(cfg.context), a := MessageConsumer(cfg.context)]
    && Enumerates(cfg.msgOrder, cfg.msgHandlers)
    && cfg.cleanse && !cfg.lazy
  }

  /** Every progress listener, in order, handed a `ProgressEvent` carrying `m`. */
  function ProgressEvents(ctx: Context, m: Progress.ProgressMessage): (r: seq<Delivery>)
    ensures |r| == |ctx.progress|
    ensures forall i :: 0 <= i < |r| ==>
              r[i] == Delivery(ctx.progress[i], ProgressEvent(ctx.handler, ctx.progress[i], ctx.progressGroup, m))
  {
    seq(|ctx.progress|, i requires 0 <= i < |ctx.progress| =>
      Delivery(ctx.progress[i], ProgressEvent(ctx.handler, ctx.progress[i], ctx.progressGroup, m)))
  }

  /** Every message listener, in order, handed a `MessageEvent` wrapping `event`. */
  function MessageEvents(ctx: Context, event: OutputMessageEvent): (r: seq<Delivery>)
    ensures |r| == |ctx.messages|
    ensures forall i :: 0 <= i < |r| ==>
              r[i] == Delivery(ctx.messages[i], MessageEvent(ctx.handler, ctx.messages[i], ctx.messageGroup, event))
  {
    seq(|ctx.messages|, i requires 0 <= i < |ctx.messages| =>
      Delivery(ctx.messages[i], MessageEvent(ctx.handler, ctx.messages[i], ctx.messageGroup, event)))
  }

  /**
   * `progressHandler` on a line: every progress listener is handed the line
   * parsed from the raw text; a raw text that does not parse throws
   * `MalformedParametersException` before the first listener is reached.
   */
  lemma ProgressFanOut(ctx: Context, event: OutputMessageEvent)
    ensures var r := FanOut(ctx.progress, ProgressAction(ctx.handler, ctx.progressGroup, event));
            var parsed := Progress.Parse(event.message);
            (parsed.Ok? ==> r == FanOutResult(ProgressEvents(ctx, parsed.value), None))
            && (parsed.Throw? && |ctx.progress| > 0 ==> r == FanOutResult([], Some(MalformedParameters)))
            && (parsed.Throw? && |ctx.progress| == 0 ==> r == FanOutResult([], None))
  {
    var action := ProgressAction(ctx.handler, ctx.progressGroup, event);
    if Progress.Parse(event.message).Ok? {
      FanOutTotal(ctx.progress, action);
      assert Applied(ctx.progress, action) == ProgressEvents(ctx, Progress.Parse(event.message).value);
    } else if |ctx.progress| > 0 {
      FanOutStopsAtFirstFailure(ctx.progress, action, 0);
      assert Applied(ctx.progress[..0], action) == [];
    }
  }

  /** `msgHandler` on a line: every message listener is handed the event, and nothing throws. */
  lemma MessageFanOut(ctx: Context, event: OutputMessageEvent)
    ensures FanOut(ctx.messages, MessageAction(ctx.handler, ctx.messageGroup, event))
            == FanOutResult(MessageEvents(ctx, event), None)
  {
    var action := MessageAction(ctx.handler, ctx.messageGroup, event);
    FanOutTotal(ctx.messages, action);
    assert Applied(ctx.messages, action) == MessageEvents(ctx, event);
  }

  /**
   * The two rules are enumerated in one of the two possible orders (which
   * one depends on the hash order of the table).
   */
  lemma {:induction false} DefaultOrder(order: seq<Pattern>, table: map<Pattern, Consumer>, p: Pattern, a: Pattern)
    requires Enumerates(order, table) && table.Keys == {p, a} && p != a
    ensures order == [p, a] || order == [a, p]
  {
    ElementsMembers(order, p);
    ElementsMembers(order, a);
    forall k | 0 <= k < |order| ensures order[k] == p || order[k] == a {
      ElementsMembers(order, order[k]);
    }
    ElementsCardinality(order);
    assert |table.Keys| == 2;
  }

  /** The consumers one line fires, in the order the rules are enumerated. */
  lemma DefaultConsumers(cfg: Config, p: Pattern, a: Pattern, event: OutputMessageEvent, engine: Engine)
    requires DefaultRules(cfg, p, a)
    ensures var t := StripWhitespace(event.message);
            var cp := if Progress.Parse(t).Ok? then [ProgressConsumer(cfg.context)] else [];
            var cm := if Progress.NoLineTerminator(t) then [MessageConsumer(cfg.context)] else [];
            var cs := FiredConsumers(cfg, event, engine);
            (cfg.msgOrder == [p, a] && cs == cp + cm) || (cfg.msgOrder == [a, p] && cs == cm + cp)
  {
    var t := StripWhitespace(event.message);
    assert TargetString(event.message, cfg.cleanse) == t;
    DefaultOrder(cfg.msgOrder, cfg.msgHandlers, p, a);
    FiredInTable(cfg.msgOrder, cfg.msgHandlers, t, cfg.lazy, engine);
    FiredOfTwo(cfg.msgOrder[0], cfg.msgOrder[1], t, engine);
    assert FullMatch(p.regex, t, engine) == Progress.Parse(t).Ok?;
    assert FullMatch(a.regex, t, engine) == Progress.NoLineTerminator(t);
  }

  /** Exhaustive evaluation over two rules fires each that matches, in order. */
  lemma FiredOfTwo(x: Pattern, y: Pattern, t: string, engine: Engine)
    ensures Fired([x, y], t, false, engine)
            == (if FullMatch(x.regex, t, engine) then [x] else []) + (if FullMatch(y.regex, t, engine) then [y] else [])
  {
    assert [x, y][1..] == [y] && [y][1..] == [];
    assert Fired([y], t, false, engine) == (if FullMatch(y.regex, t, engine) then [y] else []) + [];
  }

  /** The handler's two methods are different consumers. */
  lemma DistinctConsumers(ctx: Context)
    ensures ProgressConsumer(ctx) != MessageConsumer(ctx)
  {
    assert PROGRESS_HANDLER[0] != MSG_HANDLER[0];
  }

  /** The consumers `[c]` called with nothing recorded before. */
  lemma DispatchOne(ctx: Context, c: Consumer, event: OutputMessageEvent)
    ensures var r := CallbackEffect(ctx, c, event);
            ConsoleEffects(ctx, [c], event) == Effects([MessageCall(c, event)], r.effects, ToOutcome(r.failure))
  {
    assert [c][1..] == [];
    var r := CallbackEffect(ctx, c, event);
    var none := Effects([], [], Pass);
    assert [] + [MessageCall(c, event)] == [MessageCall(c, event)] && [] + r.effects == r.effects;
    assert Dispatch(ctx, [c], event, none) == Dispatch(ctx, [], event, Call(ctx, c, event, none));
  }

  /** The consumers `[c, d]` called with nothing recorded before; `d` is not reached when `c` throws. */
  lemma DispatchTwo(ctx: Context, c: Consumer, d: Consumer, event: OutputMessageEvent)
    ensures var r := CallbackEffect(ctx, c, event);
            var s := CallbackEffect(ctx, d, event);
            ConsoleEffects(ctx, [c, d], event)
            == if r.failure.Some? then Effects([MessageCall(c, event)], r.effects, ToOutcome(r.failure))
               else Effects([MessageCall(c, event), MessageCall(d, event)], r.effects + s.effects, ToOutcome(s.failure))
  {
    assert [c, d][1..] == [d] && [d][1..] == [];
    var r := CallbackEffect(ctx, c, event);
    assert [] + [MessageCall(c, event)] == [MessageCall(c, event)] && [] + r.effects == r.effects;
    var none := Effects([], [], Pass);
    var first := Call(ctx, c, event, none);
    assert first == Effects([MessageCall(c, event)], r.effects, ToOutcome(r.failure));
    assert Dispatch(ctx, [c, d], event, none) == Dispatch(ctx, [d], event, first);
    if first.outcome.Pass? {
      assert Dispatch(ctx, [d], event, first) == Dispatch(ctx, [], event, Call(ctx, d, event, first));
    }
  }

  /**
   * A line whose cleansed text still holds a line terminator matches
   * neither rule: nothing is called and nothing is delivered.
   */
  lemma TerminatedLineIgnored(cfg: Config, p: Pattern, a: Pattern, event: OutputMessageEvent, engine: Engine)
    requires DefaultRules(cfg, p, a)
    requires !Progress.NoLineTerminator(StripWhitespace(event.message))
    ensures ConsoleDispatch(cfg, event, engine) == Effects([], [], Pass)
  {
    DefaultConsumers(cfg, p, a, event, engine);
  }

  /**
   * A line that is not a progress line goes to `msgHandler` alone: every
   * message listener receives the event, and the dispatch succeeds.
   */
  lemma PlainLineToMessages(cfg: Config, p: Pattern, a: Pattern, event: OutputMessageEvent, engine: Engine)
    requires DefaultRules(cfg, p, a)
    requires Progress.NoLineTerminator(StripWhitespace(event.message))
    requires Progress.Parse(StripWhitespace(event.message)).Throw?
    ensures ConsoleDispatch(cfg, event, engine)
            == Effects([MessageCall(MessageConsumer(cfg.context), event)], MessageEvents(cfg.context, event), Pass)
  {
    var cm := MessageConsumer(cfg.context);
    DefaultConsumers(cfg, p, a, event, engine);
    assert FiredConsumers(cfg, event, engine) == [cm] by {
      assert [] + [cm] == [cm] + [] == [cm];
    }
    DistinctConsumers(cfg.context);
    DispatchOne(cfg.context, cm, event);
    MessageFanOut(cfg.context, event);
  }

  /**
   * A progress line whose raw text parses goes to both handlers, in the
   * order the rules are enumerated: every progress listener receives the
   * parsed message and every message listener the event.
   */
  lemma ProgressLineToBoth(cfg: Config, p: Pattern, a: Pattern, event: OutputMessageEvent, engine: Engine)
    requires DefaultRules(cfg, p, a)
    requires Progress.Parse(StripWhitespace(event.message)).Ok?
    requires Progress.Parse(event.message).Ok?
    ensures var ctx := cfg.context;
            var cp := MessageCall(ProgressConsumer(ctx), event);
            var cm := MessageCall(MessageConsumer(ctx), event);
            var ps := ProgressEvents(ctx, Progress.Parse(event.message).value);
            var ms := MessageEvents(ctx, event);
            var e := ConsoleDispatch(cfg, event, engine);
            (cfg.msgOrder == [p, a] && e == Effects([cp, cm], ps + ms, Pass))
            || (cfg.msgOrder == [a, p] && e == Effects([cm, cp], ms + ps, Pass))
  {
    var ctx := cfg.context;
    DefaultConsumers(cfg, p, a, event, engine);
    ProgressFanOut(ctx, event);
    MessageFanOut(ctx, event);
    if cfg.msgOrder == [p, a] {
      DispatchTwo(ctx, ProgressConsumer(ctx), MessageConsumer(ctx), event);
    } else {
      DispatchTwo(ctx, MessageConsumer(ctx), ProgressConsumer(ctx), event);
    }
  }

  /**
   * A line that is a progress line only once cleansed fires
   * `progressHandler`, which parses the raw text and throws
   * `MalformedParametersException` at the first progress listener; if
   * `msgHandler` came first, the message listeners have been served.
   */
  lemma MalformedProgressLineThrows(cfg: Config, p: Pattern, a: Pattern, event: OutputMessageEvent, engine: Engine)
    requires DefaultRules(cfg, p, a)
    requires Progress.Parse(StripWhitespace(event.message)).Ok?
    requires Progress.Parse(event.message).Throw?
    requires |cfg.context.progress| > 0
    ensures var ctx := cfg.context;
            var cp := MessageCall(ProgressConsumer(ctx), event);
            var cm := MessageCall(MessageConsumer(ctx), event);
            var e := ConsoleDispatch(cfg, event, engine);
            (cfg.msgOrder == [p, a] && e == Effects([cp], [], Fail(MalformedParameters)))
            || (cfg.msgOrder == [a, p] && e == Effects([cm, cp], MessageEvents(ctx, event), Fail(MalformedParameters)))
  {
    var ctx := cfg.context;
    DefaultConsumers(cfg, p, a, event, engine);
    ProgressFanOut(ctx, event);
    if cfg.msgOrder == [p, a] {
      DispatchTwo(ctx, ProgressConsumer(ctx), MessageConsumer(ctx), event);
    } else {
      MessageFanOut(ctx, event);
      DispatchTwo(ctx, MessageConsumer(ctx), ProgressConsumer(ctx), event);
      assert MessageEvents(ctx, event) + [] == MessageEvents(ctx, event);
    }
  }

  /** Removing the whitespace from `[x] + " " + rest` leaves `[x] + rest` when neither part holds any. */
  lemma StripInnerSpace(x: char, rest: string)
    requires !IsWhitespace(x) && NoWhitespace(rest)
    ensures StripWhitespace([x] + " " + rest) == [x] + rest
  {
    var s := [x] + " " + rest;
    assert s[1..] == " " + rest && s[1..][1..] == rest;
    StripWithoutWhitespace(rest);
  }

  /** Cleansing `f rame=` joins the first marker back together. */
  lemma SplitMarkerCleansed()
    ensures StripWhitespace("f rame=") == "frame="
  {
    assert NoWhitespace("rame=");
    assert "f rame=" == ['f'] + " " + "rame=";
    StripInnerSpace('f', "rame=");
    assert ['f'] + "rame=" == "frame=";
  }

  /** The progress line whose seven values are all empty. */
  const EMPTY_PROGRESS: Progress.ProgressMessage := Progress.ProgressMessage("", "", "", "", "", "", "")

  /** With all values empty, every marker is found right where its value ends. */
  lemma EmptyProgressParses()
    ensures Progress.Parse(Progress.Render(EMPTY_PROGRESS)) == Ok(EMPTY_PROGRESS)
  {
    var fs, ms := Progress.FieldList(EMPTY_PROGRESS), Progress.FIELD_MARKERS;
    forall k | 0 <= k < |ms| ensures IndexOf(fs[k] + ms[k], ms[k]) == Some(|fs[k]|) {
      assert fs[k] + ms[k] == ms[k] && ms[k][0..|ms[k]|] == ms[k];
    }
    Progress.RenderParses(EMPTY_PROGRESS);
  }

  /** The markers of a progress line after `frame=`, with nothing between them. */
  const MARKERS_AFTER_FRAME: string := "fps=" + ("q=" + ("size=" + ("time=" + ("bitrate=" + "speed="))))

  lemma EmptyProgressText()
    ensures Progress.Render(EMPTY_PROGRESS) == "frame=" + MARKERS_AFTER_FRAME
    ensures NoWhitespace(MARKERS_AFTER_FRAME)
  {
    EmptyProgressRender();
    MarkersNoWhitespace();
  }

  lemma EmptyProgressRender()
    ensures Progress.Render(EMPTY_PROGRESS) == "frame=" + MARKERS_AFTER_FRAME
  {
    var e: string := "";
    assert "speed=" + e == "speed=";
    assert "bitrate=" + (e + "speed=") == "bitrate=" + "speed=";
  }

  lemma MarkersNoWhitespace()
    ensures NoWhitespace(MARKERS_AFTER_FRAME)
  {
    assert NoWhitespace("bitrate=") && NoWhitespace("speed=");
    NoWhitespaceConcat("bitrate=", "speed=");
    assert NoWhitespace("time=");
    NoWhitespaceConcat("time=", "bitrate=" + "speed=");
    assert NoWhitespace("size=");
    NoWhitespaceConcat("size=", "time=" + ("bitrate=" + "speed="));
    assert NoWhitespace("q=");
    NoWhitespaceConcat("q=", "size=" + ("time=" + ("bitrate=" + "speed=")));
    assert NoWhitespace("fps=");
    NoWhitespaceConcat("fps=", "q=" + ("size=" + ("time=" + ("bitrate=" + "speed="))));
  }

  lemma NoWhitespaceConcat(a: string, b: string)
    requires NoWhitespace(a) && NoWhitespace(b)
    ensures NoWhitespace(a + b)
  {
    forall i | 0 <= i < |a + b| ensures !IsWhitespace((a + b)[i]) {
      if i < |a| { assert (a + b)[i] == a[i]; } else { assert (a + b)[i] == b[i - |a|]; }
    }
  }

  /**
   * Such lines exist: in `f rame=fps=q=size=time=bitrate=speed=` (a space
   * inside the first marker) the cleansed text is the progress line with
   * seven empty values, while the raw text does not start with `frame=`.
   */
  lemma CleansedOnlyProgressLine()
    ensures var raw := "f rame=" + MARKERS_AFTER_FRAME;
            Progress.Parse(StripWhitespace(raw)) == Ok(EMPTY_PROGRESS) && Progress.Parse(raw).Throw?
  {
    var raw := "f rame=" + MARKERS_AFTER_FRAME;
    EmptyProgressParses();
    EmptyProgressText();
    StripConcat("f rame=", MARKERS_AFTER_FRAME);
    StripWithoutWhitespace(MARKERS_AFTER_FRAME);
    SplitMarkerCleansed();
    assert !StartsWith(raw, Progress.FIRST_MARKER) by {
      assert raw[1] != Progress.FIRST_MARKER[1];
    }
  }
}
