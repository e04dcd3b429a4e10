/**
 * `ffmpeg.event.handler.FFMPEGHandler`: a `RegexHandler` set up for ffmpeg's
 * console output. Console lines whose cleansed text is a progress line go to
 * `progressHandler`, which hands every progress listener a `ProgressEvent`
 * parsed from the raw line; every line without a line terminator goes to
 * `msgHandler`, which hands every message listener a `MessageEvent`.
 *
 * The subclass relation is modelled by composition: `base` is the
 * `RegexHandler` part, and the two private methods are the consumers
 * `Method(this, "progressHandler")` and `Method(this, "msgHandler")`. Every
 * `onEvent` call on a listener is recorded, in order, in `delivered`.
 */
module FFMPEGHandlers {

  import opened Base
  import opened Lists
  import opened Events
  import opened EventGroups
  import opened FFMPEGEvents
  import opened RegexHandlers
  import Progress

  const PROGRESS_HANDLER: string := "progressHandler"
  const MSG_HANDLER: string := "msgHandler"

  /** `listener.onEvent(event)`. */
  datatype Delivery = Delivery(listener: object, event: FFMPEGEvent)

  /**
   * The action `progressHandler` runs on one progress listener: the line is
   * parsed afresh from the raw message, and a line that does not parse
   * throws before the listener is called.
   */
  function ProgressDelivery(handler: object, group: object, event: OutputMessageEvent, l: object): (r: Result<Delivery>)
    ensures r.Ok? <==> Progress.Parse(event.message).Ok?
    ensures r.Throw? ==> r.ex == MalformedParameters
    ensures r.Ok? ==> r.value == Delivery(l, ProgressEvent(handler, l, group, Progress.Parse(event.message).value))
  {
    var m :- Progress.New(Some(event.message));
    Ok(Delivery(l, ProgressEvent(handler, l, group, m)))
  }

  function ProgressAction(handler: object, group: object, event: OutputMessageEvent): object -> Result<Delivery>
  {
    (l: object) => ProgressDelivery(handler, group, event, l)
  }

  /** The action `msgHandler` runs on one message listener; it never throws. */
  function MessageAction(handler: object, group: object, event: OutputMessageEvent): object -> Result<Delivery>
  {
    (l: object) => Ok(Delivery(l, MessageEvent(handler, l, group, event)))
  }

  /** The parts of a handler its callbacks read: itself, its two groups and their listeners. */
  datatype Context = Context(handler: object, progressGroup: object, messageGroup: object,
                             progress: seq<object>, messages: seq<object>)

  function ProgressConsumer(c: Context): Consumer { Method(c.handler, PROGRESS_HANDLER) }
  function MessageConsumer(c: Context): Consumer { Method(c.handler, MSG_HANDLER) }

  /**
   * What calling one fired consumer does: the handler's own methods fan out
   * over their group, and any other consumer is only called.
   */
  function CallbackEffect(ctx: Context, c: Consumer, event: OutputMessageEvent): FanOutResult<Delivery>
  {
    if c == ProgressConsumer(ctx) then FanOut(ctx.progress, ProgressAction(ctx.handler, ctx.progressGroup, event))
    else if c == MessageConsumer(ctx) then FanOut(ctx.messages, MessageAction(ctx.handler, ctx.messageGroup, event))
    else FanOutResult([], None)
  }

  function ToOutcome(failure: Option<Exception>): (o: Outcome)
    ensures o.Pass? <==> failure.None?
    ensures o.Fail? ==> o.ex == failure.value
  {
    if failure.None? then Pass else Fail(failure.value)
  }

  /** What a console dispatch did: the `accept` calls, the deliveries, and how it ended. */
  datatype Effects = Effects(calls: seq<Invocation>, deliveries: seq<Delivery>, outcome: Outcome)

  /** The consumers of the fired patterns, in firing order. */
  function Consumers(fired: seq<Pattern>, table: map<Pattern, Consumer>): (cs: seq<Consumer>)
    requires forall i :: 0 <= i < |fired| ==> fired[i] in table
    ensures |cs| == |fired| && forall i :: 0 <= i < |fired| ==> cs[i] == table[fired[i]]
  {
    seq(|fired|, i requires 0 <= i < |fired| => table[fired[i]])
  }

  /** One fired consumer called after the effects `acc`: its `accept` is recorded, then its deliveries. */
  function Call(ctx: Context, c: Consumer, event: OutputMessageEvent, acc: Effects): (e: Effects)
    ensures e.calls == acc.calls + [MessageCall(c, event)]
    ensures e.outcome.Fail? <==> CallbackEffect(ctx, c, event).failure.Some?
  {
    var r := CallbackEffect(ctx, c, event);
    Effects(acc.calls + [MessageCall(c, event)], acc.deliveries + r.effects, ToOutcome(r.failure))
  }

  /**
   * The consumers `cs` called in order after the effects `acc`, as long as
   * nothing has thrown; a callback that throws ends the dispatch.
   */
  function Dispatch(ctx: Context, cs: seq<Consumer>, event: OutputMessageEvent, acc: Effects): Effects
    decreases |cs|
  {
    if |cs| == 0 || acc.outcome.Fail? then acc
    else Dispatch(ctx, cs[1..], event, Call(ctx, cs[0], event, acc))
  }

  /** The effects of calling the consumers `cs` from scratch. */
  function ConsoleEffects(ctx: Context, cs: seq<Consumer>, event: OutputMessageEvent): Effects
  {
    Dispatch(ctx, cs, event, Effects([], [], Pass))
  }

  /**
   * What came before a dispatch does not influence it: the calls and deliveries
   * recorded earlier stay in front, unchanged, of those the dispatch adds.
   */
  lemma {:induction false} DispatchExtends(ctx: Context, cs: seq<Consumer>, event: OutputMessageEvent,
                                           a: seq<Invocation>, b: seq<Delivery>, acc: Effects)
    ensures var d := Dispatch(ctx, cs, event, acc);
            Dispatch(ctx, cs, event, Effects(a + acc.calls, b + acc.deliveries, acc.outcome))
            == Effects(a + d.calls, b + d.deliveries, d.outcome)
    decreases |cs|
  {
    if |cs| > 0 && acc.outcome.Pass? {
      CallExtends(ctx, cs[0], event, a, b, acc);
      DispatchExtends(ctx, cs[1..], event, a, b, Call(ctx, cs[0], event, acc));
    }
  }

  /** The single-call case of `DispatchExtends`. */
  lemma CallExtends(ctx: Context, c: Consumer, event: OutputMessageEvent,
                    a: seq<Invocation>, b: seq<Delivery>, acc: Effects)
    ensures var next := Call(ctx, c, event, acc);
            Call(ctx, c, event, Effects(a + acc.calls, b + acc.deliveries, acc.outcome))
            == Effects(a + next.calls, b + next.deliveries, next.outcome)
  {
    var r := CallbackEffect(ctx, c, event);
    assert (a + acc.calls) + [MessageCall(c, event)] == a + (acc.calls + [MessageCall(c, event)]);
    assert (b + acc.deliveries) + r.effects == b + (acc.deliveries + r.effects);
  }

  /** The dispatch was seeded with the calls `a` and deliveries `b` already made. */
  lemma DispatchAfter(ctx: Context, cs: seq<Consumer>, event: OutputMessageEvent, a: seq<Invocation>, b: seq<Delivery>)
    ensures var e := ConsoleEffects(ctx, cs, event);
            Dispatch(ctx, cs, event, Effects(a, b, Pass)) == Effects(a + e.calls, b + e.deliveries, e.outcome)
  {
    DispatchExtends(ctx, cs, event, a, b, Effects([], [], Pass));
    assert a + [] == a && b + [] == b;
  }

  /**
   * The configuration a console dispatch depends on: the message table with
   * its iteration order, the two flags, and the callbacks' context.
   */
  datatype Config = Config(msgOrder: seq<Pattern>, msgHandlers: map<Pattern, Consumer>,
                           lazy: bool, cleanse: bool, context: Context)

  /** The consumers a console line fires on a handler so configured, in iteration order. */
  function FiredConsumers(cfg: Config, event: OutputMessageEvent, engine: Engine): seq<Consumer>
    requires Enumerates(cfg.msgOrder, cfg.msgHandlers)
  {
    var target := TargetString(event.message, cfg.cleanse);
    FiredInTable(cfg.msgOrder, cfg.msgHandlers, target, cfg.lazy, engine);
    Consumers(Fired(cfg.msgOrder, target, cfg.lazy, engine), cfg.msgHandlers)
  }

  /** The inherited `onConsoleMessage` on a handler so configured. */
  function ConsoleDispatch(cfg: Config, event: OutputMessageEvent, engine: Engine): Effects
    requires Enumerates(cfg.msgOrder, cfg.msgHandlers)
  {
    ConsoleEffects(cfg.context, FiredConsumers(cfg, event, engine), event)
  }

  class FFMPEGHandler {
    const base: RegexHandler
    const progressGroup: GenericEventGroup<object>
    const messageGroup: GenericEventGroup<object>
    /** The pattern `Pattern.compile(".*")` the constructor registers. */
    const anyLine: Pattern
    /** Every `onEvent` call on a listener so far, in order. */
    var delivered: seq<Delivery>

    ghost predicate Valid()
      reads this, base
    {
      base.Valid() && progressGroup != messageGroup
    }

    function CurrentContext(): Context
      reads progressGroup, messageGroup
    {
      Context(this, progressGroup, messageGroup, progressGroup.listeners, messageGroup.listeners)
    }

    function CurrentConfig(): Config
      reads base, progressGroup, messageGroup
    {
      Config(base.msgOrder, base.msgHandlers, base.isLazy, base.isCleanse, CurrentContext())
    }

    /**
     * The constructor: two empty groups, cleansing on, exhaustive
     * evaluation, and exactly two message rules, the shared
     * `PROGRESS_REGEX` to `progressHandler` and a new `.*` to `msgHandler`;
     * there are no error rules. The finished callback is the one given.
     */
    constructor (progressRegex: Pattern, finished: Option<Consumer>)
      requires progressRegex.regex == ProgressRegex
      ensures Valid()
      ensures fresh(base) && fresh(progressGroup) && fresh(messageGroup) && fresh(anyLine)
      ensures anyLine.regex == AnyLine && anyLine != progressRegex
      ensures base.msgHandlers == map[progressRegex := Method(this, PROGRESS_HANDLER), anyLine := Method(this, MSG_HANDLER)]
      ensures base.errHandlers == map[] && base.errOrder == []
      ensures base.isCleanse && !base.isLazy
      ensures base.finishedHandler == finished
      ensures base.invoked == [] && delivered == []
      ensures progressGroup.listeners == [] && messageGroup.listeners == []
    {
      base := new RegexHandler(finished);
      progressGroup := new GenericEventGroup();
      messageGroup := new GenericEventGroup();
      anyLine := new Pattern(AnyLine);
      delivered := [];
      new;
      base.SetIsCleanseWhitespace(true);
      base.SetIsLazyEvaluation(false);
      var _ := base.AddRegMessageHandler(Some(progressRegex), Some(Method(this, PROGRESS_HANDLER)));
      var _ := base.AddRegMessageHandler(Some(anyLine), Some(Method(this, MSG_HANDLER)));
    }

    /** `addProgressListener(l)`: appends to the progress group and to nothing else. */
    method AddProgressListener(l: object)
      requires Valid()
      modifies progressGroup
      ensures progressGroup.listeners == old(progressGroup.listeners) + [l]
      ensures messageGroup.listeners == old(messageGroup.listeners)
    {
      progressGroup.AddListener(l);
    }

    /** `addRegMsgListener(l)`: appends to the message group and to nothing else. */
    method AddRegMsgListener(l: object)
      requires Valid()
      modifies messageGroup
      ensures messageGroup.listeners == old(messageGroup.listeners) + [l]
      ensures progressGroup.listeners == old(progressGroup.listeners)
    {
      messageGroup.AddListener(l);
    }

    /**
     * `progressHandler(msg)`: every progress listener, in order, is handed a
     * `ProgressEvent` from this handler, itself and the progress group,
     * carrying the raw message parsed anew; a message that does not parse
     * throws at the first listener.
     */
    method ProgressHandler(event: OutputMessageEvent) returns (o: Outcome)
      modifies this
      ensures var r := FanOut(progressGroup.listeners, ProgressAction(this, progressGroup, event));
              delivered == old(delivered) + r.effects && o == ToOutcome(r.failure)
    {
      var r := progressGroup.ForEach(ProgressAction(this, progressGroup, event));
      delivered := delivered + r.effects;
      o := ToOutcome(r.failure);
    }

    /**
     * `msgHandler(event)`: every message listener, in order, is handed a
     * `MessageEvent` from this handler, itself and the message group,
     * wrapping the event.
     */
    method MsgHandler(event: OutputMessageEvent)
      modifies this
      ensures FanOut(messageGroup.listeners, MessageAction(this, messageGroup, event)).failure.None?
      ensures delivered == old(delivered) + FanOut(messageGroup.listeners, MessageAction(this, messageGroup, event)).effects
    {
      var r := messageGroup.ForEach(MessageAction(this, messageGroup, event));
      FanOutTotal(messageGroup.listeners, MessageAction(this, messageGroup, event));
      delivered := delivered + r.effects;
    }

    /**
     * The inherited `onConsoleMessage(event)`: the fired consumers are
     * called in iteration order, each `accept` recorded by the base handler;
     * the handler's own methods deliver to their listeners, and an exception
     * from `progressHandler` ends the dispatch and propagates.
     */
    method OnConsoleMessage(event: OutputMessageEvent, engine: Engine) returns (o: Outcome)
      requires Valid()
      modifies this, base
      ensures Valid() && CurrentConfig() == old(CurrentConfig())
      ensures base.errHandlers == old(base.errHandlers) && base.errOrder == old(base.errOrder)
      ensures base.finishedHandler == old(base.finishedHandler)
      ensures var e := ConsoleDispatch(CurrentConfig(), event, engine);
              base.invoked == old(base.invoked) + e.calls && delivered == old(delivered) + e.deliveries
              && o == e.outcome
    {
      var target := TargetString(event.message, base.isCleanse);
      var fired := Select(base.msgOrder, target, base.isLazy, engine);
      FiredInTable(base.msgOrder, base.msgHandlers, target, base.isLazy, engine);
      o := CallAll(Consumers(fired, base.msgHandlers), event);
    }

    /** The dispatch loop proper: the consumers called in order, up to the first failure. */
    method CallAll(cs: seq<Consumer>, event: OutputMessageEvent) returns (o: Outcome)
      modifies this, base
      ensures base.Rules() == old(base.Rules())
      ensures var e := ConsoleEffects(CurrentContext(), cs, event);
              base.invoked == old(base.invoked) + e.calls && delivered == old(delivered) + e.deliveries
              && o == e.outcome
    {
      var ctx := CurrentContext();
      ghost var final := Dispatch(ctx, cs, event, Effects(base.invoked, delivered, Pass));
      DispatchAfter(ctx, cs, event, base.invoked, delivered);
      var i := 0;
      while i < |cs|
        invariant 0 <= i <= |cs|
        invariant CurrentContext() == ctx
        invariant base.Rules() == old(base.Rules())
        invariant Dispatch(ctx, cs[i..], event, Effects(base.invoked, delivered, Pass)) == final
      {
        assert cs[i..][1..] == cs[i + 1..];
        var r := CallConsumer(cs[i], event);
        if r.failure.Some? {
          return ToOutcome(r.failure);
        }
        i := i + 1;
      }
      return Pass;
    }

    /** Calling one fired consumer: the handler's own methods run, any other consumer is only called. */
    method CallConsumer(c: Consumer, event: OutputMessageEvent) returns (r: FanOutResult<Delivery>)
      modifies this, base
      ensures base.Rules() == old(base.Rules())
      ensures base.invoked == old(base.invoked) + [MessageCall(c, event)]
      ensures r == CallbackEffect(CurrentContext(), c, event)
      ensures delivered == old(delivered) + r.effects
    {
      base.invoked := base.invoked + [MessageCall(c, event)];
      if c == Method(this, PROGRESS_HANDLER) {
        r := progressGroup.ForEach(ProgressAction(this, progressGroup, event));
        delivered := delivered + r.effects;
      } else if c == Method(this, MSG_HANDLER) {
        r := messageGroup.ForEach(MessageAction(this, messageGroup, event));
        delivered := delivered + r.effects;
      } else {
        r := FanOutResult([], None);
      }
    }

    /** The inherited `onErrorMessage`: the base dispatch over the error table. */
    method OnErrorMessage(event: OutputErrorEvent, engine: Engine)
      requires Valid()
      modifies base
      ensures Valid() && CurrentConfig() == old(CurrentConfig())
      ensures base.errHandlers == old(base.errHandlers) && base.errOrder == old(base.errOrder)
      ensures base.finishedHandler == old(base.finishedHandler)
      ensures base.invoked == old(base.invoked)
        + ErrorDispatch(base.errOrder, base.errHandlers, base.isLazy, base.isCleanse, engine, event)
    {
      base.OnErrorMessage(event, engine);
    }

    /** The inherited `onProcessFinished`: the finished callback, or a `NullPointerException`. */
    method OnProcessFinished(event: OutputFinishedEvent) returns (o: Outcome)
      requires Valid()
      modifies base
      ensures Valid() && CurrentConfig() == old(CurrentConfig())
      ensures base.errHandlers == old(base.errHandlers) && base.errOrder == old(base.errOrder)
      ensures base.finishedHandler == old(base.finishedHandler)
      ensures base.finishedHandler.None? ==> o == Fail(NullPointer) && base.invoked == old(base.invoked)
      ensures base.finishedHandler.Some? ==>
                o == Pass && base.invoked == old(base.invoked) + [FinishedCall(base.finishedHandler.value, event)]
    {
      o := base.OnProcessFinished(event);
    }
  }
}
