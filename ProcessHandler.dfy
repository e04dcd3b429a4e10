/**
 * `process.builder.event.handler.ProcessHandler`: the three callbacks an
 * executor drives. The implementations in the repository are the console
 * handler, a `RegexHandler`, and an `FFMPEGHandler`.
 */
module ProcessHandlers {

  import opened Base
  import opened Events
  import opened RegexHandlers
  import opened FFMPEGHandlers

  /**
   * A handler instance. The console handler only prints and holds no state;
   * `NullHandler` stands for the `null` that `setProcessHandler` accepts.
   */
  datatype ProcessHandler = NullHandler | ConsoleHandler | Regex(regex: RegexHandler) | Ffmpeg(ffmpeg: FFMPEGHandler)

  /** One raw event handed to a handler. */
  datatype RawEvent =
    | Console(message: OutputMessageEvent)
    | Error(error: OutputErrorEvent)
    | Finished(finished: OutputFinishedEvent)

  /** The objects a handler's state lives in. */
  function Repr(h: ProcessHandler): set<object>
  {
    match h
    case NullHandler => {}
    case ConsoleHandler => {}
    case Regex(r) => {r}
    case Ffmpeg(f) => {f, f.base, f.progressGroup, f.messageGroup}
  }

  ghost predicate HandlerValid(h: ProcessHandler)
    reads Repr(h)
  {
    match h
    case NullHandler => true
    case ConsoleHandler => true
    case Regex(r) => r.Valid()
    case Ffmpeg(f) => f.Valid()
  }

  /**
   * What decides how a handler answers an event: its rules and flags, and
   * for an `FFMPEGHandler` the listener lists too. The handlers' own calls
   * never change it.
   */
  datatype HandlerView =
    | NullView
    | ConsoleView
    | RegexView(rules: RuleSet)
    | FfmpegView(config: Config, finished: Option<Consumer>)

  function View(h: ProcessHandler): HandlerView
    reads Repr(h)
  {
    match h
    case NullHandler => NullView
    case ConsoleHandler => ConsoleView
    case Regex(r) => RegexView(r.Rules())
    case Ffmpeg(f) => FfmpegView(f.CurrentConfig(), f.base.finishedHandler)
  }

  ghost predicate ViewValid(v: HandlerView)
  {
    v.FfmpegView? ==> Enumerates(v.config.msgOrder, v.config.msgHandlers)
  }

  lemma ValidHandlerView(h: ProcessHandler)
    requires HandlerValid(h)
    ensures ViewValid(View(h))
  {
  }

  /**
   * Whether a handler call returns or throws: any call on a `null` handler
   * throws `NullPointerException`, an `FFMPEGHandler` console dispatch can
   * throw from `progressHandler`, and a regex-based handler without a
   * finished callback throws `NullPointerException` at the end.
   */
  function Respond(v: HandlerView, event: RawEvent, engine: Engine): (o: Outcome)
    requires ViewValid(v)
    ensures v.NullView? ==> o == Fail(NullPointer)
    ensures v.ConsoleView? || (event.Error? && !v.NullView?) ==> o == Pass
    ensures event.Finished? && v.RegexView? ==> (o.Fail? <==> v.rules.finishedHandler.None?)
    ensures event.Finished? && v.FfmpegView? ==> (o.Fail? <==> v.finished.None?)
    ensures o.Fail? && event.Finished? ==> o.ex == NullPointer
  {
    match v
    case NullView => Fail(NullPointer)
    case ConsoleView => Pass
    case RegexView(rules) =>
      if event.Finished? && rules.finishedHandler.None? then Fail(NullPointer) else Pass
    case FfmpegView(cfg, finished) =>
      match event
      case Console(m) => ConsoleDispatch(cfg, m, engine).outcome
      case Error(_) => Pass
      case Finished(_) => if finished.None? then Fail(NullPointer) else Pass
  }

  /** How a handler whose rules and flags are `v` answers each event. */
  function Responder(v: HandlerView, engine: Engine): RawEvent -> Outcome
    requires ViewValid(v)
  {
    e => Respond(v, e, engine)
  }

  /**
   * The interface call: the event goes to the matching callback of the
   * handler, which keeps its rules and flags, and an exception it throws is
   * returned as the outcome; on a `null` handler the call itself throws.
   */
  method Notify(h: ProcessHandler, event: RawEvent, engine: Engine) returns (o: Outcome)
    requires HandlerValid(h)
    modifies Repr(h)
    ensures HandlerValid(h) && View(h) == old(View(h))
    ensures ViewValid(old(View(h))) && o == Respond(old(View(h)), event, engine)
  {
    match h {
      case NullHandler =>
        o := Fail(NullPointer);
      case ConsoleHandler =>
        o := Pass;
      case Regex(r) =>
        match event {
          case Console(m) =>
            r.OnConsoleMessage(m, engine);
            o := Pass;
          case Error(e) =>
            r.OnErrorMessage(e, engine);
            o := Pass;
          case Finished(f) =>
            o := r.OnProcessFinished(f);
        }
      case Ffmpeg(f) =>
        match event {
          case Console(m) =>
            o := f.OnConsoleMessage(m, engine);
          case Error(e) =>
            f.OnErrorMessage(e, engine);
            o := Pass;
          case Finished(x) =>
            o := f.OnProcessFinished(x);
        }
    }
  }
}
