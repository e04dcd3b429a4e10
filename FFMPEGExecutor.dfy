/**
 * `ffmpeg.FFMPEGExecutor`: a `TrackedProcessExecutor` whose handler is an
 * `FFMPEGHandler`, installed by the constructor and never replaced. The
 * subclass is modelled by composition: `executor` holds the inherited
 * state, and every inherited operation is that executor's.
 */
module FFMPEGExecutors {

  import opened Base
  import opened RegexHandlers
  import opened FFMPEGHandlers
  import opened ProcessHandlers
  import opened Executors
  import opened FFMPEGRules

  class FFMPEGExecutor {
    /** The inherited executor state. */
    const executor: TrackedProcessExecutor
    /** The handler the constructor installs. */
    const handler: FFMPEGHandler

    /** The handler installed in the base executor is `handler`, and it is valid. */
    ghost predicate Valid()
      reads executor, Repr(Ffmpeg(handler))
    {
      executor.processHandler == Ffmpeg(handler) && HandlerValid(Ffmpeg(handler))
    }

    /**
     * The constructor: the base executor's initial state, then
     * `super.setProcessHandler(new FFMPEGHandler())`. The handler's two
     * message rules are the shared `progressRegex` and a new `.*` pattern,
     * and its listener groups are empty; `finished` is the finished callback
     * the handler is built with.
     */
    constructor (factory: ProcessFactory, progressRegex: Pattern, finished: Option<Consumer>)
      requires progressRegex.regex == ProgressRegex
      ensures Valid() && fresh(executor) && fresh(handler)
      ensures executor.processFactory == factory && executor.currentProcess == null
      ensures executor.inputStream == None && executor.errorStream == None && executor.outputStream == null
      ensures executor.published == []
      ensures DefaultRules(handler.CurrentConfig(), progressRegex, handler.anyLine)
      ensures handler.base.finishedHandler == finished
      ensures handler.progressGroup.listeners == [] && handler.messageGroup.listeners == []
    {
      var h := new FFMPEGHandler(progressRegex, finished);
      var e := new TrackedProcessExecutor(factory);
      e.SetProcessHandler(Ffmpeg(h));
      executor := e;
      handler := h;
    }

    /** `getProcessHandler()`: the installed handler, as an `FFMPEGHandler`. */
    method GetProcessHandler() returns (h: FFMPEGHandler)
      requires Valid()
      ensures executor.processHandler == Ffmpeg(h)
    {
      h := handler;
    }

    /**
     * `setProcessHandler(handler)`: always throws
     * `UnsupportedOperationException`; the installed handler stays.
     */
    method SetProcessHandler(h: ProcessHandler) returns (o: Outcome)
      requires Valid()
      ensures o == Fail(UnsupportedOperation)
      ensures Valid()
    {
      o := Fail(UnsupportedOperation);
    }

    /** `addProgressListener(l)`: appends `l` to the handler's progress group and to nothing else. */
    method AddProgressListener(l: object)
      requires Valid()
      modifies handler.progressGroup
      ensures Valid()
      ensures handler.progressGroup.listeners == old(handler.progressGroup.listeners) + [l]
      ensures handler.messageGroup.listeners == old(handler.messageGroup.listeners)
    {
      handler.AddProgressListener(l);
    }

    /** The inherited `isAlive()`. */
    predicate IsAlive()
      reads executor, executor.currentProcess
    {
      executor.IsAlive()
    }

    /**
     * The inherited `start(args)`, with the FFMPEG handler answering: its
     * rules, flags and listeners stay, and the run is the base executor's.
     */
    method Start(args: seq<string>, engine: Engine) returns (r: Result<Process>)
      requires Valid()
      modifies executor`currentProcess, executor`inputStream, executor`errorStream, executor`outputStream
      modifies executor`published, Repr(Ffmpeg(handler))
      ensures Valid() && handler.CurrentConfig() == old(handler.CurrentConfig())
      ensures old(IsAlive()) ==>
                r == Throw(IllegalState) && executor.published == old(executor.published)
                && executor.currentProcess == old(executor.currentProcess)
      ensures !old(IsAlive()) && executor.processFactory(args).Throw? ==>
                r == Throw(executor.processFactory(args).ex) && executor.published == old(executor.published)
                && executor.currentProcess == old(executor.currentProcess)
      ensures !old(IsAlive()) && executor.processFactory(args).Ok? ==>
                var spec := executor.processFactory(args).value;
                ViewValid(old(View(Ffmpeg(handler))))
                && var run := ProcessRun(executor, Ffmpeg(handler), old(View(Ffmpeg(handler))), spec, engine);
                executor.Launched(spec, run, r) && executor.published == old(executor.published) + run.notices
    {
      r := executor.Start(args, engine);
    }

    /** The inherited `haltTask()`, `ended` being the operating system's answer. */
    method HaltTask(ended: bool)
      requires Valid()
      modifies executor.currentProcess
      ensures Valid() && IsAlive() == (old(IsAlive()) && !ended)
    {
      executor.HaltTask(ended);
    }
  }
}
