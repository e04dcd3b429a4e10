/**
 * `process.builder.TrackedProcessExecutor`: starts one child process at a
 * time and, on the calling thread, turns its output into handler events.
 * Every standard-output line becomes a console event; after each one the
 * error stream is polled once, and a line read there becomes an error
 * event; when standard output ends, the streams are closed and one finished
 * event reports whether the exit value is 0.
 *
 * The child process is a value a factory function produces: its two output
 * streams as line queues, how each queue ends, whether it is still alive
 * and its exit code. Every handler call is recorded in `published`.
 */
module Executors {

  import opened Base
  import opened Events
  import opened RegexHandlers
  import opened ProcessHandlers

  /** How a stream behaves once its lines are used up: `readLine` returns null, or throws. */
  datatype StreamEnd = EndOfStream | ReadFails

  /** A child process as the factory produces it. */
  datatype ProcessSpec = ProcessSpec(stdout: seq<string>, stdoutEnd: StreamEnd,
                                     stderr: seq<string>, stderrEnd: StreamEnd,
                                     alive: bool, exitCode: int)

  /** `ProcessFactory.create(args)`: a process, or the `IOException` building it threw. */
  type ProcessFactory = seq<string> -> Result<ProcessSpec>

  function Min(a: int, b: int): int { if a <= b then a else b }

  /**
   * `BufferedReader.readLine()` on a queue of lines at `position`: the next
   * line, or, once they are used up, null or an `IOException`.
   */
  function ReadAt(lines: seq<string>, end: StreamEnd, position: nat): (r: Result<Option<string>>)
    requires position <= |lines|
    ensures position < |lines| <==> r.Ok? && r.value.Some?
    ensures position < |lines| ==> r.value.value == lines[position]
    ensures position == |lines| ==> (r == Ok(None) <==> end == EndOfStream)
    ensures position == |lines| ==> (r == Throw(IOFailure) <==> end.ReadFails?)
  {
    if position < |lines| then Ok(Some(lines[position]))
    else if end == EndOfStream then Ok(None)
    else Throw(IOFailure)
  }

  /** The exit value `handleProcess` computes: -1 while the process is alive, `exitValue()` after. */
  function ExitValue(alive: bool, exitCode: int): (v: int)
    ensures alive ==> v == -1
    ensures !alive ==> v == exitCode
  {
    if alive then -1 else exitCode
  }

  function FailureOf(o: Outcome): (f: Option<Exception>)
    ensures f.None? <==> o.Pass?
    ensures f.Some? ==> f.value == o.ex
  {
    if o.Pass? then None else Some(o.ex)
  }

  /** One handler call the executor made. */
  datatype Notice = Notice(handler: ProcessHandler, event: RawEvent)

  /**
   * What `handleProcess` did: the handler calls in order, whether the
   * streams were closed, and the exception that ended it, if any.
   */
  datatype Run = Run(notices: seq<Notice>, closed: bool, failure: Option<Exception>)

  /** The calls after the first `n` of `ns` all go to `h`, and none is a finished event. */
  predicate LoopCalls(ns: seq<Notice>, n: nat, h: ProcessHandler)
  {
    n <= |ns| && forall k :: n <= k < |ns| ==> !ns[k].event.Finished? && ns[k].handler == h
  }

  /** One turn of the read loop: the run ends, or the loop goes on with more calls recorded. */
  datatype Step = Done(run: Run) | Next(calls: seq<Notice>)

  /** The finished event a run of `spec` ends with. */
  function FinishedEvent(source: object, spec: ProcessSpec): RawEvent
  {
    Finished(OutputFinishedEvent(source, ExitValue(spec.alive, spec.exitCode) == 0))
  }

  /**
   * Turn `i` of the read loop after the calls `acc`. A standard-output line
   * is published as a console event; then the error stream, which stands at
   * line `Min(i, |stderr|)` after one poll per earlier turn, is polled once,
   * and a line read there is published as an error event that carries the
   * standard-output line: the text read from the error stream is only tested
   * for null. At the end of standard output the finished event is published.
   */
  function LoopStep(source: object, h: ProcessHandler, answer: RawEvent -> Outcome, spec: ProcessSpec,
                    i: nat, acc: seq<Notice>): Step
    requires i <= |spec.stdout|
  {
    match ReadAt(spec.stdout, spec.stdoutEnd, i)
    case Throw(ex) => Done(Run(acc, false, Some(ex)))
    case Ok(None) =>
      var fin := FinishedEvent(source, spec);
      Done(Run(acc + [Notice(h, fin)], true, FailureOf(answer(fin))))
    case Ok(Some(line)) => ConsoleStep(source, h, answer, spec, i, acc, line)
  }

  /** The rest of turn `i` once the standard-output line `line` is read. */
  function ConsoleStep(source: object, h: ProcessHandler, answer: RawEvent -> Outcome, spec: ProcessSpec,
                       i: nat, acc: seq<Notice>, line: string): Step
  {
    var msg := Console(OutputMessageEvent(source, line));
    var withMsg := acc + [Notice(h, msg)];
    match answer(msg)
    case Fail(ex) => Done(Run(withMsg, false, Some(ex)))
    case Pass => ErrorStep(source, h, spec, i, line, withMsg)
  }

  /** The poll of the error stream that closes turn `i`, after the calls `acc`. */
  function ErrorStep(source: object, h: ProcessHandler, spec: ProcessSpec, i: nat, line: string,
                     acc: seq<Notice>): Step
  {
    match ReadAt(spec.stderr, spec.stderrEnd, Min(i, |spec.stderr|))
    case Throw(ex) => Done(Run(acc, false, Some(ex)))
    case Ok(None) => Next(acc)
    case Ok(Some(_)) => Next(acc + [Notice(h, Error(OutputErrorEvent(source, line)))])
  }

  /**
   * What one turn can do: go on, having added calls to `h` and no finished
   * event; end with the finished call, the streams closed; or end with an
   * exception, having added calls to `h` and no finished event.
   */
  lemma StepShape(source: object, h: ProcessHandler, answer: RawEvent -> Outcome, spec: ProcessSpec,
                  i: nat, acc: seq<Notice>)
    requires i <= |spec.stdout|
    ensures var s := LoopStep(source, h, answer, spec, i, acc);
            (s.Next? ==> i < |spec.stdout| && |acc| < |s.calls| && LoopCalls(s.calls, |acc|, h) && s.calls[..|acc|] == acc)
            && (s.Done? && s.run.closed ==>
                  var fin := FinishedEvent(source, spec);
                  s.run == Run(acc + [Notice(h, fin)], true, FailureOf(answer(fin))))
            && (s.Done? && !s.run.closed ==>
                  s.run.failure.Some? && LoopCalls(s.run.notices, |acc|, h) && s.run.notices[..|acc|] == acc)
  {
  }

  /** The read loop from turn `i` on, after the calls `acc`. */
  function Transcript(source: object, h: ProcessHandler, answer: RawEvent -> Outcome, spec: ProcessSpec,
                      i: nat, acc: seq<Notice>): Run
    requires i <= |spec.stdout|
    decreases |spec.stdout| - i
  {
    match LoopStep(source, h, answer, spec, i, acc)
    case Done(r) => r
    case Next(calls) => Transcript(source, h, answer, spec, i + 1, calls)
  }

  /** A turn of the loop does not look at the calls made before it. */
  lemma StepExtends(source: object, h: ProcessHandler, answer: RawEvent -> Outcome, spec: ProcessSpec,
                    i: nat, a: seq<Notice>, acc: seq<Notice>)
    requires i <= |spec.stdout|
    ensures match LoopStep(source, h, answer, spec, i, acc)
            case Done(r) => LoopStep(source, h, answer, spec, i, a + acc) == Done(Run(a + r.notices, r.closed, r.failure))
            case Next(calls) => LoopStep(source, h, answer, spec, i, a + acc) == Next(a + calls)
  {
    var line := ReadAt(spec.stdout, spec.stdoutEnd, i);
    if line.Ok? && line.value.Some? {
      var msg := Notice(h, Console(OutputMessageEvent(source, line.value.value)));
      var err := Notice(h, Error(OutputErrorEvent(source, line.value.value)));
      assert (a + acc) + [msg] == a + (acc + [msg]);
      assert (a + acc) + [msg] + [err] == a + (acc + [msg] + [err]);
    } else if line == Ok(None) {
      var fin := Notice(h, FinishedEvent(source, spec));
      assert (a + acc) + [fin] == a + (acc + [fin]);
    }
  }

  /** The calls made before a run stay in front of it, unchanged. */
  lemma {:induction false} TranscriptExtends(source: object, h: ProcessHandler, answer: RawEvent -> Outcome, spec: ProcessSpec,
                                             i: nat, a: seq<Notice>, acc: seq<Notice>)
    requires i <= |spec.stdout|
    ensures var r := Transcript(source, h, answer, spec, i, acc);
            Transcript(source, h, answer, spec, i, a + acc) == Run(a + r.notices, r.closed, r.failure)
    decreases |spec.stdout| - i
  {
    StepExtends(source, h, answer, spec, i, a, acc);
    var s := LoopStep(source, h, answer, spec, i, acc);
    if s.Next? {
      TranscriptExtends(source, h, answer, spec, i + 1, a, s.calls);
    }
  }

  /** The run of a whole process, from its first line with nothing recorded. */
  function ProcessRun(source: object, h: ProcessHandler, v: HandlerView, spec: ProcessSpec, engine: Engine): Run
    requires ViewValid(v)
  {
    Transcript(source, h, Responder(v, engine), spec, 0, [])
  }

  /**
   * `answer` gives what a handler whose rules and flags are `v` answers to
   * every event `source` raises.
   */
  ghost predicate AnswersFor(answer: RawEvent -> Outcome, v: HandlerView, engine: Engine, source: object)
    requires ViewValid(v)
  {
    (forall line: string {:trigger Respond(v, Console(OutputMessageEvent(source, line)), engine)} ::
       answer(Console(OutputMessageEvent(source, line))) == Respond(v, Console(OutputMessageEvent(source, line)), engine))
    && (forall line: string {:trigger Respond(v, Error(OutputErrorEvent(source, line)), engine)} ::
          answer(Error(OutputErrorEvent(source, line))) == Respond(v, Error(OutputErrorEvent(source, line)), engine))
    && (forall natural: bool {:trigger Respond(v, Finished(OutputFinishedEvent(source, natural)), engine)} ::
          answer(Finished(OutputFinishedEvent(source, natural)))
          == Respond(v, Finished(OutputFinishedEvent(source, natural)), engine))
  }

  lemma ResponderAnswers(v: HandlerView, engine: Engine, source: object)
    requires ViewValid(v)
    ensures AnswersFor(Responder(v, engine), v, engine, source)
  {
  }

  /** The object that raised an event. */
  function Source(e: RawEvent): object
  {
    match e
    case Console(m) => m.target
    case Error(m) => m.target
    case Finished(f) => f.target
  }

  /**
   * `r` is a run after the calls `acc`: they stay in front, and what follows
   * is either loop calls to `h` and the finished call `fin` that ended the
   * run with `finFailure`, or loop calls to `h` and the exception that ended
   * the run with the streams still open.
   */
  predicate EndsAfter(r: Run, acc: seq<Notice>, h: ProcessHandler, fin: Notice, finFailure: Option<Exception>)
  {
    |acc| <= |r.notices| && r.notices[..|acc|] == acc
    && (r.closed ==> |r.notices| > |acc| && r.notices[|r.notices| - 1] == fin && r.failure == finFailure
                     && LoopCalls(r.notices[..|r.notices| - 1], |acc|, h))
    && (!r.closed ==> r.failure.Some? && LoopCalls(r.notices, |acc|, h))
  }

  lemma EndsAfterEarlier(r: Run, acc: seq<Notice>, calls: seq<Notice>, h: ProcessHandler, fin: Notice,
                         finFailure: Option<Exception>)
    requires LoopCalls(calls, |acc|, h) && calls[..|acc|] == acc
    requires EndsAfter(r, calls, h, fin, finFailure)
    ensures EndsAfter(r, acc, h, fin, finFailure)
  {
    assert r.notices[..|acc|] == r.notices[..|calls|][..|acc|];
    if r.closed {
      var ns := r.notices[..|r.notices| - 1];
      forall k | |acc| <= k < |ns| ensures !ns[k].event.Finished? && ns[k].handler == h {
        if k < |calls| { assert ns[k] == r.notices[..|calls|][k] == calls[k]; }
      }
    } else {
      forall k | |acc| <= k < |r.notices| ensures !r.notices[k].event.Finished? && r.notices[k].handler == h {
        if k < |calls| { assert r.notices[k] == r.notices[..|calls|][k] == calls[k]; }
      }
    }
  }

  /** A turn that ends the run leaves it in one of the two ways a run can end. */
  lemma StepEnds(source: object, h: ProcessHandler, answer: RawEvent -> Outcome, spec: ProcessSpec,
                 i: nat, acc: seq<Notice>)
    requires i <= |spec.stdout|
    requires LoopStep(source, h, answer, spec, i, acc).Done?
    ensures var fin := FinishedEvent(source, spec);
            EndsAfter(LoopStep(source, h, answer, spec, i, acc).run, acc, h, Notice(h, fin), FailureOf(answer(fin)))
  {
    StepShape(source, h, answer, spec, i, acc);
    var r := LoopStep(source, h, answer, spec, i, acc).run;
    if r.closed {
      assert r.notices[..|r.notices| - 1] == acc;
    }
  }

  /**
   * How every run ends: either the streams are closed and exactly one
   * finished event, the last call, reports whether the exit value is 0; or
   * an exception ended the run, the streams stay open and no finished event
   * is published. Every call goes to the handler the run was started with.
   */
  lemma {:induction false} TranscriptEnds(source: object, h: ProcessHandler, answer: RawEvent -> Outcome,
                                          spec: ProcessSpec, i: nat, acc: seq<Notice>)
    requires i <= |spec.stdout|
    ensures var fin := FinishedEvent(source, spec);
            EndsAfter(Transcript(source, h, answer, spec, i, acc), acc, h, Notice(h, fin), FailureOf(answer(fin)))
    decreases |spec.stdout| - i
  {
    var fin := Notice(h, FinishedEvent(source, spec));
    var s := LoopStep(source, h, answer, spec, i, acc);
    var r := Transcript(source, h, answer, spec, i, acc);
    if s.Next? {
      StepShape(source, h, answer, spec, i, acc);
      assert r == Transcript(source, h, answer, spec, i + 1, s.calls);
      TranscriptEnds(source, h, answer, spec, i + 1, s.calls);
      EndsAfterEarlier(r, acc, s.calls, h, fin, FailureOf(answer(fin.event)));
    } else {
      assert r == s.run;
      StepEnds(source, h, answer, spec, i, acc);
    }
  }

  /** The console event of standard-output line `k`. */
  function ConsoleOf(source: object, spec: ProcessSpec, k: nat): RawEvent
    requires k < |spec.stdout|
  {
    Console(OutputMessageEvent(source, spec.stdout[k]))
  }

  /**
   * The reference for a run in which nothing fails: for each of the first `n`
   * standard-output lines its console event, followed by an error event
   * carrying the same line while the error stream still has lines.
   */
  function Expected(source: object, h: ProcessHandler, spec: ProcessSpec, n: nat): seq<Notice>
    requires n <= |spec.stdout|
  {
    if n == 0 then []
    else
      var line := spec.stdout[n - 1];
      var calls := Expected(source, h, spec, n - 1) + [Notice(h, ConsoleOf(source, spec, n - 1))];
      if n - 1 < |spec.stderr| then calls + [Notice(h, Error(OutputErrorEvent(source, line)))] else calls
  }

  /** The texts of the console events among `ns`, in order. */
  function ConsoleTexts(ns: seq<Notice>): seq<string>
  {
    if ns == [] then []
    else
      var last := ns[|ns| - 1];
      ConsoleTexts(ns[..|ns| - 1]) + if last.event.Console? then [last.event.message.message] else []
  }

  /** The texts of the error events among `ns`, in order. */
  function ErrorTexts(ns: seq<Notice>): seq<string>
  {
    if ns == [] then []
    else
      var last := ns[|ns| - 1];
      ErrorTexts(ns[..|ns| - 1]) + if last.event.Error? then [last.event.error.errorMessage] else []
  }

  lemma {:induction false} TextsAppend(ns: seq<Notice>, n: Notice)
    ensures ConsoleTexts(ns + [n]) == ConsoleTexts(ns) + if n.event.Console? then [n.event.message.message] else []
    ensures ErrorTexts(ns + [n]) == ErrorTexts(ns) + if n.event.Error? then [n.event.error.errorMessage] else []
  {
    assert (ns + [n])[..|ns + [n]| - 1] == ns;
  }

  /** The calls of the reference's last turn: its console call, then its error call if any. */
  lemma ExpectedUnfold(source: object, h: ProcessHandler, spec: ProcessSpec, n: nat)
    requires 0 < n <= |spec.stdout|
    ensures var calls := Expected(source, h, spec, n - 1) + [Notice(h, ConsoleOf(source, spec, n - 1))];
            Expected(source, h, spec, n)
            == if n - 1 < |spec.stderr| then calls + [Notice(h, Error(OutputErrorEvent(source, spec.stdout[n - 1])))] else calls
  {
  }

  /** The console texts of the reference's last turn, one line past the previous turns. */
  lemma ConsoleTextsLast(source: object, h: ProcessHandler, spec: ProcessSpec, n: nat, before: seq<string>)
    requires 0 < n <= |spec.stdout|
    requires ConsoleTexts(Expected(source, h, spec, n - 1)) == before
    ensures ConsoleTexts(Expected(source, h, spec, n)) == before + [spec.stdout[n - 1]]
  {
    var calls := Expected(source, h, spec, n - 1) + [Notice(h, ConsoleOf(source, spec, n - 1))];
    ExpectedUnfold(source, h, spec, n);
    TextsAppend(Expected(source, h, spec, n - 1), Notice(h, ConsoleOf(source, spec, n - 1)));
    if n - 1 < |spec.stderr| {
      TextsAppend(calls, Notice(h, Error(OutputErrorEvent(source, spec.stdout[n - 1]))));
    }
  }

  /** The error texts of the reference's last turn, one line past the previous turns while stderr lasts. */
  lemma ErrorTextsLast(source: object, h: ProcessHandler, spec: ProcessSpec, n: nat, before: seq<string>)
    requires 0 < n <= |spec.stdout|
    requires ErrorTexts(Expected(source, h, spec, n - 1)) == before
    ensures ErrorTexts(Expected(source, h, spec, n)) == before + if n - 1 < |spec.stderr| then [spec.stdout[n - 1]] else []
  {
    var calls := Expected(source, h, spec, n - 1) + [Notice(h, ConsoleOf(source, spec, n - 1))];
    ExpectedUnfold(source, h, spec, n);
    TextsAppend(Expected(source, h, spec, n - 1), Notice(h, ConsoleOf(source, spec, n - 1)));
    if n - 1 < |spec.stderr| {
      TextsAppend(calls, Notice(h, Error(OutputErrorEvent(source, spec.stdout[n - 1]))));
    }
  }

  /** In a run without failures the console events carry the standard-output lines, all and in order. */
  lemma {:induction false} ExpectedConsoleTexts(source: object, h: ProcessHandler, spec: ProcessSpec, n: nat)
    requires n <= |spec.stdout|
    ensures ConsoleTexts(Expected(source, h, spec, n)) == spec.stdout[..n]
  {
    if n > 0 {
      ExpectedConsoleTexts(source, h, spec, n - 1);
      ConsoleTextsLast(source, h, spec, n, spec.stdout[..n - 1]);
      TakeSnoc(spec.stdout, n);
    }
  }

  /**
   * In a run without failures the error events carry standard-output lines,
   * one for each line the error stream had: what the error stream says never
   * reaches the handler.
   */
  lemma {:induction false} ExpectedErrorTexts(source: object, h: ProcessHandler, spec: ProcessSpec, n: nat)
    requires n <= |spec.stdout|
    ensures ErrorTexts(Expected(source, h, spec, n)) == spec.stdout[..Min(n, |spec.stderr|)]
  {
    if n > 0 {
      ExpectedErrorTexts(source, h, spec, n - 1);
      ErrorTextsLast(source, h, spec, n, spec.stdout[..Min(n - 1, |spec.stderr|)]);
      if n - 1 < |spec.stderr| {
        TakeSnoc(spec.stdout, n);
      } else {
        assert Min(n - 1, |spec.stderr|) == Min(n, |spec.stderr|);
      }
    }
  }

  /**
   * The first `k` turns go through: the handler accepts their console events,
   * and the error stream, polled once per turn, neither throws on them.
   */
  ghost predicate CleanUpTo(source: object, answer: RawEvent -> Outcome, spec: ProcessSpec, k: nat)
  {
    k <= |spec.stdout|
    && (k <= |spec.stderr| || spec.stderrEnd == EndOfStream)
    && forall j :: 0 <= j < k ==> answer(ConsoleOf(source, spec, j)).Pass?
  }

  lemma CleanStep(source: object, h: ProcessHandler, answer: RawEvent -> Outcome, spec: ProcessSpec, i: nat)
    requires i < |spec.stdout| && answer(ConsoleOf(source, spec, i)).Pass?
    requires i < |spec.stderr| || spec.stderrEnd == EndOfStream
    ensures LoopStep(source, h, answer, spec, i, Expected(source, h, spec, i)) == Next(Expected(source, h, spec, i + 1))
  {
  }

  lemma {:induction false} CleanPrefix(source: object, h: ProcessHandler, answer: RawEvent -> Outcome,
                                       spec: ProcessSpec, i: nat, k: nat)
    requires i <= k && CleanUpTo(source, answer, spec, k)
    ensures Transcript(source, h, answer, spec, i, Expected(source, h, spec, i))
            == Transcript(source, h, answer, spec, k, Expected(source, h, spec, k))
    decreases k - i
  {
    if i < k {
      CleanStep(source, h, answer, spec, i);
      CleanPrefix(source, h, answer, spec, i + 1, k);
    }
  }

  /**
   * A run in which every turn goes through publishes the reference calls; it
   * then closes the streams and publishes the finished event when standard
   * output ends, and stops with the `IOException` when reading it fails.
   */
  lemma CleanRun(source: object, h: ProcessHandler, answer: RawEvent -> Outcome, spec: ProcessSpec)
    requires CleanUpTo(source, answer, spec, |spec.stdout|)
    ensures var calls := Expected(source, h, spec, |spec.stdout|);
            var fin := FinishedEvent(source, spec);
            Transcript(source, h, answer, spec, 0, [])
            == if spec.stdoutEnd == EndOfStream then Run(calls + [Notice(h, fin)], true, FailureOf(answer(fin)))
               else Run(calls, false, Some(IOFailure))
  {
    CleanPrefix(source, h, answer, spec, 0, |spec.stdout|);
  }

  /**
   * A console call that throws ends the run at once: the exception
   * propagates, no error event follows it and the streams stay open.
   */
  lemma ConsoleFailureStops(source: object, h: ProcessHandler, answer: RawEvent -> Outcome, spec: ProcessSpec,
                            k: nat)
    requires k < |spec.stdout| && CleanUpTo(source, answer, spec, k) && answer(ConsoleOf(source, spec, k)).Fail?
    ensures Transcript(source, h, answer, spec, 0, [])
            == Run(Expected(source, h, spec, k) + [Notice(h, ConsoleOf(source, spec, k))], false,
                   Some(answer(ConsoleOf(source, spec, k)).ex))
  {
    CleanPrefix(source, h, answer, spec, 0, k);
  }

  /**
   * With a `null` handler the first call throws `NullPointerException`: the
   * console call of the first line, or, on an empty standard output, the
   * finished call after the streams are closed. A standard output that
   * throws at once ends the run before any call.
   */
  lemma NullHandlerRun(source: object, h: ProcessHandler, spec: ProcessSpec, engine: Engine)
    ensures var r := ProcessRun(source, h, NullView, spec, engine);
            if |spec.stdout| > 0 then r == Run([Notice(h, ConsoleOf(source, spec, 0))], false, Some(NullPointer))
            else if spec.stdoutEnd == EndOfStream then r == Run([Notice(h, FinishedEvent(source, spec))], true, Some(NullPointer))
            else r == Run([], false, Some(IOFailure))
  {
    if |spec.stdout| > 0 {
      var n := Notice(h, ConsoleOf(source, spec, 0));
      assert [] + [n] == [n];
    } else if spec.stdoutEnd == EndOfStream {
      var n := Notice(h, FinishedEvent(source, spec));
      assert [] + [n] == [n];
    }
  }

  /**
   * An error stream that throws once its lines are used up ends the run on
   * the first turn after them, right after that turn's console call.
   */
  lemma ErrorReadStops(source: object, h: ProcessHandler, answer: RawEvent -> Outcome, spec: ProcessSpec)
    requires spec.stderrEnd == ReadFails && |spec.stderr| < |spec.stdout|
    requires CleanUpTo(source, answer, spec, |spec.stderr|) && answer(ConsoleOf(source, spec, |spec.stderr|)).Pass?
    ensures var k := |spec.stderr|;
            Transcript(source, h, answer, spec, 0, [])
            == Run(Expected(source, h, spec, k) + [Notice(h, ConsoleOf(source, spec, k))], false, Some(IOFailure))
  {
    CleanPrefix(source, h, answer, spec, 0, |spec.stderr|);
  }

  /** The run depends on how many lines the error stream has, never on what they say. */
  lemma {:induction false} ErrorTextIgnored(source: object, h: ProcessHandler, answer: RawEvent -> Outcome,
                                            spec: ProcessSpec, other: seq<string>, i: nat, acc: seq<Notice>)
    requires i <= |spec.stdout| && |other| == |spec.stderr|
    ensures Transcript(source, h, answer, spec.(stderr := other), i, acc) == Transcript(source, h, answer, spec, i, acc)
    decreases |spec.stdout| - i
  {
    var s := LoopStep(source, h, answer, spec, i, acc);
    assert LoopStep(source, h, answer, spec.(stderr := other), i, acc) == s;
    if s.Next? {
      ErrorTextIgnored(source, h, answer, spec, other, i + 1, s.calls);
    }
  }

  /** A started child process; only `destroyForcibly` changes whether it is alive. */
  class Process {
    const spec: ProcessSpec
    var alive: bool

    constructor (spec: ProcessSpec)
      ensures this.spec == spec && alive == spec.alive
    {
      this.spec := spec;
      alive := spec.alive;
    }

    /**
     * `destroyForcibly()`: termination is requested and takes effect
     * asynchronously. `ended` is the operating system's answer: whether the
     * process has ended by the time `isAlive()` is next asked. A process
     * that had ended stays ended.
     */
    method DestroyForcibly(ended: bool)
      modifies this
      ensures alive == (old(alive) && !ended)
    {
      alive := alive && !ended;
    }
  }

  /**
   * A `BufferedReader` over one output stream of a process: the lines the
   * stream has, how it ends, how many lines were handed out, and whether the
   * reader is closed.
   */
  datatype Reader = Reader(lines: seq<string>, end: StreamEnd, position: nat, closed: bool)

  predicate ReaderValid(r: Reader)
  {
    r.position <= |r.lines|
  }

  /**
   * `readLine()`: on an open reader the next line, null or the stream's
   * `IOException`, moving on by one line only when a line was read; a
   * closed reader throws and stays where it is.
   */
  function ReadLine(r: Reader): (p: (Result<Option<string>>, Reader))
    requires ReaderValid(r)
    ensures ReaderValid(p.1) && p.1.lines == r.lines && p.1.end == r.end && p.1.closed == r.closed
    ensures r.closed ==> p.0 == Throw(IOFailure) && p.1.position == r.position
    ensures !r.closed ==> p.0 == ReadAt(r.lines, r.end, r.position)
    ensures !r.closed ==> p.1.position == if p.0.Ok? && p.0.value.Some? then r.position + 1 else r.position
  {
    if r.closed then (Throw(IOFailure), r)
    else
      var line := ReadAt(r.lines, r.end, r.position);
      (line, if line.Ok? && line.value.Some? then r.(position := r.position + 1) else r)
  }

  /** The `BufferedOutputStream` to the process's standard input; nothing is ever written to it here. */
  class OutputSink {
    var closed: bool

    constructor ()
      ensures !closed
    {
      closed := false;
    }

    method Close()
      modifies this
      ensures closed
    {
      closed := true;
    }
  }

  /** How one turn of the read loop ended. */
  datatype TurnEnd = Continue | AtEnd | Failed(ex: Exception)

  /** The executor's own objects never belong to a handler. */
  lemma Apart(x: object, h: ProcessHandler)
    requires x is TrackedProcessExecutor || x is Process || x is OutputSink
    ensures x !in Repr(h)
  {
  }

  class TrackedProcessExecutor {
    var inputStream: Option<Reader>
    var errorStream: Option<Reader>
    var outputStream: OutputSink?
    var currentProcess: Process?
    var processFactory: ProcessFactory
    var processHandler: ProcessHandler
    /** Every handler call made so far, in order. */
    var published: seq<Notice>

    ghost predicate Valid()
      reads this`processHandler, Repr(processHandler)
    {
      HandlerValid(processHandler)
    }

    /**
     * The field initialisers: the console handler, no process and no
     * streams; `factory` stands for `ProcessFactory.DEFAULT_FACTORY`.
     */
    constructor (factory: ProcessFactory)
      ensures Valid() && processFactory == factory && processHandler == ConsoleHandler
      ensures currentProcess == null && inputStream == None && errorStream == None && outputStream == null
      ensures published == []
    {
      inputStream := None;
      errorStream := None;
      outputStream := null;
      currentProcess := null;
      processFactory := factory;
      processHandler := ConsoleHandler;
      published := [];
    }

    /** `isAlive()`: a current process exists and is alive. */
    predicate IsAlive()
      reads this`currentProcess, currentProcess
    {
      currentProcess != null && currentProcess.alive
    }

    /** None of the executor's own objects belongs to its handler. */
    lemma OwnApart()
      ensures this !in Repr(processHandler)
      ensures currentProcess != null ==> currentProcess !in Repr(processHandler)
      ensures outputStream != null ==> outputStream !in Repr(processHandler)
    {
      Apart(this, processHandler);
      if currentProcess != null { Apart(currentProcess, processHandler); }
      if outputStream != null { Apart(outputStream, processHandler); }
    }

    /** The handler is in a valid state and answers every event as `answer` says. */
    ghost predicate Answering(answer: RawEvent -> Outcome, engine: Engine)
      reads this`processHandler, Repr(processHandler)
    {
      Valid() && ViewValid(View(processHandler)) && AnswersFor(answer, View(processHandler), engine, this)
    }

    /** A step that leaves the handler's objects alone keeps it valid and its view as before. */
    twostate lemma HandlerKept()
      requires old(Valid()) && processHandler == old(processHandler)
      requires unchanged(Repr(processHandler))
      ensures Valid() && View(processHandler) == old(View(processHandler))
    {
    }

    /** A step that leaves the process, the streams and the sink alone keeps them as before. */
    twostate lemma StreamsKept(spec: ProcessSpec)
      requires old(Open(spec)) && currentProcess == old(currentProcess) && outputStream == old(outputStream)
      requires inputStream == old(inputStream) && errorStream == old(errorStream) && unchanged(outputStream)
      ensures Open(spec) && (old(Reading(spec)) ==> Reading(spec))
    {
    }

    /**
     * One call to the handler, recorded; the handler answers as `answer`
     * says and keeps its rules and flags.
     */
    method Publish(event: RawEvent, engine: Engine, ghost answer: RawEvent -> Outcome) returns (o: Outcome)
      requires Answering(answer, engine) && Source(event) == this
      modifies this`published, Repr(processHandler)
      ensures Answering(answer, engine) && View(processHandler) == old(View(processHandler))
      ensures published == old(published) + [Notice(processHandler, event)]
      ensures o == answer(event)
    {
      var h := processHandler;
      Apart(this, h);
      o := Notify(h, event, engine);
      match event {
        case Console(m) => assert event == Console(OutputMessageEvent(this, m.message));
        case Error(m) => assert event == Error(OutputErrorEvent(this, m.errorMessage));
        case Finished(f) => assert event == Finished(OutputFinishedEvent(this, f.wasNaturalEnd));
      }
      published := published + [Notice(h, event)];
    }

    /**
     * `start(args)`: with a live current process it throws
     * `IllegalStateException` and changes nothing; when the factory throws,
     * that exception propagates and the current process stays; otherwise the
     * new process becomes current, fresh readers are opened on its streams,
     * and the read loop runs to its end on this thread, the process itself
     * being returned unless the loop threw.
     */
    method Start(args: seq<string>, engine: Engine) returns (r: Result<Process>)
      requires Valid()
      modifies this`currentProcess, this`inputStream, this`errorStream, this`outputStream, this`published
      modifies Repr(processHandler)
      ensures Valid() && View(processHandler) == old(View(processHandler))
      ensures old(IsAlive()) ==>
                r == Throw(IllegalState) && published == old(published) && currentProcess == old(currentProcess)
                && inputStream == old(inputStream) && errorStream == old(errorStream) && outputStream == old(outputStream)
      ensures !old(IsAlive()) && processFactory(args).Throw? ==>
                r == Throw(processFactory(args).ex) && published == old(published) && currentProcess == old(currentProcess)
                && inputStream == old(inputStream) && errorStream == old(errorStream) && outputStream == old(outputStream)
      ensures !old(IsAlive()) && processFactory(args).Ok? ==>
                ViewValid(old(View(processHandler)))
                && Launched(processFactory(args).value, ProcessRun(this, processHandler, old(View(processHandler)), processFactory(args).value, engine), r)
                && fresh(currentProcess) && fresh(outputStream) && published == old(published) + ProcessRun(this, processHandler, old(View(processHandler)), processFactory(args).value, engine).notices
    {
      OwnApart();
      if currentProcess != null && currentProcess.alive {
        return Throw(IllegalState);
      }
      match processFactory(args) {
        case Throw(ex) =>
          return Throw(ex);
        case Ok(spec) =>
          r := Launch(spec, engine);
      }
    }

    /**
     * After `run`: the process `spec` is current, its readers and sink are
     * closed exactly when the loop reached its end, and the result is the
     * process, or the exception that ended the loop.
     */
    ghost predicate Launched(spec: ProcessSpec, run: Run, r: Result<Process>)
      reads this`currentProcess, currentProcess, this`inputStream, this`errorStream, this`outputStream, outputStream
    {
      currentProcess != null && currentProcess.spec == spec && currentProcess.alive == spec.alive
      && outputStream != null
      && inputStream.Some? && errorStream.Some? && inputStream.value.closed == run.closed
      && errorStream.value.closed == run.closed && outputStream.closed == run.closed
      && r == if run.failure.None? then Ok(currentProcess) else Throw(run.failure.value)
    }

    /**
     * The rest of `start(args)` once the factory has built `spec`: the new
     * process becomes current, fresh readers are opened on its streams, and
     * the read loop runs to its end on this thread.
     */
    method Launch(spec: ProcessSpec, engine: Engine) returns (r: Result<Process>)
      requires Valid()
      modifies this`currentProcess, this`inputStream, this`errorStream, this`outputStream, this`published
      modifies Repr(processHandler)
      ensures Valid() && View(processHandler) == old(View(processHandler)) && ViewValid(old(View(processHandler)))
      ensures var run := ProcessRun(this, processHandler, old(View(processHandler)), spec, engine);
              Launched(spec, run, r) && fresh(currentProcess) && fresh(outputStream)
              && published == old(published) + run.notices
    {
      OwnApart();
      ValidHandlerView(processHandler);
      ghost var v := View(processHandler);
      ResponderAnswers(v, engine, this);
      label BeforeInit:
      currentProcess := new Process(spec);
      InitTask();
      HandlerKept@BeforeInit();
      var o := HandleProcess(engine, Responder(v, engine));
      if o.Fail? {
        return Throw(o.ex);
      }
      return Ok(currentProcess);
    }

    /**
     * `initTask()`: fresh readers on the current process's two output
     * streams, and a fresh sink on its input; the read loop can begin.
     */
    method InitTask()
      requires currentProcess != null
      modifies this`inputStream, this`errorStream, this`outputStream
      ensures fresh(outputStream)
      ensures Reading(currentProcess.spec) && inputStream.value.position == 0
    {
      inputStream := Some(Reader(currentProcess.spec.stdout, currentProcess.spec.stdoutEnd, 0, false));
      errorStream := Some(Reader(currentProcess.spec.stderr, currentProcess.spec.stderrEnd, 0, false));
      outputStream := new OutputSink();
    }

    /**
     * The current process runs as `spec` says and its three streams are
     * open, the two readers on its two output streams.
     */
    ghost predicate Open(spec: ProcessSpec)
      reads this`currentProcess, this`inputStream, this`errorStream, this`outputStream, outputStream
    {
      currentProcess != null && currentProcess.spec == spec
      && inputStream.Some? && errorStream.Some? && outputStream != null
      && inputStream.value.lines == spec.stdout && inputStream.value.end == spec.stdoutEnd
      && errorStream.value.lines == spec.stderr && errorStream.value.end == spec.stderrEnd
      && ReaderValid(inputStream.value) && ReaderValid(errorStream.value)
      && !inputStream.value.closed && !errorStream.value.closed && !outputStream.closed
    }

    /**
     * The read loop is under way on `spec`: the standard-output reader at
     * turn `Turns()`, and the error reader one poll per earlier turn along.
     */
    ghost predicate Reading(spec: ProcessSpec)
      reads this`currentProcess, this`inputStream, this`errorStream, this`outputStream, outputStream
    {
      Open(spec) && errorStream.value.position == Min(inputStream.value.position, |spec.stderr|)
    }

    /** The number of standard-output lines read so far: the turns of the loop begun. */
    function Turns(): nat
      reads this`inputStream
    {
      if inputStream.Some? then inputStream.value.position else 0
    }

    /**
     * `handleProcess()`: the read loop over the current process, as
     * `Transcript` describes it for a handler answering as `answer`, an
     * exception ending it being returned.
     */
    method HandleProcess(engine: Engine, ghost answer: RawEvent -> Outcome) returns (o: Outcome)
      requires Answering(answer, engine)
      requires currentProcess != null && currentProcess.alive == currentProcess.spec.alive
      requires Reading(currentProcess.spec) && Turns() == 0
      modifies this`published, this`inputStream, this`errorStream, Repr(processHandler), outputStream
      ensures Answering(answer, engine) && View(processHandler) == old(View(processHandler))
      ensures var run := Transcript(this, processHandler, answer, currentProcess.spec, 0, []);
              published == old(published) + run.notices
              && inputStream.Some? && errorStream.Some? && inputStream.value.closed == run.closed
              && errorStream.value.closed == run.closed && outputStream.closed == run.closed
              && FailureOf(o) == run.failure
    {
      OwnApart();
      ghost var spec := currentProcess.spec;
      ghost var start := published;
      TranscriptExtends(this, processHandler, answer, spec, 0, start, []);
      assert start + [] == start;
      var t := ReadLoop(engine, spec, answer);
      if t.Failed? {
        return Fail(t.ex);
      }
      o := Finish(engine, spec, answer);
    }

    /**
     * The `while` loop of `handleProcess()`, from the current turn to the
     * end of standard output or the first exception.
     */
    method ReadLoop(engine: Engine, ghost spec: ProcessSpec, ghost answer: RawEvent -> Outcome) returns (t: TurnEnd)
      requires Answering(answer, engine) && Reading(spec)
      modifies this`published, this`inputStream, this`errorStream, Repr(processHandler)
      ensures Answering(answer, engine) && View(processHandler) == old(View(processHandler)) && Open(spec)
      ensures var before := Transcript(this, processHandler, answer, spec, old(Turns()), old(published));
              var fin := FinishedEvent(this, spec);
              match t
              case Continue => false
              case AtEnd => before == Run(published + [Notice(processHandler, fin)], true, FailureOf(answer(fin)))
              case Failed(ex) => before == Run(published, false, Some(ex))
    {
      OwnApart();
      ghost var h := processHandler;
      ghost var v := View(h);
      ghost var final := Transcript(this, h, answer, spec, Turns(), published);
      while true
        invariant Answering(answer, engine) && View(h) == v && Reading(spec)
        invariant Transcript(this, h, answer, spec, Turns(), published) == final
        decreases |spec.stdout| - Turns()
      {
        t := Turn(engine, spec, answer);
        if !t.Continue? {
          return;
        }
      }
    }

    /**
     * One turn of the read loop: a standard-output line is read, and the
     * rest of the turn follows; the turn is `LoopStep` on the calls so far.
     */
    method Turn(engine: Engine, ghost spec: ProcessSpec, ghost answer: RawEvent -> Outcome) returns (t: TurnEnd)
      requires Answering(answer, engine) && Reading(spec)
      modifies this`published, this`inputStream, this`errorStream, Repr(processHandler)
      ensures Answering(answer, engine) && View(processHandler) == old(View(processHandler))
      ensures Open(spec) && (!t.Failed? ==> Reading(spec))
      ensures var before := Transcript(this, processHandler, answer, spec, old(Turns()), old(published));
              var fin := FinishedEvent(this, spec);
              match t
              case Continue =>
                Turns() == old(Turns()) + 1
                && before == Transcript(this, processHandler, answer, spec, Turns(), published)
              case AtEnd =>
                published == old(published) && before == Run(published + [Notice(processHandler, fin)], true, FailureOf(answer(fin)))
              case Failed(ex) => before == Run(published, false, Some(ex))
    {
      ghost var i := Turns();
      ghost var step := LoopStep(this, processHandler, answer, spec, i, published);
      assert Transcript(this, processHandler, answer, spec, i, published)
             == match step case Done(r) => r case Next(calls) => Transcript(this, processHandler, answer, spec, i + 1, calls);
      OwnApart();
      var read := ReadLine(inputStream.value);
      inputStream := Some(read.1);
      var line := read.0;
      match line {
        case Throw(ex) =>
          return Failed(ex);
        case Ok(None) =>
          return AtEnd;
        case Ok(Some(message)) =>
          assert step == ConsoleStep(this, processHandler, answer, spec, i, published, message);
          t := ConsoleTurn(message, engine, spec, i, answer);
      }
    }

    /** The rest of turn `i` after the standard-output line `message`: it is published as a console event. */
    method ConsoleTurn(message: string, engine: Engine, ghost spec: ProcessSpec, ghost i: nat,
                       ghost answer: RawEvent -> Outcome) returns (t: TurnEnd)
      requires Answering(answer, engine)
      requires Open(spec) && i < |spec.stdout| && Turns() == i + 1
      requires errorStream.value.position == Min(i, |spec.stderr|)
      modifies this`published, this`errorStream, Repr(processHandler)
      ensures Answering(answer, engine) && View(processHandler) == old(View(processHandler))
      ensures Open(spec) && Turns() == i + 1 && (t.Continue? ==> Reading(spec))
      ensures var s := ConsoleStep(this, processHandler, answer, spec, i, old(published), message);
              match t
              case Continue => s == Next(published)
              case AtEnd => false
              case Failed(ex) => s == Done(Run(published, false, Some(ex)))
    {
      OwnApart();
      label BeforeConsole:
      var o := Publish(Console(OutputMessageEvent(this, message)), engine, answer);
      StreamsKept@BeforeConsole(spec);
      if o.Fail? {
        return Failed(o.ex);
      }
      t := ErrorTurn(message, engine, spec, i, answer);
    }

    /**
     * The poll of the error stream that closes turn `i`: a line read there
     * is published as an error event carrying `message`.
     */
    method ErrorTurn(message: string, engine: Engine, ghost spec: ProcessSpec, ghost i: nat,
                     ghost answer: RawEvent -> Outcome) returns (t: TurnEnd)
      requires Answering(answer, engine)
      requires Open(spec) && i < |spec.stdout| && Turns() == i + 1
      requires errorStream.value.position == Min(i, |spec.stderr|)
      modifies this`published, this`errorStream, Repr(processHandler)
      ensures Answering(answer, engine) && View(processHandler) == old(View(processHandler))
      ensures Open(spec) && Turns() == i + 1 && (t.Continue? ==> Reading(spec))
      ensures var s := ErrorStep(this, processHandler, spec, i, message, old(published));
              match t
              case Continue => s == Next(published)
              case AtEnd => false
              case Failed(ex) => s == Done(Run(published, false, Some(ex)))
    {
      OwnApart();
      label BeforePoll:
      var poll := ReadLine(errorStream.value);
      errorStream := Some(poll.1);
      var error := poll.0;
      HandlerKept@BeforePoll();
      if error.Throw? {
        return Failed(error.ex);
      }
      if error.value.Some? {
        label BeforeError:
        var _ := Publish(Error(OutputErrorEvent(this, message)), engine, answer);
        StreamsKept@BeforeError(spec);
      }
      return Continue;
    }

    /**
     * The end of `handleProcess()`: the exit value, -1 for a process still
     * alive, the three streams closed, and the finished event published.
     */
    method Finish(engine: Engine, ghost spec: ProcessSpec, ghost answer: RawEvent -> Outcome) returns (o: Outcome)
      requires Answering(answer, engine)
      requires Open(spec) && currentProcess.alive == spec.alive
      modifies this`published, this`inputStream, this`errorStream, Repr(processHandler), outputStream
      ensures Answering(answer, engine) && View(processHandler) == old(View(processHandler))
      ensures published == old(published) + [Notice(processHandler, FinishedEvent(this, spec))]
      ensures inputStream.Some? && errorStream.Some? && outputStream != null
      ensures inputStream.value.closed && errorStream.value.closed && outputStream.closed
      ensures FailureOf(o) == FailureOf(answer(FinishedEvent(this, spec)))
    {
      OwnApart();
      var exitValue := -1;
      if !currentProcess.alive {
        exitValue := currentProcess.spec.exitCode;
      }
      label BeforeClose:
      CloseStreams();
      HandlerKept@BeforeClose();
      o := Publish(Finished(OutputFinishedEvent(this, exitValue == 0)), engine, answer);
    }

    /** The three `close()` calls. */
    method CloseStreams()
      requires inputStream.Some? && errorStream.Some? && outputStream != null
      modifies this`inputStream, this`errorStream, outputStream
      ensures inputStream == Some(old(inputStream.value).(closed := true))
      ensures errorStream == Some(old(errorStream.value).(closed := true))
      ensures outputStream.closed
    {
      inputStream := Some(inputStream.value.(closed := true));
      errorStream := Some(errorStream.value.(closed := true));
      outputStream.Close();
    }

    /** `setProcessFactory(factory)`. */
    method SetProcessFactory(factory: ProcessFactory)
      modifies this`processFactory
      ensures processFactory == factory
    {
      processFactory := factory;
    }

    /**
     * `haltTask()`: requests the destruction of the current process, if there
     * is one. Whether it is still alive afterwards is the operating system's
     * answer `ended`; a halted executor never becomes alive, and with no
     * process nothing happens.
     */
    method HaltTask(ended: bool)
      modifies currentProcess
      ensures IsAlive() == (old(IsAlive()) && !ended)
      ensures currentProcess == null ==> unchanged(this)
    {
      if currentProcess != null {
        currentProcess.DestroyForcibly(ended);
      }
    }

    /** `getOutputStream()`: the sink of the last process started, or null before the first. */
    method GetOutputStream() returns (s: OutputSink?)
      ensures s == outputStream
    {
      s := outputStream;
    }

    /**
     * `setProcessHandler(handler)`: every later call goes to `handler`, which
     * may be `null` (`NullHandler`): then every later call throws
     * `NullPointerException`.
     */
    method SetProcessHandler(handler: ProcessHandler)
      requires HandlerValid(handler)
      modifies this`processHandler
      ensures processHandler == handler && Valid()
    {
      processHandler := handler;
    }
  }
}
