/**
 * The raw events of `process.builder.event.raw` the executor hands to its
 * handler. Each targets the executor that produced it, kept as a plain
 * reference.
 */
module Events {

  /** `OutputMessageEvent`: one line of the process's standard output. */
  datatype OutputMessageEvent = OutputMessageEvent(target: object, message: string)

  /** `OutputErrorEvent`: published when the error stream yielded a line. */
  datatype OutputErrorEvent = OutputErrorEvent(target: object, errorMessage: string)

  /** `OutputFinishedEvent`: the end of the process's output. */
  datatype OutputFinishedEvent = OutputFinishedEvent(target: object, wasNaturalEnd: bool)
}
