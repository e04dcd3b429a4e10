/**
 * `ffmpeg.event.handler.event.FFMPEGEvent` and its two subclasses
 * `MessageEvent` and `ProgressEvent`: the handler that fired the event, the
 * listener it was delivered to, the group that listener belongs to, and the
 * payload.
 */
module FFMPEGEvents {

  import opened Base
  import Events
  import Progress

  datatype FFMPEGEvent =
    | MessageEvent(targetHandler: object, firedListener: object, eventGroup: object,
                   target: Events.OutputMessageEvent)
    | ProgressEvent(targetHandler: object, firedListener: object, eventGroup: object,
                    message: Progress.ProgressMessage)

  /** The runtime class `getClass()` compares. */
  predicate SameClass(a: FFMPEGEvent, b: FFMPEGEvent)
  {
    a.MessageEvent? == b.MessageEvent?
  }

  /**
   * `equals(o)`: true for the same reference; false for null and for an
   * object of another runtime class; otherwise the two target handlers are
   * compared with `equals`, which for a handler is identity.
   */
  predicate Equals(a: FFMPEGEvent, o: Option<FFMPEGEvent>)
  {
    if o.None? then false
    else if o.value == a then true
    else SameClass(a, o.value) && a.targetHandler == o.value.targetHandler
  }

  /**
   * `hashCode()`: `Objects.hash(handler)`, that is `31 * 1 + h` in `int`
   * arithmetic, where `h` is the handler's identity hash code.
   */
  function HashCode(e: FFMPEGEvent, identityHash: object -> int): (r: int)
    ensures -0x8000_0000 <= r < 0x8000_0000
  {
    WrapInt32(31 * 1 + identityHash(e.targetHandler))
  }

  /** Equality looks at the class and the handler and at nothing else. */
  lemma EqualsIffSameClassAndHandler(a: FFMPEGEvent, b: FFMPEGEvent)
    ensures Equals(a, Some(b)) <==> SameClass(a, b) && a.targetHandler == b.targetHandler
    ensures !Equals(a, None)
  {
  }

  /** Events of different classes never compare equal, whatever they carry. */
  lemma DifferentClassesDiffer(h: object, l: object, g: object,
                               t: Events.OutputMessageEvent, m: Progress.ProgressMessage)
    ensures !Equals(MessageEvent(h, l, g, t), Some(ProgressEvent(h, l, g, m)))
    ensures !Equals(ProgressEvent(h, l, g, m), Some(MessageEvent(h, l, g, t)))
  {
  }

  /** `equals` is an equivalence on events. */
  lemma EqualsIsEquivalence(a: FFMPEGEvent, b: FFMPEGEvent, c: FFMPEGEvent)
    ensures Equals(a, Some(a))
    ensures Equals(a, Some(b)) ==> Equals(b, Some(a))
    ensures Equals(a, Some(b)) && Equals(b, Some(c)) ==> Equals(a, Some(c))
  {
  }

  /** Equal events hash equally, for any identity hash the platform assigns. */
  lemma EqualEventsHashEqually(a: FFMPEGEvent, b: FFMPEGEvent, identityHash: object -> int)
    requires Equals(a, Some(b))
    ensures HashCode(a, identityHash) == HashCode(b, identityHash)
  {
  }

  /**
   * Two events of one class from the same handler are equal however much
   * their listeners, groups and payloads differ.
   */
  lemma PayloadIrrelevant(h: object, l1: object, g1: object, m1: Progress.ProgressMessage,
                          l2: object, g2: object, m2: Progress.ProgressMessage)
    ensures Equals(ProgressEvent(h, l1, g1, m1), Some(ProgressEvent(h, l2, g2, m2)))
  {
  }
}
