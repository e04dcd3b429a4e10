/** `process.builder.event.generic.GenericEventGroup`: an ordered list of listeners. */
module EventGroups {

  import opened Base
  import opened Lists

  /**
   * What one fan-out produced: the effect of every action that completed, in
   * list order, and the exception that stopped it, if any.
   */
  datatype FanOutResult<E> = FanOutResult(effects: seq<E>, failure: Option<Exception>)

  /**
   * `forEach(action)` over `listeners`: the action runs on each listener in
   * list order, once per occurrence; the first action that throws ends the
   * fan-out and its exception propagates.
   */
  function FanOut<L, E>(listeners: seq<L>, action: L -> Result<E>): (r: FanOutResult<E>)
    ensures |r.effects| <= |listeners|
    decreases |listeners|
  {
    if |listeners| == 0 then FanOutResult([], None)
    else
      var init := FanOut(listeners[..|listeners| - 1], action);
      if init.failure.Some? then init
      else
        match action(listeners[|listeners| - 1])
        case Ok(e) => FanOutResult(init.effects + [e], None)
        case Throw(ex) => FanOutResult(init.effects, Some(ex))
  }

  /** The effects of an action that never throws, listener by listener. */
  function Applied<L, E>(listeners: seq<L>, action: L -> Result<E>): (r: seq<E>)
    requires forall i :: 0 <= i < |listeners| ==> action(listeners[i]).Ok?
    ensures |r| == |listeners|
    ensures forall i :: 0 <= i < |listeners| ==> r[i] == action(listeners[i]).value
  {
    seq(|listeners|, i requires 0 <= i < |listeners| => action(listeners[i]).value)
  }

  /**
   * An action that never throws runs exactly once per list entry, in list
   * order, and the fan-out succeeds.
   */
  lemma {:induction false} FanOutTotal<L, E>(listeners: seq<L>, action: L -> Result<E>)
    requires forall i :: 0 <= i < |listeners| ==> action(listeners[i]).Ok?
    ensures FanOut(listeners, action) == FanOutResult(Applied(listeners, action), None)
    decreases |listeners|
  {
    if |listeners| > 0 {
      var init := listeners[..|listeners| - 1];
      assert forall i :: 0 <= i < |init| ==> init[i] == listeners[i];
      FanOutTotal(init, action);
      assert Applied(init, action) + [action(listeners[|listeners| - 1]).value] == Applied(listeners, action);
    }
  }

  /**
   * When an action throws, the fan-out stops at the first listener it
   * throws on: the earlier listeners have had their effect, the later ones
   * are never reached.
   */
  lemma {:induction false} FanOutStopsAtFirstFailure<L, E>(listeners: seq<L>, action: L -> Result<E>, k: nat)
    requires k < |listeners| && action(listeners[k]).Throw?
    requires forall i :: 0 <= i < k ==> action(listeners[i]).Ok?
    ensures FanOut(listeners, action)
            == FanOutResult(Applied(listeners[..k], action), Some(action(listeners[k]).ex))
    decreases |listeners|
  {
    var init := listeners[..|listeners| - 1];
    if k < |listeners| - 1 {
      assert init[k] == listeners[k] && init[..k] == listeners[..k];
      assert forall i :: 0 <= i < k ==> init[i] == listeners[i];
      FanOutStopsAtFirstFailure(init, action, k);
    } else {
      assert init == listeners[..k];
      FanOutTotal(init, action);
    }
  }

  class GenericEventGroup<L(==)> {
    /** The listeners, in insertion order; duplicates allowed. */
    var listeners: seq<L>

    constructor ()
      ensures listeners == []
    {
      listeners := [];
    }

    /** `addListener(l)`: appends `l` at the end, even when it is already present. */
    method AddListener(l: L)
      modifies this
      ensures listeners == old(listeners) + [l]
    {
      listeners := listeners + [l];
    }

    /** `removeListener(l)`: removes the first occurrence of `l` only; absent, nothing changes. */
    method RemoveListener(l: L)
      modifies this
      ensures listeners == RemoveFirst(old(listeners), l)
    {
      listeners := RemoveFirst(listeners, l);
    }

    /** `forEach(action)`: runs the action over the listeners in list order. */
    method ForEach<E>(action: L -> Result<E>) returns (r: FanOutResult<E>)
      ensures r == FanOut(listeners, action)
    {
      var effects: seq<E> := [];
      var i := 0;
      while i < |listeners|
        invariant 0 <= i <= |listeners|
        invariant FanOut(listeners[..i], action) == FanOutResult(effects, None)
      {
        assert listeners[..i + 1][..i] == listeners[..i];
        match action(listeners[i])
        case Throw(ex) =>
          FanOutPrefixFailure(listeners, action, i + 1);
          return FanOutResult(effects, Some(ex));
        case Ok(e) =>
          effects := effects + [e];
        i := i + 1;
      }
      assert listeners[..i] == listeners;
      return FanOutResult(effects, None);
    }
  }

  /** A failure in a prefix of the list is the failure of the whole fan-out. */
  lemma {:induction false} FanOutPrefixFailure<L, E>(listeners: seq<L>, action: L -> Result<E>, n: nat)
    requires n <= |listeners| && FanOut(listeners[..n], action).failure.Some?
    ensures FanOut(listeners, action) == FanOut(listeners[..n], action)
    decreases |listeners| - n
  {
    if n < |listeners| {
      assert listeners[..n + 1][..n] == listeners[..n];
      FanOutPrefixFailure(listeners, action, n + 1);
    } else {
      assert listeners[..n] == listeners;
    }
  }

  /**
   * Adding an absent listener and removing it again restores the list; in
   * between, one fan-out reaches it exactly once, and a second fan-out after
   * the removal does not reach it at all.
   */
  lemma AddFanOutRemoveFanOut<L, E>(listeners: seq<L>, l: L, action: L -> Result<E>)
    requires l !in listeners
    requires forall i :: 0 <= i < |listeners| ==> action(listeners[i]).Ok?
    requires action(l).Ok?
    ensures RemoveFirst(listeners + [l], l) == listeners
    ensures FanOut(listeners + [l], action).effects == Applied(listeners, action) + [action(l).value]
    ensures FanOut(RemoveFirst(listeners + [l], l), action).effects == Applied(listeners, action)
    ensures Count(listeners + [l], l) + Count(RemoveFirst(listeners + [l], l), l) == 1
  {
    AppendThenRemove(listeners, l);
    AppendedTotal(listeners, l, action);
    FanOutTotal(listeners + [l], action);
    FanOutTotal(listeners, action);
    AppliedSnoc(listeners, l, action);
    AppendedOnce(listeners, l);
  }

  lemma AppendedTotal<L, E>(listeners: seq<L>, l: L, action: L -> Result<E>)
    requires forall i :: 0 <= i < |listeners| ==> action(listeners[i]).Ok?
    requires action(l).Ok?
    ensures forall i :: 0 <= i < |listeners + [l]| ==> action((listeners + [l])[i]).Ok?
  {
    forall i | 0 <= i < |listeners + [l]| ensures action((listeners + [l])[i]).Ok? {
      if i < |listeners| { assert (listeners + [l])[i] == listeners[i]; }
    }
  }

  lemma AppliedSnoc<L, E>(listeners: seq<L>, l: L, action: L -> Result<E>)
    requires forall i :: 0 <= i < |listeners| ==> action(listeners[i]).Ok?
    requires action(l).Ok?
    requires forall i :: 0 <= i < |listeners + [l]| ==> action((listeners + [l])[i]).Ok?
    ensures Applied(listeners + [l], action) == Applied(listeners, action) + [action(l).value]
  {
  }

  lemma AppendedOnce<T>(s: seq<T>, x: T)
    requires x !in s
    ensures Count(s + [x], x) == 1
  {
    CountAppend(s, [x], x);
    assert Count(s, x) == 0;
    assert [x][1..] == [];
  }
}
