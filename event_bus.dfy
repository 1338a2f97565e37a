/**
 * The `EventBus` of `EventBusProvider`: one event, `fileModified`, with a
 * listener list that `on` appends to, whose unsubscribe closure reassigns a
 * filtered copy, and which `emit` walks in registration order.
 */
module EventBusProvider {
  import opened Lists

  /** Identity of a handler function: unsubscribing compares handlers with `!==`. */
  type Handler = nat

  datatype FileModifiedPayload = FileModifiedPayload(filePath: string)

  /** One call `handler(payload)` made by `emit`. */
  datatype Invocation = Invocation(handler: Handler, payload: FileModifiedPayload)

  /** `s` with every handler of `hs` unsubscribed. */
  function WithoutAll(s: seq<Handler>, hs: seq<Handler>): seq<Handler>
  {
    Filter(s, h => h !in hs)
  }

  /**
   * The handlers whose unsubscribe closures are called while `handlers` run,
   * in call order; `reaction(h)` lists those that running `h` unsubscribes.
   */
  function UnsubscribedBy(handlers: seq<Handler>, reaction: Handler -> seq<Handler>): seq<Handler>
  {
    if handlers == [] then []
    else UnsubscribedBy(handlers[..|handlers| - 1], reaction) + reaction(handlers[|handlers| - 1])
  }

  lemma {:induction false} WithoutAllSnoc(s: seq<Handler>, hs: seq<Handler>, h: Handler)
    ensures Without(WithoutAll(s, hs), h) == WithoutAll(s, hs + [h])
  {
    if s != [] {
      WithoutAllSnoc(s[1..], hs, h);
    }
  }

  lemma UnsubscribedBySnoc(handlers: seq<Handler>, i: nat, reaction: Handler -> seq<Handler>)
    requires i < |handlers|
    ensures UnsubscribedBy(handlers[..i + 1], reaction) == UnsubscribedBy(handlers[..i], reaction) + reaction(handlers[i])
  {
    assert handlers[..i + 1][..i] == handlers[..i];
  }

  lemma {:induction false} WithoutAllNone(s: seq<Handler>)
    ensures WithoutAll(s, []) == s
  {
    if s != [] {
      WithoutAllNone(s[1..]);
    }
  }

  class EventBus {
    /** `listeners.fileModified` */
    var listeners: seq<Handler>

    /** The `fileModified` list starts empty. */
    constructor ()
      ensures listeners == []
    {
      listeners := [];
    }

    /** `on("fileModified", handler)`: appends `handler`; the returned closure unsubscribes that handler. */
    method On(handler: Handler) returns (unsubscribe: Handler)
      modifies this
      ensures listeners == old(listeners) + [handler]
      ensures unsubscribe == handler
    {
      listeners := listeners + [handler];
      unsubscribe := handler;
    }

    /**
     * The unsubscribe closure of `handler`: every occurrence of it is
     * removed and the other handlers keep their order; a second call
     * changes nothing more.
     */
    method Unsubscribe(handler: Handler)
      modifies this
      ensures listeners == Without(old(listeners), handler)
      ensures IsSubsequence(listeners, old(listeners))
      ensures Without(listeners, handler) == listeners
    {
      WithoutIsSubsequence(listeners, handler);
      WithoutIdempotent(listeners, handler);
      listeners := Without(listeners, handler);
    }

    /**
     * `emit("fileModified", payload)`: calls every handler registered when
     * the emit starts, in registration order, with `payload`. A handler
     * unsubscribed by an earlier one is still called, because unsubscribing
     * reassigns the list while the loop walks the old one. Emit itself
     * removes nothing: the list only loses what the handlers unsubscribe.
     */
    method Emit(payload: FileModifiedPayload, reaction: Handler -> seq<Handler>) returns (invocations: seq<Invocation>)
      modifies this
      ensures |invocations| == |old(listeners)|
      ensures forall i :: 0 <= i < |invocations| ==> invocations[i] == Invocation(old(listeners)[i], payload)
      ensures listeners == WithoutAll(old(listeners), UnsubscribedBy(old(listeners), reaction))
    {
      var handlers := listeners;
      invocations := [];
      WithoutAllNone(handlers);
      assert handlers[..0] == [];
      ghost var gone: seq<Handler> := [];
      var i := 0;
      while i < |handlers|
        invariant 0 <= i <= |handlers|
        invariant |invocations| == i
        invariant forall k :: 0 <= k < i ==> invocations[k] == Invocation(handlers[k], payload)
        invariant gone == UnsubscribedBy(handlers[..i], reaction)
        invariant listeners == WithoutAll(handlers, gone)
      {
        invocations := invocations + [Invocation(handlers[i], payload)];
        UnsubscribedBySnoc(handlers, i, reaction);
        UnsubscribeAll(reaction(handlers[i]), handlers, gone);
        gone := gone + reaction(handlers[i]);
        i := i + 1;
      }
      assert handlers[..i] == handlers;
    }

    /** The unsubscribe closures of `hs` called one after another (what a handler does while it runs). */
    method UnsubscribeAll(hs: seq<Handler>, ghost base: seq<Handler>, ghost done: seq<Handler>)
      requires listeners == WithoutAll(base, done)
      modifies this
      ensures listeners == WithoutAll(base, done + hs)
    {
      var j := 0;
      assert done + hs[..0] == done;
      while j < |hs|
        invariant 0 <= j <= |hs|
        invariant listeners == WithoutAll(base, done + hs[..j])
      {
        WithoutAllSnoc(base, done + hs[..j], hs[j]);
        assert done + hs[..j + 1] == done + hs[..j] + [hs[j]];
        Unsubscribe(hs[j]);
        j := j + 1;
      }
      assert hs[..j] == hs;
    }
  }
}
