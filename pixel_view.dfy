/**
 * The side-panel provider that every effect talks to. Messages are handed to
 * the webview straight away only once it has said it is ready and a view is
 * attached; until then they wait in a first-in first-out queue, drained when
 * the ready message arrives, after the ready listeners have run.
 *
 * An `update` does not copy the buffer it is given: the queue holds the live
 * array, so a queued update shows the buffer as it is when the queue drains.
 * A message handed to the webview is serialised there and then, so the
 * webview's list holds snapshots.
 */
module PixelView {
  import opened Wrappers
  import opened JsArray

  datatype SoundType = Normal | EnterSound

  /**
   * What the webview receives. Shake intensity is in tenths (none: the
   * webview's default strength), pitch in hundredths of the normal rate.
   */
  datatype Message =
    | Shake(intensity: Option<nat>)
    | PlaySound(sound: SoundType, pitch: int)
    | ToggleSound(enabled: bool)
    | BufferUpdate(buffer: seq<string>)

  /** A queue entry: a message, or an update still holding the live buffer array. */
  datatype Queued = Post(msg: Message) | UpdateOf(buffer: StringArray)

  function Buffers(qs: seq<Queued>): set<StringArray> {
    set q | q in qs && q.UpdateOf? :: q.buffer
  }

  /** What a queue entry is when it is finally handed over. */
  function Resolve(q: Queued): (m: Message)
    reads Buffers([q])
    ensures q.Post? ==> m == q.msg
    ensures q.UpdateOf? ==> m == BufferUpdate(q.buffer.elems)
  {
    match q
    case Post(msg) => msg
    case UpdateOf(b) => BufferUpdate(b.elems)
  }

  /** The messages a queue becomes when drained, in order. */
  function ResolveAll(qs: seq<Queued>): (ms: seq<Message>)
    reads Buffers(qs)
    ensures |ms| == |qs|
  {
    if qs == [] then [] else [Resolve(qs[0])] + ResolveAll(qs[1..])
  }

  lemma {:induction false} ResolveAllAt(qs: seq<Queued>, i: nat)
    requires i < |qs|
    ensures ResolveAll(qs)[i] == Resolve(qs[i])
    decreases i
  {
    if i > 0 {
      ResolveAllAt(qs[1..], i - 1);
    }
  }

  /** Draining keeps order: the front entries come out first, each exactly once. */
  lemma {:induction false} ResolveAllAppend(a: seq<Queued>, b: seq<Queued>)
    ensures ResolveAll(a + b) == ResolveAll(a) + ResolveAll(b)
    decreases |a|
  {
    if a == [] {
      assert a + b == b;
    } else {
      assert (a + b)[0] == a[0];
      assert (a + b)[1..] == a[1..] + b;
      ResolveAllAppend(a[1..], b);
      calc {
        ResolveAll(a + b);
        [Resolve(a[0])] + ResolveAll(a[1..] + b);
        [Resolve(a[0])] + (ResolveAll(a[1..]) + ResolveAll(b));
        ([Resolve(a[0])] + ResolveAll(a[1..])) + ResolveAll(b);
      }
    }
  }

  /** Handing a message over changes the provider, never a buffer a queue entry holds. */
  lemma BuffersAreNotProvider(p: Provider, qs: seq<Queued>)
    ensures forall o | o in Buffers(qs) :: o as object != p
  {
  }

  class Provider {
    /** Whether `resolveWebviewView` has attached a view (never detached again). */
    var hasView: bool
    var isReady: bool
    var queue: seq<Queued>
    /** Every message handed to the webview, in order. */
    var delivered: seq<Message>

    /** The gate opens only with a view attached. */
    ghost predicate Valid()
      reads this
    {
      isReady ==> hasView
    }

    constructor ()
      ensures Valid() && !hasView && !isReady && queue == [] && delivered == []
    {
      hasView := false;
      isReady := false;
      queue := [];
      delivered := [];
    }

    /** The panel is shown: a view is attached. The ready handler is registered on it. */
    method ResolveWebviewView()
      requires Valid()
      modifies this
      ensures Valid() && hasView
      ensures isReady == old(isReady) && queue == old(queue) && delivered == old(delivered)
    {
      hasView := true;
    }

    /** Whether a message goes straight to the webview. */
    predicate Open()
      reads this
    {
      isReady && hasView
    }

    /** `update(buffer)`: hand over a snapshot when open, else queue the live array. */
    method Update(buffer: StringArray)
      requires Valid()
      modifies this
      ensures Valid() && hasView == old(hasView) && isReady == old(isReady)
      ensures old(Open()) ==> delivered == old(delivered) + [BufferUpdate(buffer.elems)] && queue == old(queue)
      ensures !old(Open()) ==> queue == old(queue) + [UpdateOf(buffer)] && delivered == old(delivered)
    {
      if isReady && hasView {
        delivered := delivered + [BufferUpdate(buffer.elems)];
      } else {
        queue := queue + [UpdateOf(buffer)];
      }
    }

    /** `postMessage(message)`: hand over when open, else queue. */
    method PostMessage(m: Message)
      requires Valid()
      modifies this
      ensures Valid() && hasView == old(hasView) && isReady == old(isReady)
      ensures old(Open()) ==> delivered == old(delivered) + [m] && queue == old(queue)
      ensures !old(Open()) ==> queue == old(queue) + [Post(m)] && delivered == old(delivered)
    {
      if isReady && hasView {
        delivered := delivered + [m];
      } else {
        queue := queue + [Post(m)];
      }
    }

    /** Hand over every queued entry, front first, if a view is attached; otherwise keep the queue. */
    method ProcessMessageQueue()
      modifies this
      ensures hasView == old(hasView) && isReady == old(isReady)
      ensures old(hasView) ==> queue == [] && delivered == old(delivered) + ResolveAll(old(queue))
      ensures !old(hasView) ==> queue == old(queue) && delivered == old(delivered)
    {
      if hasView {
        ghost var waiting := ResolveAll(queue);
        while |queue| > 0
          invariant hasView == old(hasView) && isReady == old(isReady)
          invariant delivered + ResolveAll(queue) == old(delivered) + waiting
          decreases |queue|
        {
          var q := queue[0];
          var m := Resolve(q);
          ghost var rest := ResolveAll(queue[1..]);
          assert ResolveAll(queue) == [m] + rest;
          ghost var d0 := delivered;
          queue := queue[1..];
          delivered := delivered + [m];
          BuffersAreNotProvider(this, queue);
          assert d0 + ([m] + rest) == (d0 + [m]) + rest;
        }
        BuffersAreNotProvider(this, old(queue));
      }
    }

    /**
     * A message from the webview. `"ready"` marks the gate ready, runs the
     * ready listeners, whose messages (`listenerPosts`) are therefore handed
     * over directly, and then drains the queue. Anything else is ignored.
     */
    method ReceiveMessage(command: string, listenerPosts: seq<Message>)
      requires Valid() && hasView
      modifies this
      ensures Valid() && hasView
      ensures command == "ready" ==>
        && isReady && queue == []
        && delivered == old(delivered) + listenerPosts + ResolveAll(old(queue))
      ensures command != "ready" ==>
        isReady == old(isReady) && queue == old(queue) && delivered == old(delivered)
    {
      if command == "ready" {
        isReady := true;
        ghost var waiting := queue;
        ghost var before := delivered;
        for j := 0 to |listenerPosts|
          invariant isReady && hasView && queue == waiting
          invariant delivered == before + listenerPosts[..j]
        {
          PostMessage(listenerPosts[j]);
          assert listenerPosts[..j + 1] == listenerPosts[..j] + [listenerPosts[j]];
        }
        assert listenerPosts[..|listenerPosts|] == listenerPosts;
        ProcessMessageQueue();
      }
    }
  }

  /**
   * A queued update shows the buffer as it is when the queue drains, not as
   * it was when queued, and a ready listener's message overtakes it.
   */
  method QueuedUpdateSeesLaterPush() returns (delivered: seq<Message>)
    ensures delivered == [ToggleSound(true), BufferUpdate(["a", "b"])]
  {
    var provider := new Provider();
    var buffer := new StringArray();
    buffer.Push("a");
    provider.Update(buffer);
    buffer.Push("b");
    provider.ResolveWebviewView();
    provider.ReceiveMessage("ready", [ToggleSound(true)]);
    assert buffer.elems == ["a", "b"];
    assert ResolveAll([UpdateOf(buffer)]) == [BufferUpdate(["a", "b"])] by {
      assert [UpdateOf(buffer)][1..] == [];
    }
    delivered := provider.delivered;
  }
}
