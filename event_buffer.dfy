/** `EventBuffer` (event-buffer.ts): a listener that, while subscribed to one
    event of an emitter, appends the argument list of every emission of that
    event to a buffer; `condense` unsubscribes and hands the buffer back.

    The emitter is not modelled: its dispatch of an emission to this
    buffer's listener is the method `Emit`, and being registered with it is
    the flag `subscribed`. */
module EventBuffers {
  import opened JsValues

  /** An event key: a string name or a symbol (symbols compare by identity,
      modelled as a number). */
  datatype EventName = Named(name: string) | Symbol(id: nat)

  /** One emission: its event key and the arguments it was emitted with. */
  datatype Emission = Emission(name: EventName, args: seq<JsValue>)

  /** The argument lists of the emissions of `event` in `history`, in
      emission order: what the buffer holds after that history. */
  function Collected(event: EventName, history: seq<Emission>): (entries: seq<seq<JsValue>>) {
    if history == [] then []
    else
      var last := history[|history| - 1];
      Collected(event, history[..|history| - 1]) + (if last.name == event then [last.args] else [])
  }

  /** The positions in `history` of the emissions of `event`, ascending. */
  function Matching(event: EventName, history: seq<Emission>): (idx: seq<nat>)
    ensures forall k :: 0 <= k < |idx| ==> idx[k] < |history| && history[idx[k]].name == event
    ensures forall k, l :: 0 <= k < l < |idx| ==> idx[k] < idx[l]
    ensures forall j :: 0 <= j < |history| && history[j].name == event ==> j in idx
  {
    if history == [] then []
    else
      var n := |history| - 1;
      Matching(event, history[..n]) + (if history[n].name == event then [n] else [])
  }

  /** The buffer holds exactly the argument lists of the matching emissions,
      one entry per emission, in the order they were emitted. */
  lemma {:induction false} CollectedIsMatching(event: EventName, history: seq<Emission>)
    ensures var idx := Matching(event, history);
      |Collected(event, history)| == |idx| &&
      forall k :: 0 <= k < |idx| ==> Collected(event, history)[k] == history[idx[k]].args
  {
    if history != [] {
      CollectedIsMatching(event, history[..|history| - 1]);
    }
  }

  /** Later emissions only append: what was collected from a history stays,
      unchanged and in place, at the front of what is collected from any
      extension of it. */
  lemma {:induction false} CollectedGrowsAtEnd(event: EventName, history: seq<Emission>, later: seq<Emission>)
    ensures Collected(event, history) <= Collected(event, history + later)
  {
    if later != [] {
      var init := later[..|later| - 1];
      assert (history + later)[..|history + later| - 1] == history + init;
      CollectedGrowsAtEnd(event, history, init);
    } else {
      assert history + later == history;
    }
  }

  /** Emissions of other events contribute nothing. */
  lemma {:induction false} OtherEventsIgnored(event: EventName, history: seq<Emission>, later: seq<Emission>)
    requires forall k :: 0 <= k < |later| ==> later[k].name != event
    ensures Collected(event, history + later) == Collected(event, history)
  {
    if later != [] {
      var init := later[..|later| - 1];
      assert (history + later)[..|history + later| - 1] == history + init;
      OtherEventsIgnored(event, history, init);
    } else {
      assert history + later == history;
    }
  }

  class EventBuffer {
    /** The event key given at construction. */
    const event: EventName
    /** The collected argument lists (`_buffer`). */
    var buffer: seq<seq<JsValue>>
    /** Whether the collector is registered with the emitter. */
    var subscribed: bool
    /** Every emission of the emitter while subscribed, other events
        included. */
    ghost var heard: seq<Emission>

    ghost predicate Valid()
      reads this
    {
      buffer == Collected(event, heard)
    }

    /** `new EventBuffer(emitter, event)`: an empty buffer, subscribed. */
    constructor (event: EventName)
      ensures Valid()
      ensures this.event == event && buffer == [] && subscribed && heard == []
    {
      this.event := event;
      buffer := [];
      subscribed := true;
      heard := [];
    }

    /** The emitter emits `name` with `args`. While subscribed, an emission
        of the watched event appends its argument list as one new entry;
        anything else leaves the buffer as it was. */
    method Emit(name: EventName, args: seq<JsValue>)
      requires Valid()
      modifies this
      ensures Valid()
      ensures subscribed == old(subscribed)
      ensures heard == if old(subscribed) then old(heard) + [Emission(name, args)] else old(heard)
      ensures buffer == if old(subscribed) && name == event then old(buffer) + [args] else old(buffer)
    {
      if subscribed {
        heard := heard + [Emission(name, args)];
        if name == event {
          buffer := buffer + [args];
        }
      }
    }

    /** `condense()`: unsubscribes and returns everything collected; the
        buffer itself is kept, not cleared. */
    method Condense() returns (entries: seq<seq<JsValue>>)
      requires Valid()
      modifies this
      ensures Valid()
      ensures !subscribed
      ensures entries == buffer == old(buffer) && heard == old(heard)
    {
      subscribed := false;
      entries := buffer;
    }
  }

  /** A use of the buffer: emissions of another event are not collected,
      emissions after `condense` are ignored, and a second `condense` returns
      the same entries as the first. */
  method CondenseTwice(event: EventName, other: EventName, a1: seq<JsValue>, a2: seq<JsValue>, a3: seq<JsValue>)
    returns (first: seq<seq<JsValue>>, second: seq<seq<JsValue>>)
    requires other != event
    ensures first == [a1, a3]
    ensures second == first
  {
    var b := new EventBuffer(event);
    b.Emit(event, a1);
    b.Emit(other, a2);
    b.Emit(event, a3);
    first := b.Condense();
    b.Emit(event, a2);
    second := b.Condense();
  }
}
