/**
  The buffer the business logic processor hands to the handlers as their `emit`: the first sixteen
  events of a command are kept, later ones are dropped.
 */
module EventBuffers {
  import opened Types

  const BUFFERED: nat := 16

  /** What is kept of the events of one command: the first of them, sixteen at most. */
  function Kept(events: seq<OutputEvent>): (kept: seq<OutputEvent>)
    ensures kept <= events && |kept| == if |events| < 16 then |events| else 16
  {
    if |events| <= BUFFERED then events else events[..BUFFERED]
  }

  class EventBuffer {
    const events: array<Option<OutputEvent>>
    var count: nat
    ghost var emitted: seq<OutputEvent>

    ghost predicate Valid()
      reads Repr()
    {
      && events.Length == BUFFERED
      && count == |Kept(emitted)|
      && forall i | 0 <= i < BUFFERED :: events[i] == if i < count then Some(Kept(emitted)[i]) else None
    }

    ghost function Repr(): set<object> {
      {this, events}
    }

    constructor ()
      ensures Valid() && fresh(Repr()) && emitted == []
    {
      events := new Option<OutputEvent>[BUFFERED](_ => None);
      count := 0;
      emitted := [];
    }

    method Emit(event: OutputEvent)
      requires Valid()
      modifies Repr()
      ensures Valid() && emitted == old(emitted) + [event]
    {
      if count < events.Length {
        events[count] := Some(event);
        count := count + 1;
      }
      emitted := emitted + [event];
    }

    /** The buffered events, in order of emission. */
    method Drain() returns (kept: seq<OutputEvent>)
      requires Valid()
      ensures kept == Kept(emitted)
      ensures kept <= emitted && |kept| == if |emitted| < 16 then |emitted| else 16
    {
      kept := [];
      for i := 0 to count
        invariant kept == Kept(emitted)[..i]
      {
        if events[i].Some? {
          kept := kept + [events[i].value];
        }
      }
    }
  }
}
