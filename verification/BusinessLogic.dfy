/**
  The business logic processor's work on one input cell, on the real engine: dispatch the command,
  buffer its events, stamp what the buffer kept.  Run over a list of messages it produces exactly the
  output the pipeline is proved to deliver.
 */
module BusinessLogic {
  import opened Types
  import opened Handles
  import opened Exchange
  import opened ExchangeInvariant
  import opened Books
  import opened EventBuffers
  import opened Engines
  import opened Pipeline
  import Wire

  class BusinessLogicProcessor {
    const engine: Engine

    ghost function Repr(): set<object> {
      engine.Repr()
    }

    ghost predicate Valid()
      reads Repr()
    {
      engine.Valid()
    }

    constructor (cfg: Config)
      requires cfg.Valid() && cfg.capacity <= GENERATIONS
      ensures Valid() && fresh(Repr()) && engine.book.cfg == cfg && engine.Abs() == EMPTY
    {
      hide OrderBook.Valid, OrderBook.Queue, Inv, LocatorsOk, AccountsOk, Engine.Abs;
      engine := new Engine(cfg.basePrice, cfg.tickSize, cfg.capacity);
    }

    /** One command: to the handlers with a fresh event buffer, and out come the events it kept. */
    method Execute(cmd: Command) returns (kept: seq<OutputEvent>)
      requires Valid()
      modifies Repr()
      ensures Valid()
      ensures var r := Step(engine.book.cfg, old(engine.Abs()), cmd);
              && engine.Abs() == r.state && kept == Kept(r.events)
              && kept <= r.events && |kept| == if |r.events| < 16 then |r.events| else 16
    {
      hide Engine.Abs, OrderBook.Valid, Inv, LocatorsOk, AccountsOk, EventBuffer.Valid, Step, Kept;
      engine.InvParts();
      var out := new EventBuffer();
      ghost var events := Step(engine.book.cfg, engine.Abs(), cmd).events;
      assert [] + events == events;
      engine.Process(cmd, out);
      kept := out.Drain();
    }

    /** One input cell: an unparsed message is skipped. */
    method OnSlot(command: Option<Command>, timestamp: u64) returns (output: seq<Delivery>)
      requires Valid()
      modifies Repr()
      ensures Valid()
      ensures engine.book.cfg.Valid()
      ensures var r := Respond(engine.book.cfg, old(engine.Abs()), command, timestamp);
              engine.Abs() == r.state && output == r.output
      ensures command.None? ==> output == [] && engine.Abs() == old(engine.Abs())
      ensures command.Some? ==>
                var events := Step(engine.book.cfg, old(engine.Abs()), command.value).events;
                && |output| == (if |events| < 16 then |events| else 16)
                && forall i | 0 <= i < |output| :: output[i].event == events[i] && output[i].timestamp == timestamp
    {
      hide Engine.Abs, Step, Kept, Stamped;
      engine.InvParts();
      ResponseIs(engine.book.cfg, engine.Abs(), command, timestamp);
      match command
      case None =>
        output := [];
      case Some(cmd) =>
        var kept := Execute(cmd);
        output := Stamped(kept, timestamp);
    }
  }

  lemma NothingYet(st: Setup)
    requires st.Valid()
    ensures Sequential(st, 0) == Response(EMPTY, [])
  {
  }

  lemma OneMore(st: Setup, n: nat)
    requires st.Valid() && n < |st.inputs|
    ensures var before := Sequential(st, n);
            var r := Respond(st.cfg, before.state, CommandOf(st.inputs[n].raw), st.inputs[n].timestamp);
            Sequential(st, n + 1) == Response(r.state, before.output + r.output)
  {
    hide Respond, CommandOf;
  }

  /** The whole input, one message after the other, through the real reader and the real engine. */
  method ProcessAll(st: Setup) returns (output: seq<Delivery>)
    requires st.Valid() && st.cfg.capacity <= GENERATIONS
    ensures output == Sequential(st, |st.inputs|).output
  {
    hide Engine.Abs, OrderBook.Valid, Inv, LocatorsOk, AccountsOk, Respond, Sequential, Wire.Parse, Wire.Encode;
    NothingYet(st);
    var blp := new BusinessLogicProcessor(st.cfg);
    output := [];
    for n := 0 to |st.inputs|
      invariant blp.Valid() && fresh(blp.Repr()) && blp.engine.book.cfg == st.cfg
      invariant blp.engine.Abs() == Sequential(st, n).state
      invariant output == Sequential(st, n).output
    {
      OneMore(st, n);
      var parsed := Wire.ParseCommand(st.inputs[n].raw);
      var command := match parsed case Ok(cmd) => Some(cmd) case Err(_) => None;
      var more := blp.OnSlot(command, st.inputs[n].timestamp);
      output := output + more;
    }
  }
}
