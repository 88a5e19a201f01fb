/**
  The disruptor pipeline as a state machine.

  Threads: the producer, one or more upstream consumers of the input ring (number 0 is the
  unmarshaller, the others are the journal and the replicator), the business logic processor (BLP),
  and the consumer of the output ring.  They share nothing but ring cells and monotone sequence
  numbers.  One step is one read or write of a shared sequence, or one access to a ring cell, together
  with the thread's own local work; a schedule is any finite interleaving of such steps.  The spin
  loops of the source are the steps that leave the state as it was.
 */
module Pipeline {
  import opened Types
  import opened Exchange
  import opened EventBuffers
  import opened RingBuffers
  import Wire

  // ---------------------------------------------------------------- the job

  /** A raw message and the time the producer stamps on it. */
  datatype Message = Message(raw: seq<u8>, timestamp: u64)

  /** What the output consumer reads from one cell. */
  datatype Delivery = Delivery(event: OutputEvent, timestamp: u64)

  datatype Setup = Setup(cfg: Config, inputs: seq<Message>, inCapacity: nat, outCapacity: nat, consumers: nat)
  {
    ghost predicate Valid() {
      cfg.Valid() && inCapacity >= 1 && outCapacity >= 1 && consumers >= 1
    }
  }

  /** The events of one command, stamped, as many as the event buffer keeps. */
  function Stamped(events: seq<OutputEvent>, timestamp: u64): (r: seq<Delivery>)
    ensures |r| == |events|
    ensures forall i | 0 <= i < |events| :: r[i] == Delivery(events[i], timestamp)
  {
    if events == [] then [] else [Delivery(events[0], timestamp)] + Stamped(events[1..], timestamp)
  }

  datatype Response = Response(state: State, output: seq<Delivery>)

  /** What the engine does about one parsed message; an unparsable one is skipped. */
  function Respond(cfg: Config, s: State, command: Option<Command>, timestamp: u64): Response
    requires cfg.Valid()
  {
    match command
    case None => Response(s, [])
    case Some(cmd) =>
      var r := Step(cfg, s, cmd);
      Response(r.state, Stamped(Kept(r.events), timestamp))
  }

  /** In numbers: nothing for no command; otherwise the first events of its step, sixteen at most, each with
      the timestamp. */
  lemma ResponseIs(cfg: Config, s: State, command: Option<Command>, timestamp: u64)
    requires cfg.Valid()
    ensures var r := Respond(cfg, s, command, timestamp);
            match command
            case None =>
              r.state == s && r.output == []
            case Some(cmd) =>
              var step := Step(cfg, s, cmd);
              && r.state == step.state
              && |r.output| == (if |step.events| < 16 then |step.events| else 16)
              && forall i | 0 <= i < |r.output| ::
                   r.output[i].event == step.events[i] && r.output[i].timestamp == timestamp
  {
    hide Step;
  }

  /** The command a raw message carries, if it parses. */
  function CommandOf(raw: seq<u8>): Option<Command> {
    match Wire.Parse(raw)
    case Ok(cmd) => Some(cmd)
    case Err(_) => None
  }

  /** The reference: parse and process the first `n` messages one by one. */
  function Sequential(st: Setup, n: nat): Response
    requires st.Valid() && n <= |st.inputs|
  {
    if n == 0 then Response(EMPTY, [])
    else
      var before := Sequential(st, n - 1);
      var r := Respond(st.cfg, before.state, CommandOf(st.inputs[n - 1].raw), st.inputs[n - 1].timestamp);
      Response(r.state, before.output + r.output)
  }

  // ---------------------------------------------------------------- the shared and local state

  datatype InSlot = InSlot(raw: seq<u8>, command: Option<Command>, timestamp: u64)

  datatype OutSlot = OutSlot(event: Option<OutputEvent>, timestamp: u64)

  datatype ProducerPc = Claiming | Writing | Publishing

  datatype UpstreamPc = Waiting | Reading | Storing | Advancing

  datatype BlpPc =
    | Polling(dep: nat, least: Option<int>)   // reading the barrier's dependencies one by one
    | ReadingSlot
    | Releasing                               // the input sequence is about to advance
    | Gating                                  // waiting for room in the output ring
    | WritingSlot
    | PublishingSlot

  datatype OutPc = OutWaiting | OutReading | OutAdvancing

  datatype Sys = Sys(
    // the producer
    nextSeq: nat, prodPc: ProducerPc, prodSeq: int,
    // the upstream consumers, and what the unmarshaller has parsed
    ups: seq<int>, upPcs: seq<UpstreamPc>, parsed: Option<Command>,
    inRing: seq<InSlot>,
    // the BLP: its input sequence, its engine, the events it still has to publish
    blpSeq: int, blpPc: BlpPc, engine: State, pending: seq<Delivery>,
    outRing: seq<OutSlot>, outSeq: int,
    // the output consumer and everything it has read so far
    consumed: int, outPc: OutPc, delivered: seq<Delivery>)

  function Initial(st: Setup): Sys {
    Sys(0, Claiming, -1,
        seq(st.consumers, _ => -1), seq(st.consumers, _ => Waiting), None,
        seq(st.inCapacity, _ => InSlot([], None, 0)),
        -1, Polling(0, None), EMPTY, [],
        seq(st.outCapacity, _ => OutSlot(None, 0)), -1,
        -1, OutWaiting, [])
  }

  ghost predicate Shape(st: Setup, s: Sys) {
    && st.Valid()
    && |s.ups| == |s.upPcs| == st.consumers && |s.inRing| == st.inCapacity && |s.outRing| == st.outCapacity
    && s.nextSeq <= |st.inputs| && (s.prodPc != Claiming ==> s.nextSeq >= 1)
    && s.prodSeq >= -1 && s.blpSeq >= -1 && s.outSeq >= -1 && s.consumed >= -1
    && (forall i | 0 <= i < |s.ups| :: s.ups[i] >= -1)
    && (s.blpPc.Polling? ==> s.blpPc.dep <= st.consumers)
    && (s.blpPc.Gating? || s.blpPc.WritingSlot? || s.blpPc.PublishingSlot? ==> s.pending != [])
  }

  // ---------------------------------------------------------------- steps

  datatype Thread = Producer | Upstream(i: nat) | Blp | Out

  /** `claim_next` and `publish`. */
  function ProducerStep(st: Setup, s: Sys): Sys
    requires Shape(st, s)
  {
    match s.prodPc
    case Claiming =>
      if s.nextSeq < |st.inputs| && s.blpSeq >= s.nextSeq - st.inCapacity
      then s.(nextSeq := s.nextSeq + 1, prodPc := Writing)
      else s
    case Writing =>
      var seqNo := s.nextSeq - 1;
      var message := st.inputs[seqNo];
      var slot := InSlot(Wire.Truncated(message.raw), None, message.timestamp);
      s.(inRing := s.inRing[Index(seqNo, st.inCapacity) := slot],
         prodPc := Publishing)
    case Publishing =>
      s.(prodSeq := s.nextSeq - 1, prodPc := Claiming)
  }

  /** One round of an upstream consumer: wait for the producer, read the cell, store, advance. */
  function UpstreamStep(st: Setup, s: Sys, i: nat): Sys
    requires Shape(st, s) && i < st.consumers
  {
    var next := s.ups[i] + 1;
    var cell := Index(next, st.inCapacity);
    match s.upPcs[i]
    case Waiting =>
      if s.prodSeq >= next then s.(upPcs := s.upPcs[i := Reading]) else s
    case Reading =>
      var s' := s.(upPcs := s.upPcs[i := Storing]);
      if i == 0 then s'.(parsed := CommandOf(s.inRing[cell].raw)) else s'
    case Storing =>
      var s' := s.(upPcs := s.upPcs[i := Advancing]);
      if i == 0 then s'.(inRing := s.inRing[cell := s.inRing[cell].(command := s.parsed)]) else s'
    case Advancing =>
      s.(ups := s.ups[i := next], upPcs := s.upPcs[i := Waiting])
  }

  function Least(least: Option<int>, x: int): int {
    match least
    case None => x
    case Some(y) => if x < y then x else y
  }

  /** After publishing, or when there is nothing to publish, the BLP goes back to its barrier. */
  function Resume(pending: seq<Delivery>): BlpPc {
    if pending == [] then Polling(0, None) else Gating
  }

  /** The BLP: the barrier's reads, one cell read with the engine's work, the release of the input
      cell, and only then the publication of the events. */
  function BlpStep(st: Setup, s: Sys): Sys
    requires Shape(st, s)
  {
    var next := s.blpSeq + 1;
    match s.blpPc
    case Polling(dep, least) =>
      if dep < st.consumers then
        s.(blpPc := Polling(dep + 1, Some(Least(least, s.ups[dep]))))
      else if least.Some? && least.value >= next then
        s.(blpPc := ReadingSlot)
      else
        s.(blpPc := Polling(0, None))
    case ReadingSlot =>
      var slot := s.inRing[Index(next, st.inCapacity)];
      var r := Respond(st.cfg, s.engine, slot.command, slot.timestamp);
      s.(engine := r.state, pending := r.output, blpPc := Releasing)
    case Releasing =>
      s.(blpSeq := next, blpPc := Resume(s.pending))
    case Gating =>
      if s.outSeq + 1 - s.consumed <= st.outCapacity then s.(blpPc := WritingSlot) else s
    case WritingSlot =>
      var slot := OutSlot(Some(s.pending[0].event), s.pending[0].timestamp);
      s.(outRing := s.outRing[Index(s.outSeq + 1, st.outCapacity) := slot],
         blpPc := PublishingSlot)
    case PublishingSlot =>
      s.(outSeq := s.outSeq + 1, pending := s.pending[1..], blpPc := Resume(s.pending[1..]))
  }

  /** The output consumer: wait, read the cell, advance the gating sequence. */
  function OutStep(st: Setup, s: Sys): Sys
    requires Shape(st, s)
  {
    match s.outPc
    case OutWaiting =>
      if s.outSeq >= s.consumed + 1 then s.(outPc := OutReading) else s
    case OutReading =>
      var slot := s.outRing[Index(s.consumed + 1, st.outCapacity)];
      var read := if slot.event.Some? then [Delivery(slot.event.value, slot.timestamp)] else [];
      s.(delivered := s.delivered + read, outPc := OutAdvancing)
    case OutAdvancing =>
      s.(consumed := s.consumed + 1, outPc := OutWaiting)
  }

  function SysStep(st: Setup, s: Sys, t: Thread): (s': Sys)
    requires Shape(st, s)
  {
    match t
    case Producer => ProducerStep(st, s)
    case Upstream(i) => if i < st.consumers then UpstreamStep(st, s, i) else s
    case Blp => BlpStep(st, s)
    case Out => OutStep(st, s)
  }

  lemma ProducerShape(st: Setup, s: Sys)
    requires Shape(st, s)
    ensures Shape(st, ProducerStep(st, s))
  {
    hide Index, Wire.Truncated;
  }

  lemma UpstreamShape(st: Setup, s: Sys, i: nat)
    requires Shape(st, s) && i < st.consumers
    ensures Shape(st, UpstreamStep(st, s, i))
  {
    hide Index, CommandOf;
  }

  lemma BlpShape(st: Setup, s: Sys)
    requires Shape(st, s)
    ensures Shape(st, BlpStep(st, s))
  {
    hide Index, Respond;
  }

  lemma StepShape(st: Setup, s: Sys, t: Thread)
    requires Shape(st, s)
    ensures Shape(st, SysStep(st, s, t))
  {
    hide ProducerStep, UpstreamStep, BlpStep;
    match t
    case Producer => ProducerShape(st, s);
    case Upstream(i) => if i < st.consumers { UpstreamShape(st, s, i); }
    case Blp => BlpShape(st, s);
    case Out =>
  }

  /** A whole run under a schedule. */
  function RunSys(st: Setup, s: Sys, schedule: seq<Thread>): Sys
    requires Shape(st, s)
    decreases |schedule|
  {
    if schedule == [] then s
    else
      StepShape(st, s, schedule[0]);
      RunSys(st, SysStep(st, s, schedule[0]), schedule[1..])
  }
}
