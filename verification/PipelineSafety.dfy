/**
  Safety of the pipeline under every schedule: the sequence numbers stay in their windows, no two
  threads ever touch the same field of the same cell with one of them writing, and what the output
  consumer reads is a prefix of what processing the messages one by one would emit.
 */
module PipelineSafety {
  import opened Types
  import opened Exchange
  import opened EventBuffers
  import opened RingBuffers
  import opened Pipeline
  import Wire

  // ---------------------------------------------------------------- the invariant

  /** The sequence numbers.  The barrier is sound although its dependencies are read one at a time: a
      number read can only have grown since. */
  ghost predicate Window(st: Setup, s: Sys)
    requires Shape(st, s)
  {
    && s.prodSeq == s.nextSeq - (if s.prodPc == Claiming then 1 else 2)
    && s.nextSeq - 1 <= s.blpSeq + st.inCapacity
    && (forall i | 0 <= i < |s.ups| :: s.blpSeq <= s.ups[i] <= s.prodSeq)
    && (forall i | 0 <= i < |s.ups| :: s.upPcs[i] != Waiting ==> s.ups[i] + 1 <= s.prodSeq)
    && (forall i | 0 <= i < |s.ups| :: Polled(s.blpPc, i, s.ups[i]))
    && (s.blpPc == ReadingSlot || s.blpPc == Releasing ==> forall i | 0 <= i < |s.ups| :: s.blpSeq + 1 <= s.ups[i])
  }

  /** A dependency the barrier has read is still at least the least number it has seen. */
  predicate Polled(pc: BlpPc, i: nat, up: int) {
    pc.Polling? && i < pc.dep ==> pc.least.Some? && pc.least.value <= up
  }

  /** The last sequence number whose input cell holds its message. */
  function Written(s: Sys): int {
    if s.prodPc == Publishing then s.nextSeq - 1 else s.prodSeq
  }

  /** The last sequence number whose input cell holds its parsed command. */
  function ParsedTo(s: Sys): int
    requires |s.ups| == |s.upPcs| >= 1
  {
    if s.upPcs[0] == Advancing then s.ups[0] + 1 else s.ups[0]
  }

  ghost predicate HoldsMessage(st: Setup, ring: seq<InSlot>, q: int)
    requires st.Valid() && |ring| == st.inCapacity
  {
    && 0 <= q < |st.inputs|
    && ring[Index(q, st.inCapacity)].raw == Wire.Truncated(st.inputs[q].raw)
    && ring[Index(q, st.inCapacity)].timestamp == st.inputs[q].timestamp
  }

  ghost predicate HoldsCommand(st: Setup, ring: seq<InSlot>, q: int)
    requires st.Valid() && |ring| == st.inCapacity
  {
    0 <= q < |st.inputs| && ring[Index(q, st.inCapacity)].command == CommandOf(st.inputs[q].raw)
  }

  ghost predicate InputsOk(st: Setup, s: Sys)
    requires Shape(st, s)
  {
    && (forall q | s.blpSeq < q <= Written(s) :: HoldsMessage(st, s.inRing, q))
    && (forall q | s.blpSeq < q <= ParsedTo(s) :: HoldsCommand(st, s.inRing, q))
    && (s.upPcs[0] == Storing ==> 0 <= s.ups[0] + 1 < |st.inputs| && s.parsed == CommandOf(st.inputs[s.ups[0] + 1].raw))
  }

  /** How many messages the engine has processed. */
  function Processed(s: Sys): int {
    if s.blpPc == Releasing then s.blpSeq + 2 else s.blpSeq + 1
  }

  /** The engine is where sequential processing would be; what it emitted is published or pending. */
  ghost predicate EngineOk(st: Setup, s: Sys)
    requires Shape(st, s)
  {
    && 0 <= Processed(s) <= |st.inputs|
    && s.engine == Sequential(st, Processed(s)).state
    && s.outSeq + 1 <= |Sequential(st, Processed(s)).output|
    && s.pending == Sequential(st, Processed(s)).output[s.outSeq + 1..]
    && (s.blpPc.Polling? || s.blpPc == ReadingSlot ==> s.pending == [])
  }

  /** Everything the whole input makes the engine emit. */
  ghost function AllOutput(st: Setup): seq<Delivery>
    requires st.Valid()
  {
    Sequential(st, |st.inputs|).output
  }

  /** The last output sequence number whose cell has been written. */
  function OutWritten(s: Sys): int {
    if s.blpPc == PublishingSlot then s.outSeq + 1 else s.outSeq
  }

  ghost predicate HoldsEvent(st: Setup, ring: seq<OutSlot>, q: int)
    requires st.Valid() && |ring| == st.outCapacity
  {
    && 0 <= q < |AllOutput(st)|
    && ring[Index(q, st.outCapacity)] == OutSlot(Some(AllOutput(st)[q].event), AllOutput(st)[q].timestamp)
  }

  ghost predicate OutputsOk(st: Setup, s: Sys)
    requires Shape(st, s)
  {
    && s.consumed <= s.outSeq <= s.consumed + st.outCapacity
    && (s.blpPc == WritingSlot || s.blpPc == PublishingSlot ==> s.outSeq + 1 <= s.consumed + st.outCapacity)
    && (s.outPc != OutWaiting ==> s.consumed + 1 <= s.outSeq)
    && (forall q | s.consumed < q <= OutWritten(s) :: HoldsEvent(st, s.outRing, q))
    && |s.delivered| == s.consumed + (if s.outPc == OutAdvancing then 2 else 1)
    && s.delivered <= AllOutput(st)
  }

  ghost predicate SysInv(st: Setup, s: Sys) {
    Shape(st, s) && Window(st, s) && InputsOk(st, s) && EngineOk(st, s) && OutputsOk(st, s)
  }

  lemma InvShape(st: Setup, s: Sys)
    requires SysInv(st, s)
    ensures Shape(st, s)
  {
    hide Shape, Window, InputsOk, EngineOk, OutputsOk;
  }

  // ---------------------------------------------------------------- rings and prefixes

  /** A write to the cell of `at` leaves the cells of the other numbers of its window alone. */
  lemma RingKept<T>(ring: seq<T>, at: int, value: T, q: int)
    requires |ring| >= 1 && q != at && q < at + |ring| && at < q + |ring|
    ensures ring[Index(at, |ring|) := value][Index(q, |ring|)] == ring[Index(q, |ring|)]
  {
    if q < at { WindowInjective(q, at, |ring|); } else { WindowInjective(at, q, |ring|); }
    hide Index;
  }

  lemma {:induction false} SequentialGrows(st: Setup, m: nat, n: nat)
    requires st.Valid() && m <= n <= |st.inputs|
    ensures Sequential(st, m).output <= Sequential(st, n).output
    decreases n
  {
    hide Respond;
    if m < n {
      SequentialGrows(st, m, n - 1);
    }
  }

  // ---------------------------------------------------------------- the producer's steps

  lemma ProducerWindow(st: Setup, s: Sys)
    requires Shape(st, s) && Window(st, s)
    ensures Shape(st, ProducerStep(st, s)) && Window(st, ProducerStep(st, s))
  {
    ProducerShape(st, s);
  }

  lemma ProducerInputs(st: Setup, s: Sys)
    requires Shape(st, s) && Window(st, s) && InputsOk(st, s)
    ensures Shape(st, ProducerStep(st, s)) && InputsOk(st, ProducerStep(st, s))
  {
    ProducerShape(st, s);
    if s.prodPc == Writing {
      var at := s.nextSeq - 1;
      var s' := ProducerStep(st, s);
      forall q | s.blpSeq < q <= Written(s')
        ensures HoldsMessage(st, s'.inRing, q)
      {
        if q < at {
          assert HoldsMessage(st, s.inRing, q);
          RingKept(s.inRing, at, InSlot(Wire.Truncated(st.inputs[at].raw), None, st.inputs[at].timestamp), q);
        }
      }
      forall q | s.blpSeq < q <= ParsedTo(s')
        ensures HoldsCommand(st, s'.inRing, q)
      {
        assert HoldsCommand(st, s.inRing, q);
        RingKept(s.inRing, at, InSlot(Wire.Truncated(st.inputs[at].raw), None, st.inputs[at].timestamp), q);
      }
    }
  }

  // ---------------------------------------------------------------- the upstream consumers' steps

  lemma UpstreamWindow(st: Setup, s: Sys, i: nat)
    requires Shape(st, s) && Window(st, s) && i < st.consumers
    ensures Shape(st, UpstreamStep(st, s, i)) && Window(st, UpstreamStep(st, s, i))
  {
    UpstreamShape(st, s, i);
    assert Polled(s.blpPc, i, s.ups[i]);
  }

  /** The unmarshaller stores what its message parses to; the cut to the size of a cell does not matter. */
  lemma UnmarshalInputs(st: Setup, s: Sys)
    requires Shape(st, s) && Window(st, s) && InputsOk(st, s)
    ensures Shape(st, UpstreamStep(st, s, 0)) && InputsOk(st, UpstreamStep(st, s, 0))
  {
    UpstreamShape(st, s, 0);
    var next, s' := s.ups[0] + 1, UpstreamStep(st, s, 0);
    match s.upPcs[0]
    case Waiting =>
    case Reading =>
      assert HoldsMessage(st, s.inRing, next);
      Wire.TruncationHarmless(st.inputs[next].raw);
    case Storing =>
      StoreInputs(st, s);
    case Advancing =>
  }

  lemma StoreInputs(st: Setup, s: Sys)
    requires Shape(st, s) && Window(st, s) && InputsOk(st, s) && s.upPcs[0] == Storing
    ensures Shape(st, UpstreamStep(st, s, 0)) && InputsOk(st, UpstreamStep(st, s, 0))
  {
    UpstreamShape(st, s, 0);
    hide CommandOf, Wire.Truncated, Index;
    var at, s' := s.ups[0] + 1, UpstreamStep(st, s, 0);
    var slot := s.inRing[Index(at, st.inCapacity)].(command := s.parsed);
    forall q | s.blpSeq < q <= Written(s')
      ensures HoldsMessage(st, s'.inRing, q)
    {
      assert HoldsMessage(st, s.inRing, q);
      if q != at { RingKept(s.inRing, at, slot, q); }
    }
    forall q | s.blpSeq < q <= ParsedTo(s')
      ensures HoldsCommand(st, s'.inRing, q)
    {
      if q != at {
        assert HoldsCommand(st, s.inRing, q);
        RingKept(s.inRing, at, slot, q);
      }
    }
  }

  lemma UpstreamInputs(st: Setup, s: Sys, i: nat)
    requires Shape(st, s) && Window(st, s) && InputsOk(st, s) && i < st.consumers
    ensures Shape(st, UpstreamStep(st, s, i)) && InputsOk(st, UpstreamStep(st, s, i))
  {
    UpstreamShape(st, s, i);
    hide CommandOf, Wire.Truncated, Index;
    if i == 0 {
      UnmarshalInputs(st, s);
    }
  }

  // ---------------------------------------------------------------- the BLP's steps

  lemma BlpWindow(st: Setup, s: Sys)
    requires Shape(st, s) && Window(st, s)
    ensures Shape(st, BlpStep(st, s)) && Window(st, BlpStep(st, s))
  {
    BlpShape(st, s);
    hide Respond, Index;
    if s.blpPc.Polling? && s.blpPc.dep == st.consumers && s.blpPc.least.Some? {
      assert forall i | 0 <= i < |s.ups| :: Polled(s.blpPc, i, s.ups[i]);
    }
  }

  /** What a step of the BLP changes outside its engine. */
  lemma BlpTouches(st: Setup, s: Sys)
    requires Shape(st, s)
    ensures Shape(st, BlpStep(st, s))
    ensures var s' := BlpStep(st, s);
            && s'.inRing == s.inRing && s'.ups == s.ups && s'.upPcs == s.upPcs && s'.parsed == s.parsed
            && s'.prodSeq == s.prodSeq && s'.prodPc == s.prodPc && s'.nextSeq == s.nextSeq
            && s'.consumed == s.consumed && s'.outPc == s.outPc && s'.delivered == s.delivered
            && s'.blpSeq == (if s.blpPc == Releasing then s.blpSeq + 1 else s.blpSeq)
            && s'.outSeq == (if s.blpPc == PublishingSlot then s.outSeq + 1 else s.outSeq)
            && (s.blpPc != WritingSlot ==> s'.outRing == s.outRing)
            && (s'.blpPc == PublishingSlot <==> s.blpPc == WritingSlot)
            && (s'.blpPc == WritingSlot ==> s.blpPc == Gating && s.outSeq + 1 - s.consumed <= st.outCapacity)
            && (s'.blpPc == Releasing <==> s.blpPc == ReadingSlot)
            && (s'.blpPc == ReadingSlot ==> s.blpPc.Polling?)
            && (s.blpPc == Releasing || s.blpPc == PublishingSlot ==> s'.blpPc == Resume(s'.pending))
            && (s.blpPc == PublishingSlot ==> s'.pending == s.pending[1..])
            && (s.blpPc != PublishingSlot && s.blpPc != ReadingSlot ==> s'.pending == s.pending)
            && (s.blpPc != ReadingSlot ==> s'.engine == s.engine)
            && (s'.blpPc.Polling? ==> s.blpPc.Polling? || s.blpPc == Releasing || s.blpPc == PublishingSlot)
  {
    BlpShape(st, s);
    hide Respond, Index;
  }

  lemma BlpInputs(st: Setup, s: Sys)
    requires Shape(st, s) && Window(st, s) && InputsOk(st, s)
    ensures Shape(st, BlpStep(st, s)) && InputsOk(st, BlpStep(st, s))
  {
    hide BlpStep, Window, HoldsMessage, HoldsCommand, CommandOf;
    BlpTouches(st, s);
  }

  lemma NextHolds(st: Setup, s: Sys)
    requires Shape(st, s) && Window(st, s) && InputsOk(st, s) && s.blpPc == ReadingSlot
    ensures HoldsMessage(st, s.inRing, s.blpSeq + 1) && HoldsCommand(st, s.inRing, s.blpSeq + 1)
  {
    hide HoldsMessage, HoldsCommand;
    assert s.ups[0] >= s.blpSeq + 1;
  }

  /** Reading the released cell gives the engine exactly the next message of the sequential run. */
  lemma BlpReads(st: Setup, s: Sys)
    requires Shape(st, s) && Window(st, s) && InputsOk(st, s) && EngineOk(st, s) && s.blpPc == ReadingSlot
    ensures Shape(st, BlpStep(st, s)) && EngineOk(st, BlpStep(st, s))
  {
    hide Respond, Index, CommandOf, Wire.Truncated, Window, InputsOk;
    BlpShape(st, s);
    NextHolds(st, s);
  }

  lemma BlpEngine(st: Setup, s: Sys)
    requires Shape(st, s) && Window(st, s) && InputsOk(st, s) && EngineOk(st, s)
    ensures Shape(st, BlpStep(st, s)) && EngineOk(st, BlpStep(st, s))
  {
    hide BlpStep, Sequential, InputsOk, Window;
    BlpTouches(st, s);
    if s.blpPc == ReadingSlot {
      BlpReads(st, s);
    }
  }

  /** The next event to publish is the next one of the whole output. */
  lemma PendingIsNext(st: Setup, s: Sys)
    requires Shape(st, s) && EngineOk(st, s) && s.pending != []
    ensures s.outSeq + 1 < |AllOutput(st)| && s.pending[0] == AllOutput(st)[s.outSeq + 1]
  {
    SequentialGrows(st, Processed(s), |st.inputs|);
    hide Sequential;
  }

  /** Writing the next cell of the output ring spoils none that is still to be read. */
  lemma BlpWrites(st: Setup, s: Sys)
    requires Shape(st, s) && EngineOk(st, s) && OutputsOk(st, s) && s.blpPc == WritingSlot
    ensures var ring := BlpStep(st, s).outRing;
            |ring| == st.outCapacity && forall q | s.consumed < q <= s.outSeq + 1 :: HoldsEvent(st, ring, q)
  {
    hide Respond, EngineOk, AllOutput, HoldsEvent, Index;
    PendingIsNext(st, s);
    var at := s.outSeq + 1;
    forall q | s.consumed < q <= at
      ensures HoldsEvent(st, BlpStep(st, s).outRing, q)
    {
      WriteHolds(st, s.outRing, at, s.pending[0], q);
    }
  }

  lemma WriteHolds(st: Setup, ring: seq<OutSlot>, at: int, d: Delivery, q: int)
    requires st.Valid() && |ring| == st.outCapacity && 0 <= at < |AllOutput(st)| && d == AllOutput(st)[at]
    requires at - st.outCapacity < q <= at && (q != at ==> HoldsEvent(st, ring, q))
    ensures HoldsEvent(st, ring[Index(at, st.outCapacity) := OutSlot(Some(d.event), d.timestamp)], q)
  {
    hide AllOutput, Index;
    if q != at {
      RingKept(ring, at, OutSlot(Some(d.event), d.timestamp), q);
    }
  }

  lemma BlpOutputs(st: Setup, s: Sys)
    requires Shape(st, s) && EngineOk(st, s) && OutputsOk(st, s)
    ensures Shape(st, BlpStep(st, s)) && OutputsOk(st, BlpStep(st, s))
  {
    hide BlpStep, EngineOk, AllOutput, HoldsEvent;
    BlpTouches(st, s);
    if s.blpPc == WritingSlot {
      BlpWrites(st, s);
    }
  }

  // ---------------------------------------------------------------- the output consumer's steps

  lemma OutOutputs(st: Setup, s: Sys)
    requires Shape(st, s) && OutputsOk(st, s)
    ensures Shape(st, OutStep(st, s)) && OutputsOk(st, OutStep(st, s))
  {
    StepShape(st, s, Out);
    hide AllOutput, Index;
    if s.outPc == OutReading {
      assert HoldsEvent(st, s.outRing, s.consumed + 1);
    }
  }

  // ---------------------------------------------------------------- every step, every schedule

  lemma InitialInv(st: Setup)
    requires st.Valid()
    ensures SysInv(st, Initial(st))
  {
    hide Index, Respond;
  }

  // What the steps of each of the other threads change.

  lemma ProducerTouches(st: Setup, s: Sys)
    requires Shape(st, s)
    ensures var s' := ProducerStep(st, s);
            && SameEngine(s, s') && SameOutput(s, s') && s'.ups == s.ups
            && s'.prodSeq == if s.prodPc == Publishing then s.nextSeq - 1 else s.prodSeq
  {
    hide Index, Wire.Truncated;
  }

  lemma UpstreamTouches(st: Setup, s: Sys, i: nat)
    requires Shape(st, s) && i < st.consumers
    ensures var s' := UpstreamStep(st, s, i);
            && SameEngine(s, s') && SameOutput(s, s') && s'.prodSeq == s.prodSeq
            && s'.ups == if s.upPcs[i] == Advancing then s.ups[i := s.ups[i] + 1] else s.ups
  {
    hide Index, CommandOf;
  }

  lemma OutTouches(st: Setup, s: Sys)
    requires Shape(st, s)
    ensures var s' := OutStep(st, s);
            && SameEngine(s, s')
            && s'.inRing == s.inRing && s'.ups == s.ups && s'.upPcs == s.upPcs && s'.parsed == s.parsed
            && s'.prodSeq == s.prodSeq && s'.prodPc == s.prodPc && s'.nextSeq == s.nextSeq
            && s'.consumed == if s.outPc == OutAdvancing then s.consumed + 1 else s.consumed
  {
    hide Index;
  }

  ghost predicate SameOutput(s: Sys, s': Sys) {
    s'.consumed == s.consumed && s'.outPc == s.outPc && s'.delivered == s.delivered
  }

  ghost predicate SameEngine(s: Sys, s': Sys) {
    && s'.engine == s.engine && s'.pending == s.pending && s'.blpPc == s.blpPc
    && s'.blpSeq == s.blpSeq && s'.outSeq == s.outSeq && s'.outRing == s.outRing
  }

  lemma EngineFrame(st: Setup, s: Sys, s': Sys)
    requires Shape(st, s) && Shape(st, s') && EngineOk(st, s) && SameEngine(s, s')
    ensures EngineOk(st, s')
  {
    hide Sequential;
  }

  lemma OutputsFrame(st: Setup, s: Sys, s': Sys)
    requires Shape(st, s) && Shape(st, s') && OutputsOk(st, s) && SameEngine(s, s') && SameOutput(s, s')
    ensures OutputsOk(st, s')
  {
    hide HoldsEvent, AllOutput;
  }

  lemma InputsFrame(st: Setup, s: Sys, s': Sys)
    requires Shape(st, s) && Shape(st, s') && Window(st, s) && InputsOk(st, s)
    requires s'.inRing == s.inRing && s'.ups == s.ups && s'.upPcs == s.upPcs && s'.parsed == s.parsed
    requires s'.prodSeq == s.prodSeq && s'.prodPc == s.prodPc && s'.nextSeq == s.nextSeq
    requires s'.blpPc == s.blpPc && s'.blpSeq == s.blpSeq
    ensures Window(st, s') && InputsOk(st, s')
  {
    hide HoldsMessage, HoldsCommand, CommandOf, Polled;
  }

  lemma ProducerInv(st: Setup, s: Sys)
    requires SysInv(st, s)
    ensures SysInv(st, ProducerStep(st, s))
  {
    hide ProducerStep, Window, InputsOk, EngineOk, OutputsOk, Shape;
    ProducerTouches(st, s);
    ProducerWindow(st, s);
    ProducerInputs(st, s);
    EngineFrame(st, s, ProducerStep(st, s));
    OutputsFrame(st, s, ProducerStep(st, s));
  }

  lemma UpstreamInv(st: Setup, s: Sys, i: nat)
    requires SysInv(st, s) && i < st.consumers
    ensures SysInv(st, UpstreamStep(st, s, i))
  {
    hide UpstreamStep, Window, InputsOk, EngineOk, OutputsOk, Shape;
    UpstreamTouches(st, s, i);
    UpstreamWindow(st, s, i);
    UpstreamInputs(st, s, i);
    EngineFrame(st, s, UpstreamStep(st, s, i));
    OutputsFrame(st, s, UpstreamStep(st, s, i));
  }

  lemma BlpInv(st: Setup, s: Sys)
    requires SysInv(st, s)
    ensures SysInv(st, BlpStep(st, s))
  {
    hide BlpStep, Window, InputsOk, EngineOk, OutputsOk, Shape;
    BlpWindow(st, s);
    BlpInputs(st, s);
    BlpEngine(st, s);
    BlpOutputs(st, s);
  }

  lemma OutInv(st: Setup, s: Sys)
    requires SysInv(st, s)
    ensures SysInv(st, OutStep(st, s))
  {
    hide OutStep, Window, InputsOk, EngineOk, OutputsOk, Shape;
    OutTouches(st, s);
    OutOutputs(st, s);
    InputsFrame(st, s, OutStep(st, s));
    EngineFrame(st, s, OutStep(st, s));
  }

  lemma StepInv(st: Setup, s: Sys, t: Thread)
    requires SysInv(st, s)
    ensures SysInv(st, SysStep(st, s, t))
  {
    hide ProducerStep, UpstreamStep, BlpStep, OutStep, Window, InputsOk, EngineOk, OutputsOk;
    match t
    case Producer => ProducerInv(st, s);
    case Upstream(i) => if i < st.consumers { UpstreamInv(st, s, i); }
    case Blp => BlpInv(st, s);
    case Out => OutInv(st, s);
  }

  lemma {:induction false} RunInv(st: Setup, s: Sys, schedule: seq<Thread>)
    requires SysInv(st, s)
    ensures SysInv(st, RunSys(st, s, schedule))
    decreases |schedule|
  {
    hide SysStep, Window, InputsOk, EngineOk, OutputsOk;
    if schedule != [] {
      StepInv(st, s, schedule[0]);
      RunInv(st, SysStep(st, s, schedule[0]), schedule[1..]);
    }
  }

  // ---------------------------------------------------------------- what the output consumer sees

  /** Under every schedule, the (event, timestamp) sequence read from the output ring is a prefix of what
      parsing and processing the messages one by one emits: nothing lost, doubled or reordered, across
      any number of turns of either ring. */
  lemma DeliveredIsPrefix(st: Setup, schedule: seq<Thread>)
    requires st.Valid()
    ensures Shape(st, Initial(st))
    ensures RunSys(st, Initial(st), schedule).delivered <= AllOutput(st)
  {
    InitialInv(st);
    RunInv(st, Initial(st), schedule);
    hide RunSys, AllOutput, Window, InputsOk, EngineOk;
  }

  /** In every reachable state the sequence numbers are in their windows: the BLP is behind every
      upstream consumer, they are behind the producer, and the producer is at most one ring ahead of
      the BLP, even with the number it has claimed; the same for the output ring. */
  lemma ReachableWindows(st: Setup, schedule: seq<Thread>, i: nat)
    requires st.Valid() && i < st.consumers
    ensures Shape(st, Initial(st))
    ensures var s := RunSys(st, Initial(st), schedule);
            && |s.ups| == st.consumers && s.blpSeq <= s.ups[i] <= s.prodSeq <= s.nextSeq - 1 <= s.blpSeq + st.inCapacity
            && s.consumed <= s.outSeq <= s.consumed + st.outCapacity
  {
    InitialInv(st);
    RunInv(st, Initial(st), schedule);
    hide RunSys, InputsOk, EngineOk, AllOutput;
  }

  // ---------------------------------------------------------------- single writers, sound barriers

  /** Every sequence number is written by one thread only, and only grows. */
  lemma SingleWriterMonotone(st: Setup, s: Sys, t: Thread)
    requires SysInv(st, s)
    ensures var s' := SysStep(st, s, t);
            && |s'.ups| == |s.ups|
            && s.prodSeq <= s'.prodSeq && (!t.Producer? ==> s'.prodSeq == s.prodSeq)
            && s.blpSeq <= s'.blpSeq && s.outSeq <= s'.outSeq
            && (!t.Blp? ==> s'.blpSeq == s.blpSeq && s'.outSeq == s.outSeq)
            && s.consumed <= s'.consumed && (!t.Out? ==> s'.consumed == s.consumed)
            && forall i | 0 <= i < |s.ups| :: s.ups[i] <= s'.ups[i] && (t != Upstream(i) ==> s'.ups[i] == s.ups[i])
  {
    hide ProducerStep, UpstreamStep, BlpStep, OutStep, InputsOk, EngineOk, OutputsOk, Polled;
    match t
    case Producer => ProducerTouches(st, s);
    case Upstream(i) => if i < st.consumers { UpstreamTouches(st, s, i); }
    case Blp => BlpTouches(st, s);
    case Out => OutTouches(st, s);
  }

  lemma {:induction false} UpsOnlyGrow(st: Setup, s: Sys, schedule: seq<Thread>, i: nat)
    requires SysInv(st, s) && i < st.consumers
    ensures |RunSys(st, s, schedule).ups| == |s.ups| == st.consumers
    ensures s.ups[i] <= RunSys(st, s, schedule).ups[i]
    decreases |schedule|
  {
    hide SysStep, Window, InputsOk, EngineOk, OutputsOk;
    if schedule != [] {
      StepInv(st, s, schedule[0]);
      SingleWriterMonotone(st, s, schedule[0]);
      UpsOnlyGrow(st, SysStep(st, s, schedule[0]), schedule[1..], i);
    }
  }

  /** When the barrier lets the BLP through to a cell, every dependency has passed that cell, although
      they were read one at a time, and stays past it for the rest of the run. */
  lemma BarrierSound(st: Setup, before: seq<Thread>, after: seq<Thread>, i: nat)
    requires st.Valid() && i < st.consumers
    ensures Shape(st, Initial(st))
    ensures var s := RunSys(st, Initial(st), before);
            && Shape(st, s) && |s.ups| == |RunSys(st, s, after).ups| == st.consumers
            && (s.blpPc == ReadingSlot ==> s.blpSeq + 1 <= s.ups[i] <= RunSys(st, s, after).ups[i])
  {
    InitialInv(st);
    RunInv(st, Initial(st), before);
    UpsOnlyGrow(st, RunSys(st, Initial(st), before), after, i);
    hide RunSys, InputsOk, EngineOk, OutputsOk;
  }
}
