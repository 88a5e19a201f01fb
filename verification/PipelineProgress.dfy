/**
  Progress of the pipeline: a measure of the work left that no step increases and every step but the
  polling ones decreases, and from every reachable state a schedule that does all the work left.
 */
module PipelineProgress {
  import opened Types
  import opened Exchange
  import opened RingBuffers
  import opened Pipeline
  import opened PipelineSafety
  import Wire

  // ---------------------------------------------------------------- the work left

  function ProducerWork(st: Setup, nextSeq: nat, pc: ProducerPc): int {
    3 * (|st.inputs| - nextSeq) + match pc case Claiming => 0 case Writing => 2 case Publishing => 1
  }

  function UpstreamWork(st: Setup, up: int, pc: UpstreamPc): int {
    4 * (|st.inputs| - 1 - up) - match pc case Waiting => 0 case Reading => 1 case Storing => 2 case Advancing => 3
  }

  function UpstreamsWork(st: Setup, ups: seq<int>, pcs: seq<UpstreamPc>): int
    requires |ups| == |pcs|
  {
    if ups == [] then 0 else UpstreamWork(st, ups[0], pcs[0]) + UpstreamsWork(st, ups[1..], pcs[1..])
  }

  function BlpWork(st: Setup, blpSeq: int, outSeq: int, pc: BlpPc, total: nat): int {
    3 * (|st.inputs| - 1 - blpSeq) + 3 * (total - 1 - outSeq)
    - match pc
      case Polling(_, _) => 0
      case ReadingSlot => 1
      case Releasing => 2
      case Gating => 0
      case WritingSlot => 1
      case PublishingSlot => 2
  }

  function OutWork(consumed: int, pc: OutPc, total: nat): int {
    3 * (total - 1 - consumed) - match pc case OutWaiting => 0 case OutReading => 1 case OutAdvancing => 2
  }

  /** Steps of real work left, over all threads; `total` is the number of events of the whole run. */
  function Work(st: Setup, s: Sys, total: nat): int
    requires |s.ups| == |s.upPcs|
  {
    ProducerWork(st, s.nextSeq, s.prodPc) + UpstreamsWork(st, s.ups, s.upPcs)
    + BlpWork(st, s.blpSeq, s.outSeq, s.blpPc, total) + OutWork(s.consumed, s.outPc, total)
  }

  ghost function WorkLeft(st: Setup, s: Sys): int
    requires Shape(st, s)
  {
    Work(st, s, |AllOutput(st)|)
  }

  /** A step that only polls: it changes nothing but where the BLP is in its barrier's loop. */
  ghost predicate Polls(s: Sys, s': Sys) {
    s' == s || (s.blpPc.Polling? && s'.blpPc.Polling? && s' == s.(blpPc := s'.blpPc))
  }

  lemma {:induction false} OneUpstream(st: Setup, ups: seq<int>, pcs: seq<UpstreamPc>, i: nat, up: int, pc: UpstreamPc)
    requires |ups| == |pcs| && i < |ups|
    ensures UpstreamsWork(st, ups[i := up], pcs[i := pc]) ==
            UpstreamsWork(st, ups, pcs) - UpstreamWork(st, ups[i], pcs[i]) + UpstreamWork(st, up, pc)
  {
    if i == 0 {
      assert ups[0 := up][1..] == ups[1..] && pcs[0 := pc][1..] == pcs[1..];
    } else {
      assert ups[i := up][1..] == ups[1..][i - 1 := up] && pcs[i := pc][1..] == pcs[1..][i - 1 := pc];
      OneUpstream(st, ups[1..], pcs[1..], i - 1, up, pc);
    }
  }

  /** `s'` has one step of work less than `s`, or nothing but polling happened. */
  ghost predicate Worked(st: Setup, s: Sys, s': Sys, total: nat)
    requires |s.ups| == |s.upPcs| && |s'.ups| == |s'.upPcs|
  {
    Work(st, s', total) == Work(st, s, total) - (if Polls(s, s') then 0 else 1)
  }

  lemma ProducerWorks(st: Setup, s: Sys, total: nat)
    requires Shape(st, s)
    ensures Shape(st, ProducerStep(st, s)) && Worked(st, s, ProducerStep(st, s), total)
  {
    ProducerShape(st, s);
    hide Index, Wire.Truncated, UpstreamsWork, BlpWork, OutWork;
  }

  lemma UpstreamWorks(st: Setup, s: Sys, i: nat, total: nat)
    requires Shape(st, s) && i < st.consumers
    ensures Shape(st, UpstreamStep(st, s, i)) && Worked(st, s, UpstreamStep(st, s, i), total)
  {
    hide Index, CommandOf, UpstreamsWork, BlpWork, OutWork, ProducerWork;
    UpstreamShape(st, s, i);
    var s' := UpstreamStep(st, s, i);
    OneUpstream(st, s.ups, s.upPcs, i, s'.ups[i], s'.upPcs[i]);
    assert s'.ups == s.ups[i := s'.ups[i]] && s'.upPcs == s.upPcs[i := s'.upPcs[i]];
    UpstreamMoves(st, s, i);
  }

  lemma UpstreamMoves(st: Setup, s: Sys, i: nat)
    requires Shape(st, s) && i < st.consumers
    ensures var s' := UpstreamStep(st, s, i);
            && |s'.ups| == |s'.upPcs| == st.consumers
            && (if s' == s then UpstreamWork(st, s'.ups[i], s'.upPcs[i]) == UpstreamWork(st, s.ups[i], s.upPcs[i])
                else UpstreamWork(st, s'.ups[i], s'.upPcs[i]) == UpstreamWork(st, s.ups[i], s.upPcs[i]) - 1)
            && s'.blpPc == s.blpPc && (s'.upPcs[i] != s.upPcs[i] <==> s' != s)
  {
    hide Index, CommandOf;
  }

  lemma BlpWorks(st: Setup, s: Sys, total: nat)
    requires Shape(st, s)
    ensures Shape(st, BlpStep(st, s)) && Worked(st, s, BlpStep(st, s), total)
  {
    hide Index, Respond, UpstreamsWork, OutWork, ProducerWork;
    BlpShape(st, s);
    match s.blpPc
    case Polling(_, _) =>
    case _ =>
  }

  lemma OutWorks(st: Setup, s: Sys, total: nat)
    requires Shape(st, s)
    ensures Shape(st, OutStep(st, s)) && Worked(st, s, OutStep(st, s), total)
  {
    StepShape(st, s, Out);
    hide Index, UpstreamsWork, BlpWork, ProducerWork;
  }

  /** Every step does one step of work, or only polls: so under any schedule the number of working
      steps is at most the work there was at the start. */
  lemma StepWorks(st: Setup, s: Sys, t: Thread)
    requires Shape(st, s)
    ensures var s' := SysStep(st, s, t);
            && Shape(st, s') && WorkLeft(st, s') == WorkLeft(st, s) - if Polls(s, s') then 0 else 1
  {
    hide ProducerStep, UpstreamStep, BlpStep, OutStep, Work, AllOutput;
    var total := |AllOutput(st)|;
    match t
    case Producer => ProducerWorks(st, s, total);
    case Upstream(i) => if i < st.consumers { UpstreamWorks(st, s, i, total); }
    case Blp => BlpWorks(st, s, total);
    case Out => OutWorks(st, s, total);
  }

  /** How many steps of a schedule do work. */
  ghost function WorkingSteps(st: Setup, s: Sys, schedule: seq<Thread>): nat
    requires Shape(st, s)
    decreases |schedule|
  {
    if schedule == [] then 0
    else
      StepShape(st, s, schedule[0]);
      var s' := SysStep(st, s, schedule[0]);
      (if Polls(s, s') then 0 else 1) + WorkingSteps(st, s', schedule[1..])
  }

  lemma {:induction false} RunWorks(st: Setup, s: Sys, schedule: seq<Thread>)
    requires SysInv(st, s)
    ensures SysInv(st, RunSys(st, s, schedule))
    ensures WorkLeft(st, RunSys(st, s, schedule)) == WorkLeft(st, s) - WorkingSteps(st, s, schedule)
    decreases |schedule|
  {
    hide SysStep, Window, InputsOk, EngineOk, OutputsOk, WorkLeft, Polls;
    if schedule != [] {
      StepInv(st, s, schedule[0]);
      StepWorks(st, s, schedule[0]);
      RunWorks(st, SysStep(st, s, schedule[0]), schedule[1..]);
    }
  }

  // ---------------------------------------------------------------- no work left

  lemma {:induction false} UpstreamsNonNegative(st: Setup, ups: seq<int>, pcs: seq<UpstreamPc>)
    requires |ups| == |pcs| && forall i | 0 <= i < |ups| :: UpstreamWork(st, ups[i], pcs[i]) >= 0
    ensures UpstreamsWork(st, ups, pcs) >= 0
    ensures UpstreamsWork(st, ups, pcs) == 0 <==> forall i | 0 <= i < |ups| :: UpstreamWork(st, ups[i], pcs[i]) == 0
  {
    hide UpstreamWork;
    if ups != [] {
      var ups', pcs' := ups[1..], pcs[1..];
      assert forall i | 0 < i < |ups| :: ups[i] == ups'[i - 1] && pcs[i] == pcs'[i - 1];
      assert forall i | 0 <= i < |ups'| ::
               UpstreamWork(st, ups'[i], pcs'[i]) == UpstreamWork(st, ups[i + 1], pcs[i + 1]);
      UpstreamsNonNegative(st, ups', pcs');
      assert (forall i | 0 <= i < |ups'| :: UpstreamWork(st, ups'[i], pcs'[i]) == 0) <==>
             (forall i | 0 < i < |ups| :: UpstreamWork(st, ups[i], pcs[i]) == 0);
    }
  }

  /** The engine never publishes more than the whole output. */
  lemma OutputBounded(st: Setup, s: Sys)
    requires SysInv(st, s)
    ensures s.outSeq + 1 + |s.pending| <= |AllOutput(st)| && s.blpSeq + 1 <= |st.inputs|
    ensures Processed(s) == |st.inputs| ==> s.outSeq + 1 + |s.pending| == |AllOutput(st)|
  {
    hide Window, InputsOk, OutputsOk, Sequential;
    SequentialGrows(st, Processed(s), |st.inputs|);
  }

  /** All threads are idle at the end of their work. */
  ghost predicate Drained(st: Setup, s: Sys)
    requires Shape(st, s)
  {
    && s.nextSeq == |st.inputs| && s.prodPc == Claiming
    && (forall i | 0 <= i < |s.ups| :: s.ups[i] == |st.inputs| - 1 && s.upPcs[i] == Waiting)
    && s.blpSeq == |st.inputs| - 1 && s.blpPc.Polling?
    && s.consumed == s.outSeq == |AllOutput(st)| - 1 && s.outPc == OutWaiting
  }

  lemma UpstreamNonNegative(st: Setup, s: Sys, i: nat)
    requires Shape(st, s) && Window(st, s) && i < st.consumers
    ensures UpstreamWork(st, s.ups[i], s.upPcs[i]) >= 0
    ensures UpstreamWork(st, s.ups[i], s.upPcs[i]) == 0 <==> s.ups[i] == |st.inputs| - 1 && s.upPcs[i] == Waiting
  {
  }

  lemma WorkNonNegative(st: Setup, s: Sys)
    requires SysInv(st, s)
    ensures WorkLeft(st, s) >= 0
    ensures WorkLeft(st, s) == 0 <==> Drained(st, s)
  {
    OutputBounded(st, s);
    forall i | 0 <= i < |s.ups|
      ensures UpstreamWork(st, s.ups[i], s.upPcs[i]) >= 0
      ensures UpstreamWork(st, s.ups[i], s.upPcs[i]) == 0 <==> s.ups[i] == |st.inputs| - 1 && s.upPcs[i] == Waiting
    {
      UpstreamNonNegative(st, s, i);
    }
    UpstreamsNonNegative(st, s.ups, s.upPcs);
    BlpBusy(st, s);
    hide InputsOk, AllOutput, UpstreamsWork, UpstreamWork, Sequential, EngineOk;
  }

  lemma BlpBusy(st: Setup, s: Sys)
    requires SysInv(st, s)
    ensures s.blpPc == ReadingSlot || s.blpPc == Releasing ==> s.blpSeq + 2 <= |st.inputs|
    ensures s.blpPc.Gating? || s.blpPc.WritingSlot? || s.blpPc.PublishingSlot? ==> s.pending != []
  {
    hide InputsOk, EngineOk, OutputsOk;
    if s.blpPc == ReadingSlot || s.blpPc == Releasing {
      assert s.blpSeq + 1 <= s.ups[0];
    }
  }

  // ---------------------------------------------------------------- somebody can always work

  lemma OutMoves(st: Setup, s: Sys)
    requires Shape(st, s) && (s.outPc != OutWaiting || s.consumed < s.outSeq)
    ensures !Polls(s, OutStep(st, s))
  {
    hide Index;
  }

  lemma BlpMoves(st: Setup, s: Sys)
    requires Shape(st, s) && !s.blpPc.Polling? && (s.blpPc == Gating ==> s.consumed == s.outSeq)
    ensures !Polls(s, BlpStep(st, s))
  {
    hide Index, Respond;
  }

  lemma UpstreamMovesOn(st: Setup, s: Sys, i: nat)
    requires Shape(st, s) && i < st.consumers && (s.upPcs[i] != Waiting || s.ups[i] < s.prodSeq)
    ensures !Polls(s, UpstreamStep(st, s, i))
  {
    UpstreamMoves(st, s, i);
    hide Index, CommandOf;
    assert UpstreamStep(st, s, i).upPcs[i] != s.upPcs[i];
  }

  lemma ProducerMoves(st: Setup, s: Sys)
    requires Shape(st, s)
    requires s.prodPc != Claiming || (s.nextSeq < |st.inputs| && s.blpSeq >= s.nextSeq - st.inCapacity)
    ensures !Polls(s, ProducerStep(st, s))
  {
    hide Index, Wire.Truncated;
  }

  /** How many more reads of the barrier the BLP needs when every dependency has reached `next`: what is
      left of this pass, and one more whole pass if this one has already seen a smaller number. */
  function PollBudget(st: Setup, pc: BlpPc, next: int): nat
    requires pc.Polling? && pc.dep <= st.consumers
  {
    st.consumers - pc.dep + 1 + if pc.least.None? || pc.least.value >= next then 0 else st.consumers + 1
  }

  lemma PollStep(st: Setup, s: Sys)
    requires SysInv(st, s) && s.blpPc.Polling? && forall i | 0 <= i < |s.ups| :: s.ups[i] >= s.blpSeq + 1
    ensures var s' := BlpStep(st, s);
            if s'.blpPc == ReadingSlot then !Polls(s, s')
            else Polls(s, s') && s'.blpPc.Polling? && s'.blpPc.dep <= st.consumers &&
                 s'.ups == s.ups && s'.blpSeq == s.blpSeq &&
                 PollBudget(st, s'.blpPc, s.blpSeq + 1) < PollBudget(st, s.blpPc, s.blpSeq + 1)
  {
    hide InputsOk, EngineOk, OutputsOk, Index, Respond;
    assert Polled(s.blpPc, 0, s.ups[0]);
  }

  lemma {:induction false} PollsThrough(st: Setup, s: Sys) returns (schedule: seq<Thread>)
    requires SysInv(st, s) && s.blpPc.Polling? && forall i | 0 <= i < |s.ups| :: s.ups[i] >= s.blpSeq + 1
    ensures WorkingSteps(st, s, schedule) == 1
    ensures |schedule| <= PollBudget(st, s.blpPc, s.blpSeq + 1)
    decreases PollBudget(st, s.blpPc, s.blpSeq + 1)
  {
    hide BlpStep, Window, InputsOk, EngineOk, OutputsOk, Polls;
    PollStep(st, s);
    StepInv(st, s, Blp);
    var s' := BlpStep(st, s);
    if s'.blpPc == ReadingSlot {
      schedule := [Blp];
      OneStep(st, s, Blp);
    } else {
      var rest := PollsThrough(st, s');
      schedule := [Blp] + rest;
    }
  }

  lemma OneStep(st: Setup, s: Sys, t: Thread)
    requires Shape(st, s) && Shape(st, SysStep(st, s, t))
    ensures WorkingSteps(st, s, [t]) == if Polls(s, SysStep(st, s, t)) then 0 else 1
  {
    hide SysStep, Polls;
    assert [t][1..] == [];
  }

  /** Somebody can take a step of work, or every thread is done or is the BLP at a barrier it can pass. */
  lemma SomebodyMoves(st: Setup, s: Sys) returns (t: Thread)
    requires SysInv(st, s) && !Drained(st, s)
    ensures !Polls(s, SysStep(st, s, t)) ||
            (s.blpPc.Polling? && forall i | 0 <= i < |s.ups| :: s.ups[i] >= s.blpSeq + 1)
  {
    t := Out;
    OutputBounded(st, s);
    if s.outPc != OutWaiting || s.consumed < s.outSeq {
      OutMoves(st, s);
    } else if !s.blpPc.Polling? {
      t := Blp;
      assert s.consumed == s.outSeq;
      BlpMoves(st, s);
    } else if i :| 0 <= i < |s.ups| && (s.upPcs[i] != Waiting || s.ups[i] < s.prodSeq) {
      t := Upstream(i);
      UpstreamMovesOn(st, s, i);
    } else if s.blpSeq == s.prodSeq {
      t := Producer;
      IdleProducer(st, s);
      ProducerMoves(st, s);
    }
  }

  /** When everything published has been consumed by everybody, the producer has something to do. */
  lemma IdleProducer(st: Setup, s: Sys)
    requires SysInv(st, s) && !Drained(st, s)
    requires s.outPc == OutWaiting && s.consumed >= s.outSeq && s.blpPc.Polling? && s.blpSeq == s.prodSeq
    requires forall i | 0 <= i < |s.ups| :: s.upPcs[i] == Waiting && s.ups[i] >= s.prodSeq
    ensures s.prodPc != Claiming || (s.nextSeq < |st.inputs| && s.blpSeq >= s.nextSeq - st.inCapacity)
  {
    OutputBounded(st, s);
    hide InputsOk, AllOutput, Sequential;
    assert s.pending == [];
  }

  /** From every state that is reachable and not drained, a short schedule does a step of work: there is
      no deadlock. */
  lemma Progress(st: Setup, s: Sys) returns (schedule: seq<Thread>)
    requires SysInv(st, s) && !Drained(st, s)
    ensures WorkingSteps(st, s, schedule) == 1 && |schedule| <= 2 * st.consumers + 2
  {
    hide SysStep, Window, InputsOk, EngineOk, OutputsOk, Polls, Drained;
    var t := SomebodyMoves(st, s);
    if !Polls(s, SysStep(st, s, t)) {
      StepInv(st, s, t);
      OneStep(st, s, t);
      schedule := [t];
    } else {
      schedule := PollsThrough(st, s);
    }
  }

  lemma {:induction false} RunConcat(st: Setup, s: Sys, a: seq<Thread>, b: seq<Thread>)
    requires SysInv(st, s)
    ensures Shape(st, RunSys(st, s, a))
    ensures RunSys(st, s, a + b) == RunSys(st, RunSys(st, s, a), b)
    decreases |a|
  {
    hide SysStep, Window, InputsOk, EngineOk, OutputsOk;
    if a == [] {
      assert a + b == b;
    } else {
      assert (a + b)[0] == a[0] && (a + b)[1..] == a[1..] + b;
      StepInv(st, s, a[0]);
      RunConcat(st, SysStep(st, s, a[0]), a[1..], b);
    }
  }

  /** From every reachable state all the work left can be done, in a number of steps bounded by it. */
  lemma {:induction false} CanDrain(st: Setup, s: Sys) returns (schedule: seq<Thread>)
    requires SysInv(st, s)
    ensures SysInv(st, RunSys(st, s, schedule)) && Drained(st, RunSys(st, s, schedule))
    ensures |schedule| <= WorkLeft(st, s) * (2 * st.consumers + 2)
    decreases WorkLeft(st, s)
  {
    hide SysStep, Window, InputsOk, EngineOk, OutputsOk, WorkLeft, Drained, RunSys;
    WorkNonNegative(st, s);
    if Drained(st, s) {
      schedule := [];
      NoSteps(st, s);
    } else {
      var first := Progress(st, s);
      RunWorks(st, s, first);
      var s' := RunSys(st, s, first);
      WorkNonNegative(st, s');
      var rest := CanDrain(st, s');
      RunConcat(st, s, first, rest);
      schedule := first + rest;
      var each := 2 * st.consumers + 2;
      assert (WorkLeft(st, s) - 1) * each + each == WorkLeft(st, s) * each;
    }
  }

  lemma NoSteps(st: Setup, s: Sys)
    requires Shape(st, s)
    ensures RunSys(st, s, []) == s
  {
  }

  /** When all work is done the output consumer has read exactly the whole output. */
  lemma DrainedIsComplete(st: Setup, s: Sys)
    requires SysInv(st, s) && Drained(st, s)
    ensures s.delivered == AllOutput(st)
  {
    hide AllOutput, Window, InputsOk, EngineOk;
  }

  /** No deadlock and a complete drain: every schedule, however it interleaves, can be continued to one
      after which every message has been processed and every event delivered, in order. */
  lemma EverythingDelivered(st: Setup, schedule: seq<Thread>) returns (more: seq<Thread>)
    requires st.Valid()
    ensures Shape(st, Initial(st))
    ensures RunSys(st, Initial(st), schedule + more).delivered == AllOutput(st)
  {
    hide RunSys, SysInv, Drained, AllOutput;
    InitialInv(st);
    InvShape(st, Initial(st));
    RunInv(st, Initial(st), schedule);
    var s := RunSys(st, Initial(st), schedule);
    more := CanDrain(st, s);
    InvShape(st, s);
    RunConcat(st, Initial(st), schedule, more);
    DrainedIsComplete(st, RunSys(st, s, more));
  }

  /** The work of a whole run: 3 steps per message of the producer and of the BLP, 4 per message of each
      upstream consumer, 3 per event of the BLP and of the output consumer. */
  lemma InitialWork(st: Setup)
    requires st.Valid()
    ensures Shape(st, Initial(st))
    ensures WorkLeft(st, Initial(st)) == (6 + 4 * st.consumers) * |st.inputs| + 6 * |AllOutput(st)|
  {
    hide AllOutput, UpstreamsWork, SysInv, Shape;
    InitialInv(st);
    InvShape(st, Initial(st));
    InitialUpstreams(st, st.consumers);
    assert (6 + 4 * st.consumers) * |st.inputs| == 6 * |st.inputs| + 4 * st.consumers * |st.inputs|;
  }

  /** No schedule does more. */
  lemma WorkBound(st: Setup, schedule: seq<Thread>)
    requires st.Valid()
    ensures Shape(st, Initial(st))
    ensures WorkingSteps(st, Initial(st), schedule) <= (6 + 4 * st.consumers) * |st.inputs| + 6 * |AllOutput(st)|
  {
    InitialInv(st);
    InitialWork(st);
    RunWorks(st, Initial(st), schedule);
    WorkNonNegative(st, RunSys(st, Initial(st), schedule));
    hide RunSys, WorkingSteps, AllOutput, WorkLeft, SysInv;
  }

  lemma {:induction false} InitialUpstreams(st: Setup, n: nat)
    ensures UpstreamsWork(st, seq(n, _ => -1), seq(n, _ => Waiting)) == 4 * n * |st.inputs|
  {
    if n > 0 {
      assert seq(n, _ => -1)[1..] == seq(n - 1, _ => -1);
      assert seq(n, _ => Waiting)[1..] == seq(n - 1, _ => Waiting);
      InitialUpstreams(st, n - 1);
      assert 4 * n * |st.inputs| == 4 * (n - 1) * |st.inputs| + 4 * |st.inputs|;
    }
  }
}
