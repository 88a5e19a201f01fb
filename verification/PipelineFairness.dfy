/**
  Bounded fairness: a schedule that gives every thread a turn often enough drains the pipeline, in
  whatever order it does so.
 */
module PipelineFairness {
  import opened Types
  import opened Exchange
  import opened RingBuffers
  import opened Pipeline
  import opened PipelineSafety
  import opened PipelineProgress
  import Wire

  // ---------------------------------------------------------------- polling changes nothing for others

  lemma ProducerBlind(st: Setup, s: Sys, pc: BlpPc)
    requires Shape(st, s) && Shape(st, s.(blpPc := pc))
    ensures ProducerStep(st, s.(blpPc := pc)) == ProducerStep(st, s).(blpPc := pc)
    ensures ProducerStep(st, s).blpPc == s.blpPc
  {
    hide Index, Wire.Truncated;
  }

  lemma UpstreamBlind(st: Setup, s: Sys, i: nat, pc: BlpPc)
    requires Shape(st, s) && Shape(st, s.(blpPc := pc)) && i < st.consumers
    ensures UpstreamStep(st, s.(blpPc := pc), i) == UpstreamStep(st, s, i).(blpPc := pc)
    ensures UpstreamStep(st, s, i).blpPc == s.blpPc
  {
    hide Index, CommandOf;
  }

  lemma OutBlind(st: Setup, s: Sys, pc: BlpPc)
    requires Shape(st, s) && Shape(st, s.(blpPc := pc))
    ensures OutStep(st, s.(blpPc := pc)) == OutStep(st, s).(blpPc := pc)
    ensures OutStep(st, s).blpPc == s.blpPc
  {
    hide Index;
  }

  /** Where the BLP is in its barrier's loop makes no difference to any other thread. */
  lemma PollingInvisible(st: Setup, s: Sys, pc: BlpPc, t: Thread)
    requires Shape(st, s) && Shape(st, s.(blpPc := pc)) && !t.Blp?
    ensures SysStep(st, s.(blpPc := pc), t) == SysStep(st, s, t).(blpPc := pc)
    ensures SysStep(st, s, t).blpPc == s.blpPc
  {
    hide ProducerStep, UpstreamStep, OutStep, Shape;
    match t
    case Producer => ProducerBlind(st, s, pc);
    case Upstream(i) => if i < st.consumers { UpstreamBlind(st, s, i, pc); }
    case Out => OutBlind(st, s, pc);
  }

  /** A thread that can work can still work after somebody has polled. */
  lemma StillWorks(st: Setup, s: Sys, s1: Sys, t: Thread)
    requires Shape(st, s) && Shape(st, s1) && Polls(s, s1) && !Polls(s, SysStep(st, s, t))
    requires t.Blp? ==> !s.blpPc.Polling?
    ensures !Polls(s1, SysStep(st, s1, t))
  {
    hide SysStep, Shape;
    if !t.Blp? {
      PollingInvisible(st, s, s1.blpPc, t);
      assert s1 == s.(blpPc := s1.blpPc);
      assert s == s1.(blpPc := s.blpPc);
    }
  }

  /** Everybody's polling but the BLP's own leaves the state as it was. */
  lemma OthersPollInPlace(st: Setup, s: Sys, t: Thread)
    requires Shape(st, s) && !t.Blp? && Polls(s, SysStep(st, s, t))
    ensures SysStep(st, s, t) == s
  {
    PollingInvisible(st, s, s.blpPc, t);
    hide SysStep, Shape;
  }

  // ---------------------------------------------------------------- one round works

  /** A thread that can work does, once it is scheduled, unless another has worked before. */
  lemma {:induction false} ReadyWorks(st: Setup, s: Sys, round: seq<Thread>, t: Thread)
    requires SysInv(st, s) && !Polls(s, SysStep(st, s, t)) && t in round
    requires t.Blp? ==> !s.blpPc.Polling?
    ensures WorkingSteps(st, s, round) >= 1
    decreases |round|
  {
    hide SysStep, Window, InputsOk, EngineOk, OutputsOk;
    StepInv(st, s, round[0]);
    var s1 := SysStep(st, s, round[0]);
    if Polls(s, s1) {
      assert t in round[1..];
      StillWorks(st, s, s1, t);
      ReadyWorks(st, s1, round[1..], t);
    }
  }

  /** How many turns a schedule gives the BLP. */
  function BlpTurns(schedule: seq<Thread>): nat {
    if schedule == [] then 0 else (if schedule[0].Blp? then 1 else 0) + BlpTurns(schedule[1..])
  }

  /** The BLP gets through a barrier that all its dependencies have passed. */
  lemma {:induction false} BarrierWorks(st: Setup, s: Sys, round: seq<Thread>)
    requires SysInv(st, s) && s.blpPc.Polling? && forall i | 0 <= i < |s.ups| :: s.ups[i] >= s.blpSeq + 1
    requires s.blpPc.dep <= st.consumers && BlpTurns(round) >= PollBudget(st, s.blpPc, s.blpSeq + 1)
    ensures WorkingSteps(st, s, round) >= 1
    decreases |round|
  {
    hide BlpStep, ProducerStep, UpstreamStep, OutStep, Window, InputsOk, EngineOk, OutputsOk, Polls;
    StepInv(st, s, round[0]);
    var s1 := SysStep(st, s, round[0]);
    if Polls(s, s1) {
      if round[0].Blp? {
        PollStep(st, s);
      } else {
        OthersPollInPlace(st, s, round[0]);
      }
      BarrierWorks(st, s1, round[1..]);
    }
  }

  /** Every thread has a turn, and the BLP enough to go twice through its barrier. */
  ghost predicate FairRound(st: Setup, round: seq<Thread>) {
    && Producer in round && Out in round && (forall i: nat | i < st.consumers :: Upstream(i) in round)
    && BlpTurns(round) >= 2 * st.consumers + 2
  }

  lemma {:induction false} TurnsScheduled(round: seq<Thread>)
    requires BlpTurns(round) > 0
    ensures Blp in round
  {
    if !round[0].Blp? {
      TurnsScheduled(round[1..]);
    }
  }

  lemma HasTurn(st: Setup, round: seq<Thread>, t: Thread)
    requires FairRound(st, round) && (t.Upstream? ==> t.i < st.consumers)
    ensures t in round
  {
    match t
    case Blp => TurnsScheduled(round);
    case _ =>
  }

  lemma BudgetBound(st: Setup, s: Sys)
    requires Shape(st, s) && s.blpPc.Polling?
    ensures s.blpPc.dep <= st.consumers && PollBudget(st, s.blpPc, s.blpSeq + 1) <= 2 * st.consumers + 2
  {
  }

  /** Who can work, in terms of the threads there are. */
  lemma RealMover(st: Setup, s: Sys) returns (t: Thread)
    requires SysInv(st, s) && !Drained(st, s)
    ensures (s.blpPc.Polling? && forall i | 0 <= i < |s.ups| :: s.ups[i] >= s.blpSeq + 1) ||
            (!Polls(s, SysStep(st, s, t)) && (t.Blp? ==> !s.blpPc.Polling?) && (t.Upstream? ==> t.i < st.consumers))
  {
    hide ProducerStep, UpstreamStep, OutStep, InputsOk, EngineOk, OutputsOk, Drained;
    t := SomebodyMoves(st, s);
    if t.Blp? && s.blpPc.Polling? && !Polls(s, SysStep(st, s, t)) {
      PassedBarrier(st, s);
    }
  }

  /** A polling BLP that works has passed the barrier. */
  lemma PassedBarrier(st: Setup, s: Sys)
    requires SysInv(st, s) && s.blpPc.Polling? && !Polls(s, BlpStep(st, s))
    ensures forall i | 0 <= i < |s.ups| :: s.ups[i] >= s.blpSeq + 1
  {
    hide InputsOk, EngineOk, OutputsOk, Index, Respond;
    assert s.blpPc.dep == st.consumers && s.blpPc.least.Some? && s.blpPc.least.value >= s.blpSeq + 1;
    assert forall i | 0 <= i < |s.ups| :: Polled(s.blpPc, i, s.ups[i]);
  }

  /** A fair round does some work, if there is any left. */
  lemma RoundWorks(st: Setup, s: Sys, round: seq<Thread>)
    requires SysInv(st, s) && !Drained(st, s) && FairRound(st, round)
    ensures WorkingSteps(st, s, round) >= 1
  {
    hide SysStep, Window, InputsOk, EngineOk, OutputsOk, Polls, Drained, WorkingSteps, PollBudget;
    var t := RealMover(st, s);
    if s.blpPc.Polling? && forall i | 0 <= i < |s.ups| :: s.ups[i] >= s.blpSeq + 1 {
      BudgetBound(st, s);
      BarrierWorks(st, s, round);
    } else {
      HasTurn(st, round, t);
      ReadyWorks(st, s, round, t);
    }
  }

  // ---------------------------------------------------------------- enough rounds drain

  function Flatten(rounds: seq<seq<Thread>>): seq<Thread> {
    if rounds == [] then [] else rounds[0] + Flatten(rounds[1..])
  }

  /** As many fair rounds as there are steps of work leave none, whatever is in them and in what order. */
  lemma {:induction false} FairRoundsDrain(st: Setup, s: Sys, rounds: seq<seq<Thread>>)
    requires SysInv(st, s) && (forall k | 0 <= k < |rounds| :: FairRound(st, rounds[k]))
    requires |rounds| >= WorkLeft(st, s)
    ensures SysInv(st, RunSys(st, s, Flatten(rounds))) && Drained(st, RunSys(st, s, Flatten(rounds)))
    decreases |rounds|
  {
    hide SysStep, Window, InputsOk, EngineOk, OutputsOk, WorkLeft, Drained, RunSys, FairRound, Shape, WorkingSteps;
    WorkNonNegative(st, s);
    if rounds == [] {
      InvShape(st, s);
      NoSteps(st, s);
    } else {
      RunConcat(st, s, rounds[0], Flatten(rounds[1..]));
      RunWorks(st, s, rounds[0]);
      if !Drained(st, s) {
        RoundWorks(st, s, rounds[0]);
      } else {
        WorkNonNegative(st, RunSys(st, s, rounds[0]));
      }
      assert forall k | 0 <= k < |rounds[1..]| :: rounds[1..][k] == rounds[k + 1];
      FairRoundsDrain(st, RunSys(st, s, rounds[0]), rounds[1..]);
    }
  }

  /** Every schedule that is made of enough fair rounds delivers every event of every message in order:
      a round for each step of work, of which there are `6 + 4 * consumers` per message and 6 per event. */
  lemma FairScheduleDelivers(st: Setup, rounds: seq<seq<Thread>>)
    requires st.Valid() && forall k | 0 <= k < |rounds| :: FairRound(st, rounds[k])
    requires |rounds| >= (6 + 4 * st.consumers) * |st.inputs| + 6 * |AllOutput(st)|
    ensures Shape(st, Initial(st))
    ensures RunSys(st, Initial(st), Flatten(rounds)).delivered == AllOutput(st)
  {
    hide RunSys, SysInv, Drained, AllOutput, FairRound, Flatten, WorkLeft;
    InitialInv(st);
    InvShape(st, Initial(st));
    InitialWork(st);
    FairRoundsDrain(st, Initial(st), rounds);
    DrainedIsComplete(st, RunSys(st, Initial(st), Flatten(rounds)));
  }

  // ---------------------------------------------------------------- infinite schedules

  /** The schedule that an infinite one begins with from `a` on, up to `b`. */
  function Segment(f: nat -> Thread, a: nat, b: nat): (r: seq<Thread>)
    requires a <= b
    ensures |r| == b - a && forall k | 0 <= k < b - a :: r[k] == f(a + k)
    decreases b - a
  {
    if a == b then [] else [f(a)] + Segment(f, a + 1, b)
  }

  ghost predicate Later(f: nat -> Thread, n: nat, t: Thread) {
    exists m: nat :: n <= m && f(m) == t
  }

  predicate Exists(st: Setup, t: Thread) {
    t.Upstream? ==> t.i < st.consumers
  }

  /** Every thread of the system has another turn after every moment. */
  ghost predicate FairForever(st: Setup, f: nat -> Thread) {
    forall n: nat, t: Thread | Exists(st, t) :: Later(f, n, t)
  }

  lemma SegmentsJoin(f: nat -> Thread, a: nat, b: nat, c: nat)
    requires a <= b <= c
    ensures Segment(f, a, b) + Segment(f, b, c) == Segment(f, a, c)
  {
  }

  lemma {:induction false} TurnsConcat(a: seq<Thread>, b: seq<Thread>)
    ensures BlpTurns(a + b) == BlpTurns(a) + BlpTurns(b)
  {
    if a == [] {
      assert a + b == b;
    } else {
      assert (a + b)[1..] == a[1..] + b;
      TurnsConcat(a[1..], b);
    }
  }

  /** The thread has a turn between `n` and `m`. */
  lemma NextTurn(st: Setup, f: nat -> Thread, n: nat, t: Thread) returns (m: nat)
    requires FairForever(st, f) && Exists(st, t)
    ensures n < m && t in Segment(f, n, m)
  {
    assert Later(f, n, t);
    var k: nat :| n <= k && f(k) == t;
    m := k + 1;
    assert Segment(f, n, m)[k - n] == t;
  }

  /** The BLP has as many turns as wanted. */
  lemma {:induction false} ManyTurns(st: Setup, f: nat -> Thread, n: nat, turns: nat) returns (m: nat)
    requires FairForever(st, f)
    ensures n <= m && BlpTurns(Segment(f, n, m)) >= turns
    decreases turns
  {
    hide FairForever, Segment;
    m := n;
    if turns > 0 {
      var k := NextTurn(st, f, n, Blp);
      m := ManyTurns(st, f, k, turns - 1);
      SomeTurn(Segment(f, n, k));
      TurnsConcat(Segment(f, n, k), Segment(f, k, m));
      SegmentsJoin(f, n, k, m);
    }
  }

  lemma {:induction false} SomeTurn(round: seq<Thread>)
    requires Blp in round
    ensures BlpTurns(round) > 0
  {
    if !round[0].Blp? {
      SomeTurn(round[1..]);
    }
  }

  /** The first upstream consumers all have a turn. */
  lemma {:induction false} UpstreamTurns(st: Setup, f: nat -> Thread, n: nat, c: nat) returns (m: nat)
    requires FairForever(st, f) && c <= st.consumers
    ensures n <= m && forall i: nat | i < c :: Upstream(i) in Segment(f, n, m)
  {
    hide FairForever, Segment;
    m := n;
    if c > 0 {
      var k := UpstreamTurns(st, f, n, c - 1);
      m := NextTurn(st, f, k, Upstream(c - 1));
      SegmentsJoin(f, n, k, m);
    }
  }

  /** From every moment on, a fair schedule goes through a fair round. */
  lemma NextRound(st: Setup, f: nat -> Thread, n: nat) returns (m: nat)
    requires FairForever(st, f)
    ensures n <= m && FairRound(st, Segment(f, n, m))
  {
    hide FairForever, Segment;
    var a := NextTurn(st, f, n, Producer);
    var b := NextTurn(st, f, a, Out);
    var c := UpstreamTurns(st, f, b, st.consumers);
    m := ManyTurns(st, f, c, 2 * st.consumers + 2);
    SegmentsJoin(f, n, a, b);
    SegmentsJoin(f, n, b, c);
    SegmentsJoin(f, n, c, m);
    TurnsConcat(Segment(f, n, c), Segment(f, c, m));
  }

  lemma {:induction false} ManyRounds(st: Setup, f: nat -> Thread, n: nat, count: nat)
    returns (m: nat, rounds: seq<seq<Thread>>)
    requires FairForever(st, f)
    ensures n <= m && |rounds| == count && Flatten(rounds) == Segment(f, n, m)
    ensures forall k | 0 <= k < count :: FairRound(st, rounds[k])
    decreases count
  {
    hide FairForever, FairRound;
    m, rounds := n, [];
    if count > 0 {
      var k := NextRound(st, f, n);
      var rest: seq<seq<Thread>>;
      m, rest := ManyRounds(st, f, k, count - 1);
      rounds := [Segment(f, n, k)] + rest;
      assert rounds[1..] == rest;
      SegmentsJoin(f, n, k, m);
    }
  }

  /** Under every infinite schedule that gives each thread another turn after every moment, there is a
      moment by which every event of every message has been delivered, in order. */
  lemma EventuallyDelivered(st: Setup, f: nat -> Thread) returns (n: nat)
    requires st.Valid() && FairForever(st, f)
    ensures Shape(st, Initial(st))
    ensures RunSys(st, Initial(st), Segment(f, 0, n)).delivered == AllOutput(st)
  {
    hide FairForever, FairRound, AllOutput, RunSys, SysInv;
    InitialInv(st);
    InvShape(st, Initial(st));
    var count := (6 + 4 * st.consumers) * |st.inputs| + 6 * |AllOutput(st)|;
    var rounds: seq<seq<Thread>>;
    n, rounds := ManyRounds(st, f, 0, count);
    FairScheduleDelivers(st, rounds);
  }
}
