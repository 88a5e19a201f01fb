/**
  Exclusive access to ring cells: the accesses each step makes, that no two threads conflict on a field,
  and exactly when two threads are at one cell at once.
 */
module PipelineAccess {
  import opened Types
  import opened Exchange
  import opened RingBuffers
  import opened Pipeline
  import opened PipelineSafety
  import Wire

  // ---------------------------------------------------------------- the accesses of a step

  datatype Ring = InRing | OutRing

  /** The raw bytes, length and timestamp of an input cell, its command, and an output cell. */
  datatype Field = MessageField | CommandField | EventField

  datatype Access = Access(ring: Ring, cell: nat, field: Field, write: bool)

  /** The accesses to ring cells a thread's next step makes. */
  function Accesses(st: Setup, s: Sys, t: Thread): set<Access>
    requires Shape(st, s)
  {
    match t
    case Producer =>
      if s.prodPc == Writing then
        var cell := Index(s.nextSeq - 1, st.inCapacity);
        {Access(InRing, cell, MessageField, true), Access(InRing, cell, CommandField, true)}
      else {}
    case Upstream(i) =>
      if i >= st.consumers then {}
      else
        var cell := Index(s.ups[i] + 1, st.inCapacity);
        if s.upPcs[i] == Reading then {Access(InRing, cell, MessageField, false)}
        else if s.upPcs[i] == Storing && i == 0 then {Access(InRing, cell, CommandField, true)}
        else {}
    case Blp =>
      if s.blpPc == ReadingSlot then
        var cell := Index(s.blpSeq + 1, st.inCapacity);
        {Access(InRing, cell, MessageField, false), Access(InRing, cell, CommandField, false)}
      else if s.blpPc == WritingSlot then {Access(OutRing, Index(s.outSeq + 1, st.outCapacity), EventField, true)}
      else {}
    case Out =>
      if s.outPc == OutReading then {Access(OutRing, Index(s.consumed + 1, st.outCapacity), EventField, false)} else {}
  }

  // ---------------------------------------------------------------- the table is that of the steps

  /** The two states hold the same in the field of the cell an access names. */
  predicate FieldAgrees(st: Setup, s: Sys, s2: Sys, a: Access)
    requires Shape(st, s) && Shape(st, s2)
  {
    match a.ring
    case InRing =>
      a.cell < st.inCapacity ==>
        var slot, slot2 := s.inRing[a.cell], s2.inRing[a.cell];
        && (a.field == MessageField ==> slot.raw == slot2.raw && slot.timestamp == slot2.timestamp)
        && (a.field == CommandField ==> slot.command == slot2.command)
    case OutRing =>
      a.cell < st.outCapacity && a.field == EventField ==> s.outRing[a.cell] == s2.outRing[a.cell]
  }

  lemma ProducerWrites(st: Setup, s: Sys, ring: Ring, cell: nat, field: Field)
    requires Shape(st, s) && Shape(st, SysStep(st, s, Producer))
    ensures !FieldAgrees(st, s, SysStep(st, s, Producer), Access(ring, cell, field, true)) ==>
              Access(ring, cell, field, true) in Accesses(st, s, Producer)
  {
    hide Index, Respond, CommandOf, Wire.Truncated;
  }

  lemma UpstreamWrites(st: Setup, s: Sys, i: nat, ring: Ring, cell: nat, field: Field)
    requires Shape(st, s) && Shape(st, SysStep(st, s, Upstream(i)))
    ensures !FieldAgrees(st, s, SysStep(st, s, Upstream(i)), Access(ring, cell, field, true)) ==>
              Access(ring, cell, field, true) in Accesses(st, s, Upstream(i))
  {
    hide Index, Respond, CommandOf, Wire.Truncated;
  }

  lemma BlpWritesEvents(st: Setup, s: Sys, ring: Ring, cell: nat, field: Field)
    requires Shape(st, s) && Shape(st, SysStep(st, s, Blp))
    ensures !FieldAgrees(st, s, SysStep(st, s, Blp), Access(ring, cell, field, true)) ==>
              Access(ring, cell, field, true) in Accesses(st, s, Blp)
  {
    hide Index, Respond, CommandOf, Wire.Truncated;
  }

  lemma OutWrites(st: Setup, s: Sys, ring: Ring, cell: nat, field: Field)
    requires Shape(st, s) && Shape(st, SysStep(st, s, Out))
    ensures !FieldAgrees(st, s, SysStep(st, s, Out), Access(ring, cell, field, true)) ==>
              Access(ring, cell, field, true) in Accesses(st, s, Out)
  {
    hide Index, Respond, CommandOf, Wire.Truncated;
  }

  /** A step changes only those fields of cells that the table says it writes. */
  lemma WritesAreListed(st: Setup, s: Sys, t: Thread, ring: Ring, cell: nat, field: Field)
    requires Shape(st, s)
    ensures Shape(st, SysStep(st, s, t))
    ensures !FieldAgrees(st, s, SysStep(st, s, t), Access(ring, cell, field, true)) ==>
              Access(ring, cell, field, true) in Accesses(st, s, t)
  {
    hide SysStep, FieldAgrees, Accesses;
    StepShape(st, s, t);
    match t
    case Producer => ProducerWrites(st, s, ring, cell, field);
    case Upstream(i) => UpstreamWrites(st, s, i, ring, cell, field);
    case Blp => BlpWritesEvents(st, s, ring, cell, field);
    case Out => OutWrites(st, s, ring, cell, field);
  }

  /** The sequences a thread may read, and its own variables. */
  ghost predicate SameView(s: Sys, s2: Sys, t: Thread) {
    match t
    case Producer =>
      s2.nextSeq == s.nextSeq && s2.prodPc == s.prodPc && s2.prodSeq == s.prodSeq && s2.blpSeq == s.blpSeq
    case Upstream(i) =>
      && |s2.ups| == |s.ups| && |s2.upPcs| == |s.upPcs| && s2.prodSeq == s.prodSeq
      && (i < |s.ups| ==> s2.ups[i] == s.ups[i]) && (i < |s.upPcs| ==> s2.upPcs[i] == s.upPcs[i])
      && (i == 0 ==> s2.parsed == s.parsed)
    case Blp =>
      && s2.ups == s.ups && s2.consumed == s.consumed && s2.blpSeq == s.blpSeq && s2.outSeq == s.outSeq
      && s2.blpPc == s.blpPc && s2.engine == s.engine && s2.pending == s.pending
    case Out =>
      s2.outSeq == s.outSeq && s2.consumed == s.consumed && s2.outPc == s.outPc && s2.delivered == s.delivered
  }

  /** A thread that sees the same sequences has the same accesses to make. */
  lemma ViewDecidesAccesses(st: Setup, s: Sys, s2: Sys, t: Thread)
    requires Shape(st, s) && Shape(st, s2) && SameView(s, s2, t)
    ensures Accesses(st, s2, t) == Accesses(st, s, t)
  {
    hide Index;
  }

  /** The two states hold the same in every field the table says the thread's next step reads. */
  ghost predicate SameReads(st: Setup, s: Sys, s2: Sys, t: Thread)
    requires Shape(st, s) && Shape(st, s2)
  {
    forall a | a in Accesses(st, s, t) && !a.write :: FieldAgrees(st, s, s2, a)
  }

  /** The steps from `s` to `s'` and from `s2` to `s2'` do the same to the thread's own variables, and
      write the same into cells. */
  ghost predicate SameEffect(st: Setup, s: Sys, s': Sys, s2': Sys, t: Thread)
    requires Shape(st, s) && Shape(st, s') && Shape(st, s2')
  {
    SameView(s', s2', t) && forall a | a in Accesses(st, s, t) && a.write :: FieldAgrees(st, s', s2', a)
  }

  lemma ProducerReads(st: Setup, s: Sys, s2: Sys)
    requires Shape(st, s) && Shape(st, s2) && SameView(s, s2, Producer)
    requires Shape(st, ProducerStep(st, s)) && Shape(st, ProducerStep(st, s2))
    ensures SameEffect(st, s, ProducerStep(st, s), ProducerStep(st, s2), Producer)
  {
    hide Index, Wire.Truncated;
  }

  lemma UpstreamReads(st: Setup, s: Sys, s2: Sys, i: nat)
    requires Shape(st, s) && Shape(st, s2) && SameView(s, s2, Upstream(i)) && SameReads(st, s, s2, Upstream(i))
    requires i < st.consumers && Shape(st, UpstreamStep(st, s, i)) && Shape(st, UpstreamStep(st, s2, i))
    ensures SameEffect(st, s, UpstreamStep(st, s, i), UpstreamStep(st, s2, i), Upstream(i))
  {
    hide CommandOf, Index;
    if s.upPcs[i] == Reading {
      assert FieldAgrees(st, s, s2, Access(InRing, Index(s.ups[i] + 1, st.inCapacity), MessageField, false));
    }
  }

  lemma BlpReadsSame(st: Setup, s: Sys, s2: Sys)
    requires Shape(st, s) && Shape(st, s2) && SameView(s, s2, Blp) && SameReads(st, s, s2, Blp)
    requires Shape(st, BlpStep(st, s)) && Shape(st, BlpStep(st, s2))
    ensures SameEffect(st, s, BlpStep(st, s), BlpStep(st, s2), Blp)
  {
    hide Respond, Index;
    if s.blpPc == ReadingSlot {
      var cell := Index(s.blpSeq + 1, st.inCapacity);
      assert FieldAgrees(st, s, s2, Access(InRing, cell, MessageField, false));
      assert FieldAgrees(st, s, s2, Access(InRing, cell, CommandField, false));
    }
  }

  lemma OutReads(st: Setup, s: Sys, s2: Sys)
    requires Shape(st, s) && Shape(st, s2) && SameView(s, s2, Out) && SameReads(st, s, s2, Out)
    requires Shape(st, OutStep(st, s)) && Shape(st, OutStep(st, s2))
    ensures SameEffect(st, s, OutStep(st, s), OutStep(st, s2), Out)
  {
    hide Index;
    if s.outPc == OutReading {
      assert FieldAgrees(st, s, s2, Access(OutRing, Index(s.consumed + 1, st.outCapacity), EventField, false));
    }
  }

  /** A step reads only those fields of cells that the table says it reads: if two states look the same
      to the thread and hold the same in all of these, its step has the same effect. */
  lemma ReadsAreListed(st: Setup, s: Sys, s2: Sys, t: Thread)
    requires Shape(st, s) && Shape(st, s2) && SameView(s, s2, t) && SameReads(st, s, s2, t)
    ensures Shape(st, SysStep(st, s, t)) && Shape(st, SysStep(st, s2, t))
    ensures SameEffect(st, s, SysStep(st, s, t), SysStep(st, s2, t), t)
  {
    hide ProducerStep, UpstreamStep, BlpStep, OutStep, SameReads, Shape;
    StepShape(st, s, t);
    StepShape(st, s2, t);
    match t
    case Producer => ProducerReads(st, s, s2);
    case Upstream(i) => if i < st.consumers { UpstreamReads(st, s, s2, i); }
    case Blp => BlpReadsSame(st, s, s2);
    case Out => OutReads(st, s, s2);
  }

  // ---------------------------------------------------------------- no field is shared

  /** Two accesses to one cell, whatever the fields, one of them a write. */
  ghost predicate SameCell(a: Access, b: Access) {
    a.ring == b.ring && a.cell == b.cell && (a.write || b.write)
  }

  ghost predicate Conflict(a: Access, b: Access) {
    SameCell(a, b) && a.field == b.field
  }

  /** Threads `t` and `u` are about to access one cell, one of them writing. */
  ghost predicate Meet(st: Setup, s: Sys, t: Thread, u: Thread)
    requires Shape(st, s)
  {
    exists a, b :: a in Accesses(st, s, t) && b in Accesses(st, s, u) && SameCell(a, b)
  }

  /** The unmarshaller is about to store the command of the very message that another upstream consumer
      is about to read. */
  ghost predicate StoresWhileRead(s: Sys, t: Thread, u: Thread)
    requires |s.ups| == |s.upPcs| >= 1
  {
    && t == Upstream(0) && s.upPcs[0] == Storing
    && u.Upstream? && 0 < u.i < |s.ups| && s.upPcs[u.i] == Reading && s.ups[u.i] == s.ups[0]
  }

  lemma ProducerApart(st: Setup, s: Sys, u: Thread, a: Access, b: Access)
    requires SysInv(st, s) && u != Producer && a in Accesses(st, s, Producer) && b in Accesses(st, s, u)
    ensures !SameCell(a, b)
  {
    hide Index, InputsOk, EngineOk, OutputsOk;
    match u
    case Upstream(i) => WindowInjective(s.ups[i] + 1, s.nextSeq - 1, st.inCapacity);
    case Blp =>
      if s.blpPc == ReadingSlot {
        assert s.blpSeq + 1 <= s.ups[0];
        WindowInjective(s.blpSeq + 1, s.nextSeq - 1, st.inCapacity);
      }
    case _ =>
  }

  /** Upstream consumers are at cells of different messages unless they are at the same number. */
  lemma UpstreamCells(st: Setup, s: Sys, i: nat, j: nat)
    requires SysInv(st, s) && i < st.consumers && j < st.consumers
    requires s.upPcs[i] != Waiting && s.upPcs[j] != Waiting && s.ups[i] < s.ups[j]
    ensures Index(s.ups[i] + 1, st.inCapacity) != Index(s.ups[j] + 1, st.inCapacity)
  {
    hide Index, InputsOk, EngineOk, OutputsOk;
    WindowInjective(s.ups[i] + 1, s.ups[j] + 1, st.inCapacity);
  }

  /** An upstream consumer reads the message of its next number, or is the unmarshaller storing its command. */
  lemma UpstreamAccess(st: Setup, s: Sys, i: nat, a: Access)
    requires Shape(st, s) && a in Accesses(st, s, Upstream(i))
    ensures i < st.consumers == |s.ups| == |s.upPcs| && s.upPcs[i] != Waiting
    ensures a.ring == InRing && a.cell == Index(s.ups[i] + 1, st.inCapacity)
    ensures if a.write then a.field == CommandField && i == 0 && s.upPcs[i] == Storing
            else a.field == MessageField && s.upPcs[i] == Reading
  {
    hide Index;
  }

  lemma UpstreamsMeet(st: Setup, s: Sys, i: nat, j: nat, a: Access, b: Access)
    requires SysInv(st, s) && i != j && SameCell(a, b)
    requires a in Accesses(st, s, Upstream(i)) && b in Accesses(st, s, Upstream(j))
    ensures a.field != b.field
    ensures StoresWhileRead(s, Upstream(i), Upstream(j)) || StoresWhileRead(s, Upstream(j), Upstream(i))
  {
    hide Accesses, Index, SysInv, Shape;
    InvShape(st, s);
    UpstreamAccess(st, s, i, a);
    UpstreamAccess(st, s, j, b);
    if s.ups[i] < s.ups[j] {
      UpstreamCells(st, s, i, j);
    } else if s.ups[j] < s.ups[i] {
      UpstreamCells(st, s, j, i);
    }
  }

  lemma UpstreamBlpApart(st: Setup, s: Sys, i: nat, a: Access, b: Access)
    requires SysInv(st, s) && a in Accesses(st, s, Upstream(i)) && b in Accesses(st, s, Blp)
    ensures !SameCell(a, b)
  {
    hide Index, InputsOk, EngineOk, OutputsOk;
    if s.blpPc == ReadingSlot {
      assert s.blpSeq + 1 <= s.ups[i];
      WindowInjective(s.blpSeq + 1, s.ups[i] + 1, st.inCapacity);
    }
  }

  lemma OutputApart(st: Setup, s: Sys, a: Access, b: Access)
    requires SysInv(st, s) && a in Accesses(st, s, Blp) && b in Accesses(st, s, Out)
    ensures !SameCell(a, b)
  {
    hide Index, InputsOk, EngineOk, Window, AllOutput;
    if s.blpPc == WritingSlot && s.outPc == OutReading {
      WindowInjective(s.consumed + 1, s.outSeq + 1, st.outCapacity);
    }
  }

  lemma RingsApart(st: Setup, s: Sys, i: nat, a: Access, b: Access)
    requires SysInv(st, s) && a in Accesses(st, s, Upstream(i)) && b in Accesses(st, s, Out)
    ensures !SameCell(a, b)
  {
    hide Index, Window, InputsOk, EngineOk, OutputsOk;
  }

  /** What it takes for two threads to be at one cell: and even then they are at different fields. */
  lemma MeetingPair(st: Setup, s: Sys, t: Thread, u: Thread, a: Access, b: Access)
    requires SysInv(st, s) && t != u && a in Accesses(st, s, t) && b in Accesses(st, s, u) && SameCell(a, b)
    ensures a.field != b.field
    ensures StoresWhileRead(s, t, u) || StoresWhileRead(s, u, t)
  {
    hide Accesses, Window, InputsOk, EngineOk, OutputsOk, StoresWhileRead;
    if t.Producer? {
      ProducerApart(st, s, u, a, b);
    } else if u.Producer? {
      ProducerApart(st, s, t, b, a);
    } else if t.Upstream? && u.Upstream? {
      UpstreamsMeet(st, s, t.i, u.i, a, b);
    } else if t.Upstream? {
      if u.Blp? { UpstreamBlpApart(st, s, t.i, a, b); } else { RingsApart(st, s, t.i, a, b); }
    } else if u.Upstream? {
      if t.Blp? { UpstreamBlpApart(st, s, u.i, b, a); } else { RingsApart(st, s, u.i, b, a); }
    } else if t.Blp? {
      OutputApart(st, s, a, b);
    } else {
      OutputApart(st, s, b, a);
    }
  }

  /** In no reachable state are two threads about to access the same field of the same cell, one of
      them writing. */
  lemma NoConflicts(st: Setup, schedule: seq<Thread>, t: Thread, u: Thread)
    requires st.Valid() && t != u
    ensures Shape(st, Initial(st)) && Shape(st, RunSys(st, Initial(st), schedule))
    ensures var s := RunSys(st, Initial(st), schedule);
            forall a, b | a in Accesses(st, s, t) && b in Accesses(st, s, u) :: !Conflict(a, b)
  {
    hide Accesses, RunSys, Window, InputsOk, EngineOk, OutputsOk, SameCell, StoresWhileRead;
    InitialInv(st);
    RunInv(st, Initial(st), schedule);
    var s := RunSys(st, Initial(st), schedule);
    forall a, b | a in Accesses(st, s, t) && b in Accesses(st, s, u)
      ensures !Conflict(a, b)
    {
      if SameCell(a, b) {
        MeetingPair(st, s, t, u, a, b);
      }
    }
  }

  // ---------------------------------------------------------------- when a cell is shared

  /** In a reachable state two threads are about to access one cell, one of them writing, exactly when
      one is the unmarshaller storing the command of a message and the other is an upstream consumer
      reading that message. */
  lemma MeetIff(st: Setup, schedule: seq<Thread>, t: Thread, u: Thread)
    requires st.Valid() && t != u
    ensures Shape(st, Initial(st)) && Shape(st, RunSys(st, Initial(st), schedule))
    ensures var s := RunSys(st, Initial(st), schedule);
            Meet(st, s, t, u) <==> StoresWhileRead(s, t, u) || StoresWhileRead(s, u, t)
  {
    hide Accesses, RunSys, Window, InputsOk, EngineOk, OutputsOk, SameCell, StoresWhileRead, Meet;
    InitialInv(st);
    RunInv(st, Initial(st), schedule);
    var s := RunSys(st, Initial(st), schedule);
    if Meet(st, s, t, u) {
      var a, b := MeetingAccesses(st, s, t, u);
      MeetingPair(st, s, t, u, a, b);
    }
    if StoresWhileRead(s, t, u) {
      StorerMeetsReader(st, s, t, u);
    }
    if StoresWhileRead(s, u, t) {
      StorerMeetsReader(st, s, u, t);
    }
  }

  lemma MeetingAccesses(st: Setup, s: Sys, t: Thread, u: Thread) returns (a: Access, b: Access)
    requires Shape(st, s) && Meet(st, s, t, u)
    ensures a in Accesses(st, s, t) && b in Accesses(st, s, u) && SameCell(a, b)
  {
    hide Accesses, SameCell;
    a, b :| a in Accesses(st, s, t) && b in Accesses(st, s, u) && SameCell(a, b);
  }

  lemma StorerMeetsReader(st: Setup, s: Sys, t: Thread, u: Thread)
    requires Shape(st, s) && StoresWhileRead(s, t, u)
    ensures Meet(st, s, t, u) && Meet(st, s, u, t)
  {
    hide Index;
    var cell := Index(s.ups[0] + 1, st.inCapacity);
    var a, b := Access(InRing, cell, CommandField, true), Access(InRing, cell, MessageField, false);
    assert a in Accesses(st, s, t) && b in Accesses(st, s, u) && SameCell(a, b) && SameCell(b, a);
  }

  lemma RunCons(st: Setup, s: Sys, t: Thread, rest: seq<Thread>)
    requires Shape(st, s)
    ensures Shape(st, SysStep(st, s, t)) && RunSys(st, s, [t] + rest) == RunSys(st, SysStep(st, s, t), rest)
  {
    StepShape(st, s, t);
    hide Shape, SysStep;
    assert ([t] + rest)[1..] == rest;
  }

  /** The producer publishes its first message and nobody else has moved. */
  lemma FirstPublished(st: Setup, rest: seq<Thread>) returns (s: Sys)
    requires st.Valid() && st.inputs != []
    ensures Shape(st, Initial(st)) && Shape(st, s)
    ensures RunSys(st, Initial(st), [Producer, Producer, Producer] + rest) == RunSys(st, s, rest)
    ensures s.prodSeq == 0 && forall i | 0 <= i < st.consumers :: s.ups[i] == -1 && s.upPcs[i] == Waiting
  {
    hide Index, Wire.Truncated, RunSys;
    var s0 := Initial(st);
    RunCons(st, s0, Producer, [Producer, Producer] + rest);
    var s1 := SysStep(st, s0, Producer);
    RunCons(st, s1, Producer, [Producer] + rest);
    var s2 := SysStep(st, s1, Producer);
    RunCons(st, s2, Producer, rest);
    s := SysStep(st, s2, Producer);
    assert [Producer] + ([Producer, Producer] + rest) == [Producer, Producer, Producer] + rest;
    assert [Producer] + ([Producer] + rest) == [Producer, Producer] + rest;
  }

  /** It does happen: with a second upstream consumer and a message, these six steps lead there. */
  lemma CellIsShared(st: Setup, i: nat)
    requires st.Valid() && 0 < i < st.consumers && st.inputs != []
    ensures Shape(st, Initial(st))
    ensures var schedule := [Producer, Producer, Producer, Upstream(0), Upstream(0), Upstream(i)];
            var s := RunSys(st, Initial(st), schedule);
            Shape(st, s) && StoresWhileRead(s, Upstream(0), Upstream(i)) && Meet(st, s, Upstream(0), Upstream(i))
  {
    hide Index, CommandOf, Wire.Truncated, RunSys, Meet;
    var rest := [Upstream(0), Upstream(0), Upstream(i)];
    var s3 := FirstPublished(st, rest);
    RunCons(st, s3, Upstream(0), rest[1..]);
    var s4 := SysStep(st, s3, Upstream(0));
    RunCons(st, s4, Upstream(0), rest[2..]);
    var s5 := SysStep(st, s4, Upstream(0));
    RunCons(st, s5, Upstream(i), []);
    var s6 := SysStep(st, s5, Upstream(i));
    assert rest == [Upstream(0)] + rest[1..] && rest[1..] == [Upstream(0)] + rest[2..];
    assert rest[2..] == [Upstream(i)] + [];
    RunNone(st, s6);
    assert [Producer, Producer, Producer] + rest ==
           [Producer, Producer, Producer, Upstream(0), Upstream(0), Upstream(i)];
    StorerMeetsReader(st, s6, Upstream(0), Upstream(i));
  }

  lemma RunNone(st: Setup, s: Sys)
    requires Shape(st, s)
    ensures RunSys(st, s, []) == s
  {
  }
}
