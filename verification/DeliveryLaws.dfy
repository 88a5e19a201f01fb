/**
  What is delivered, message by message: the first sixteen events of each command, in order, each with the
  timestamp of the message that carried the command.
 */
module DeliveryLaws {
  import opened Types
  import opened Exchange
  import opened EventBuffers
  import opened Pipeline
  import opened PipelineSafety
  import Wire

  /** Before the first message there is an empty exchange and no output. */
  lemma AtFirst(st: Setup)
    requires st.Valid()
    ensures Sequential(st, 0).state == State([], [], map[], 1) && Sequential(st, 0).output == []
  {
  }

  /** What message `n` adds to the output: nothing when it does not parse; otherwise the first events of
      its command, sixteen at most, each with the timestamp of the message. */
  lemma MessageOutput(st: Setup, n: nat)
    requires st.Valid() && n < |st.inputs|
    ensures var before, after := Sequential(st, n), Sequential(st, n + 1);
            && before.output <= after.output
            && var more := after.output[|before.output|..];
               match Wire.Parse(st.inputs[n].raw)
               case Err(_) =>
                 more == [] && after.state == before.state
               case Ok(cmd) =>
                 var r := Step(st.cfg, before.state, cmd);
                 && after.state == r.state
                 && |more| == (if |r.events| < 16 then |r.events| else 16)
                 && forall i | 0 <= i < |more| ::
                      more[i].event == r.events[i] && more[i].timestamp == st.inputs[n].timestamp
  {
    hide Step, Wire.Parse, Respond;
    ResponseIs(st.cfg, Sequential(st, n).state, CommandOf(st.inputs[n].raw), st.inputs[n].timestamp);
    var before, after := Sequential(st, n), Sequential(st, n + 1);
    var r := Respond(st.cfg, before.state, CommandOf(st.inputs[n].raw), st.inputs[n].timestamp);
    assert after == Response(r.state, before.output + r.output);
    assert after.output[|before.output|..] == r.output;
  }

  /** Which message the `j`-th delivery comes from. */
  lemma {:induction false} MessageOf(st: Setup, n: nat, j: nat) returns (m: nat)
    requires st.Valid() && n <= |st.inputs| && j < |Sequential(st, n).output|
    ensures m < n && |Sequential(st, m).output| <= j < |Sequential(st, m + 1).output|
    decreases n
  {
    hide Sequential;
    if n == 0 {
      AtFirst(st);
      assert false;
    } else if j < |Sequential(st, n - 1).output| {
      m := MessageOf(st, n - 1, j);
    } else {
      m := n - 1;
    }
  }

  /** Under every schedule, the `j`-th delivery is the `i`-th event of the command of message `n`, one of
      its first sixteen, with that message's timestamp; and ahead of it are all deliveries of the messages
      before and the `i` before it of its own. */
  lemma DeliveredIs(st: Setup, schedule: seq<Thread>, j: nat) returns (n: nat, i: nat)
    requires st.Valid() && Shape(st, Initial(st)) && j < |RunSys(st, Initial(st), schedule).delivered|
    ensures n < |st.inputs| && Wire.Parse(st.inputs[n].raw).Ok?
    ensures var before := Sequential(st, n);
            var events := Step(st.cfg, before.state, Wire.Parse(st.inputs[n].raw).value).events;
            var delivery := RunSys(st, Initial(st), schedule).delivered[j];
            && j == |before.output| + i && i < 16 && i < |events|
            && delivery.event == events[i] && delivery.timestamp == st.inputs[n].timestamp
  {
    hide RunSys, Sequential, Step, Wire.Parse;
    DeliveredIsPrefix(st, schedule);
    n := MessageOf(st, |st.inputs|, j);
    i := j - |Sequential(st, n).output|;
    SequentialGrows(st, n + 1, |st.inputs|);
    MessageOutput(st, n);
    assert Sequential(st, n + 1).output[|Sequential(st, n).output|..][i] == Sequential(st, n + 1).output[j];
  }
}
