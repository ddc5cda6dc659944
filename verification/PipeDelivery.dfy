/** Every packet that put() has accepted can be fetched: from any state of any run, sending, reading and listening go
    on until everything has arrived. */
module PipeDelivery {
  import opened ByteBuffers
  import opened MqttFraming
  import opened Pipe

  /** put() accepts exactly while the ring has room. */
  lemma PutIsAccepted(s: Pipe, packet: Bytes)
    ensures var r := Apply(s, Put(packet));
            if |s.tx.ring| < 5 then
              r.accepted == s.accepted + [packet] && r.tx.ring == s.tx.ring + [packet]
            else
              r == s
  {
  }

  /** What the listener still has to do for packets that are complete. */
  function Listening(rx: Rx): nat {
    (if rx.announcing then 3 else 0) + 2 * rx.events + if rx.handling then 1 else 0
  }

  /** The step that is taken next: listen, then read, then send. */
  function NextStep(s: Pipe): Step {
    if s.rx.announcing then Announce
    else if s.rx.handling then Fetch
    else if s.rx.events > 0 then TakeEvent
    else if s.wire != [] then Receive(1)
    else Send(|Remaining(Prepared(s.tx))|)
  }

  ghost predicate Done(s: Pipe) {
    Pending(s.tx) == [] && s.wire == [] && Listening(s.rx) == 0
  }

  lemma ListenStep(s: Pipe)
    requires Inv(s) && Listening(s.rx) > 0
    ensures var r := Apply(s, NextStep(s));
            Listening(r.rx) < Listening(s.rx) && r.tx == s.tx && r.wire == s.wire && r.accepted == s.accepted
  {
  }

  /** With nothing to listen to, the ring is empty and one byte can be read. */
  lemma ReadStep(s: Pipe)
    requires Inv(s) && Listening(s.rx) == 0 && s.wire != []
    ensures var r := Apply(s, NextStep(s)); r.wire == s.wire[1..] && r.tx == s.tx && r.accepted == s.accepted
  {
    assert Tokens(s.rx) == 0;
    InStepWants(s.rx.assembly, s.accepted, |s.assembled|, s.read);
  }

  lemma SendStep(s: Pipe)
    requires Inv(s) && Listening(s.rx) == 0 && s.wire == [] && Pending(s.tx) != []
    ensures var r := Apply(s, NextStep(s)); |Pending(r.tx)| < |Pending(s.tx)| && r.accepted == s.accepted
  {
    PreparedKeepsSendSide(s.tx, s.sent, s.accepted);
    var tx := Prepared(s.tx);
    assert Pending(tx) == Pending(s.tx);
    assert Remaining(tx)[..|Remaining(tx)|] == Remaining(tx);
  }

  /** When there is nothing left to do, everything accepted has been fetched. */
  lemma DoneIsDelivered(s: Pipe)
    requires Inv(s) && Done(s)
    ensures s.fetched == s.assembled == s.accepted
  {
    var k := |s.assembled|;
    assert s.tx.ring == [] && Unsent(s.tx) == [];
    assert s.read == Concat(s.accepted);
    if k < |s.accepted| {
      ConcatAt(s.accepted, k);
    }
    assert Tokens(s.rx) == 0 && s.fetched + s.rx.ring == s.fetched;
    assert s.accepted[..k] == s.accepted;
  }

  lemma {:induction false} RunFirst(s: Pipe, step: Step, later: seq<Step>)
    ensures Run(s, [step] + later) == Run(Apply(s, step), later)
  {
    assert ([step] + later)[1..] == later;
  }

  lemma {:induction false} CanDeliver(s: Pipe) returns (steps: seq<Step>, r: Pipe)
    requires Inv(s)
    ensures r == Run(s, steps) && forall i :: 0 <= i < |steps| ==> !steps[i].Put?
    ensures r.accepted == s.accepted && r.fetched == r.assembled == s.accepted
    decreases |Pending(s.tx)|, |s.wire|, Listening(s.rx)
  {
    if Done(s) {
      steps, r := [], s;
      DoneIsDelivered(s);
    } else {
      var step := NextStep(s);
      if Listening(s.rx) > 0 {
        ListenStep(s);
      } else if s.wire != [] {
        ReadStep(s);
      } else {
        SendStep(s);
      }
      StepKeeps(s, step);
      var later;
      later, r := CanDeliver(Apply(s, step));
      RunFirst(s, step, later);
      steps := [step] + later;
    }
  }

  /** After every run. */
  lemma {:induction false} EveryPacketCanArrive(steps: seq<Step>) returns (more: seq<Step>, r: Pipe)
    requires PutsAreWellFormed(steps)
    ensures r == Run(Run(START, steps), more) && forall i :: 0 <= i < |more| ==> !more[i].Put?
    ensures r.fetched == r.accepted == Run(START, steps).accepted
  {
    StartHolds();
    RunKeeps(START, steps);
    more, r := CanDeliver(Run(START, steps));
  }
}
