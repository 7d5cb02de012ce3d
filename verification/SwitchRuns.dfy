/** Runs across the switch to the direct connection: what has been pushed is what the steps pushed, a message is refused
    only by its handler, and from every state reached all messages can be written, read and dispatched. */
module SwitchRuns {
  import opened Memory
  import opened Framing
  import opened SendChannel
  import opened DirectSwitch

  /** The messages pushed by the steps, in order. */
  function FramesIn(steps: seq<Step>): seq<seq<Byte>> {
    if steps == [] then []
    else Pushes(steps[0]) + FramesIn(steps[1..])
  }

  function Pushes(step: Step): seq<seq<Byte>> {
    if step.PushFrame? || step.PushSwitch? then [step.m] else []
  }

  lemma {:induction false} FramesOfStep(t: Table, w: World, step: Step)
    requires ValidTable(t) && Enabled(t, w, step)
    ensures Next(t, w, step).frames == w.frames + Pushes(step)
  {
  }

  lemma {:induction false} FramesOfRun(t: Table, start: World, steps: seq<Step>, w: World)
    requires ValidTable(t) && Reaches(t, start, steps, w)
    ensures w.frames == start.frames + FramesIn(steps)
    decreases |steps|
  {
    if steps != [] {
      var next := Next(t, start, steps[0]);
      FramesOfRun(t, next, steps[1..], w);
      var head := Pushes(steps[0]);
      FramesOfStep(t, start, steps[0]);
      assert start.frames + head + FramesIn(steps[1..]) == start.frames + (head + FramesIn(steps[1..]));
    }
  }

  /** A read ends the channel only if the handler refuses the message that comes next. */
  lemma {:induction false} ReadRefuses(t: Table, w: World, n: nat, verdict: nat -> bool)
    requires Inv(t, w) && Enabled(t, w, Read(n, verdict))
    ensures var v := Next(t, w, Read(n, verdict)); !v.alive ==> !verdict(|v.r.got|)
  {
    var o := Drain(t, Dispatch(verdict), w.r, w.buf + Chunk(w, n));
    if w.r.switched {
      DirectReadKeepsInv(t, w, n, verdict, o);
    } else {
      RelayReadKeepsInv(t, w, n, verdict, o);
    }
  }

  /** In every run: the messages dispatched are the first of those that the steps pushed, and a read ends the channel
      only if the handler refuses the next of them. */
  lemma {:induction false} DispatchedAsPushed(t: Table, steps: seq<Step>, w: World, n: nat, verdict: nat -> bool)
    requires ValidTable(t) && Reaches(t, START, steps, w)
    ensures w.r.got <= FramesIn(steps)
    ensures Enabled(t, w, Read(n, verdict)) ==>
              var v := Next(t, w, Read(n, verdict)); !v.alive ==> !verdict(|v.r.got|)
  {
    SwitchIsSeamless(t, steps, w);
    FramesOfRun(t, START, steps, w);
    assert [] + FramesIn(steps) == FramesIn(steps);
    if Enabled(t, w, Read(n, verdict)) {
      StartInv(t);
      RunKeepsInv(t, START, steps, w);
      ReadRefuses(t, w, n, verdict);
    }
  }

  // ---------------------------------------------------------------------------------------------------
  // Everything can be written
  // ---------------------------------------------------------------------------------------------------

  /** How many bytes are still to be written. */
  function Outstanding(s: Sender): int {
    if s.barrier == 0 then |s.buf| else Extent(s) + |s.buf| - s.barrier
  }

  lemma {:induction false} WriteShrinks(s: Sender)
    requires Sound(s) && s.buf != []
    ensures Extent(s) > 0 && PossibleResult(s, Took(OfferLength(s)))
    ensures 0 <= Outstanding(Written(s, Took(OfferLength(s)))) < Outstanding(s)
  {
  }

  lemma {:induction false} StepFirst(t: Table, w: World, step: Step, steps: seq<Step>, v: World)
    requires ValidTable(t) && Enabled(t, w, step) && Reaches(t, Next(t, w, step), steps, v)
    ensures Reaches(t, w, [step] + steps, v)
  {
    assert ([step] + steps)[1..] == steps;
  }

  lemma {:induction false} WriteAll(t: Table, w: World) returns (steps: seq<Step>, v: World)
    requires Inv(t, w)
    ensures Reaches(t, w, steps, v) && Inv(t, v) && v.s.buf == [] && v.frames == w.frames && v.alive == w.alive
    decreases Outstanding(w.s)
  {
    if w.s.buf == [] {
      steps, v := [], w;
    } else {
      WriteShrinks(w.s);
      var step := Write(Took(OfferLength(w.s)));
      StepKeepsInv(t, w, step);
      steps, v := WriteAll(t, Next(t, w, step));
      StepFirst(t, w, step, steps, v);
      steps := [step] + steps;
    }
  }

  // ---------------------------------------------------------------------------------------------------
  // Everything can be read
  // ---------------------------------------------------------------------------------------------------

  function Willing(): nat -> bool {
    (i: nat) => true
  }

  /** How many written bytes have not been read. */
  function Unread(w: World): int {
    |w.h.relay| - w.relayRead + |w.h.direct| - w.directRead
  }

  /** A receiver that has read all of the relayed connection reads the direct one if there is anything on it. */
  lemma {:induction false} DirectIsRead(t: Table, w: World)
    requires Inv(t, w) && w.alive && !w.r.switched && w.relayRead == |w.h.relay|
    ensures w.h.direct == []
  {
    WirePrefix(w);
    if w.h.direct != [] {
      assert w.h.relay[..w.relayRead] + w.h.direct[..0] == w.h.relay;
      Longer(w.frames, |w.r.got|, w.cut);
    }
  }

  /** How much the receiver can read next. */
  function Readable(w: World): int {
    var there := if w.r.switched then |w.h.direct| - w.directRead else |w.h.relay| - w.relayRead;
    if there <= CAP - |w.buf| then there else CAP - |w.buf|
  }

  lemma {:induction false} SomethingToRead(t: Table, w: World)
    requires Inv(t, w) && w.alive && Unread(w) != 0
    ensures 0 < Readable(w) && Enabled(t, w, Read(Readable(w), Willing()))
    ensures Unread(w) > 0
  {
    if !w.r.switched && w.relayRead == |w.h.relay| {
      DirectIsRead(t, w);
    }
  }

  lemma {:induction false} ReadAll(t: Table, w: World) returns (steps: seq<Step>, v: World)
    requires Inv(t, w) && w.alive && w.s.buf == []
    ensures Reaches(t, w, steps, v) && Inv(t, v) && v.alive && v.s.buf == [] && v.frames == w.frames && Unread(v) == 0
    decreases Unread(w)
  {
    if Unread(w) == 0 {
      steps, v := [], w;
    } else {
      SomethingToRead(t, w);
      var step := Read(Readable(w), Willing());
      ReadRefuses(t, w, Readable(w), Willing());
      StepKeepsInv(t, w, step);
      var u := Next(t, w, step);
      assert u.alive && Unread(u) == Unread(w) - Readable(w);
      steps, v := ReadAll(t, u);
      StepFirst(t, w, step, steps, v);
      steps := [step] + steps;
    }
  }

  lemma {:induction false} ReachesOn(t: Table, a: World, steps: seq<Step>, b: World, more: seq<Step>, c: World)
    requires ValidTable(t) && Reaches(t, a, steps, b) && Reaches(t, b, more, c)
    ensures Reaches(t, a, steps + more, c)
    decreases |steps|
  {
    if steps == [] {
      assert steps + more == more;
    } else {
      var next := Next(t, a, steps[0]);
      ReachesOn(t, next, steps[1..], b, more, c);
      StepFirst(t, a, steps[0], steps[1..] + more, c);
      assert steps + more == [steps[0]] + (steps[1..] + more);
    }
  }

  /** From every state reached with a live receiver, writing and reading alone lead to a state in which all messages
      pushed have been dispatched, before, at or after the switch. */
  lemma {:induction false} EverythingCanArrive(t: Table, steps: seq<Step>, w: World)
    returns (more: seq<Step>, v: World)
    requires ValidTable(t) && Reaches(t, START, steps, w) && w.alive
    ensures Reaches(t, START, steps + more, v) && v.alive && v.r.got == w.frames == FramesIn(steps)
  {
    StartInv(t);
    RunKeepsInv(t, START, steps, w);
    FramesOfRun(t, START, steps, w);
    assert [] + FramesIn(steps) == FramesIn(steps);
    var first, u := WriteAll(t, w);
    var second, z := ReadAll(t, u);
    AllRead(t, z);
    ReachesOn(t, w, first, u, second, z);
    more, v := first + second, z;
    ReachesOn(t, START, steps, w, more, v);
  }
}
