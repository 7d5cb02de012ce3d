/** The two ends of a file transfer agree (PICA_client.c): whenever no message is on its way, the sender sends exactly
    if the receiver receives, and is paused exactly if the receiver is.  A command that meets no other arrives and
    leaves both ends in the state it names, and a transfer that nobody disturbs is completed. */
module FileAgreement {
  import opened Memory
  import opened FileTransfer
  import opened FileRefusal
  import C2cCodec

  // ---------------------------------------------------------------------------------------------------
  // What is on its way
  // ---------------------------------------------------------------------------------------------------

  /** Messages on their way: whether one ends a transfer, whether one carries data, and whether an odd number of them
      pauses or resumes it, said by its sender; whether one cancels it, and whether an odd number of them pauses or
      resumes it, said by its receiver. */
  datatype Sums = Sums(ends: bool, data: bool, odd: bool, cancels: bool, oddBack: bool)

  const NOTHING: Sums := Sums(false, false, false, false, false)

  predicate Toggles(cmd: Cmd) {
    cmd == Pause || cmd == Resume
  }

  function Says(m: Msg): Sums {
    match m
    case Fragment(_) => NOTHING.(data := true)
    case Control(a, b) => Sums(Ends(a), false, Toggles(a), Ends(b), Toggles(b))
    case _ => NOTHING
  }

  function Plus(a: Sums, b: Sums): Sums {
    Sums(a.ends || b.ends, a.data || b.data, a.odd != b.odd, a.cancels || b.cancels, a.oddBack != b.oddBack)
  }

  function Said(ms: seq<Msg>): Sums {
    if ms == [] then NOTHING else Plus(Says(ms[0]), Said(ms[1..]))
  }

  lemma {:induction false} SaidAppend(ms: seq<Msg>, m: Msg)
    ensures Said(ms + [m]) == Plus(Said(ms), Says(m))
  {
    if ms == [] {
      assert ms + [m] == [m] && [m][1..] == [];
    } else {
      assert (ms + [m])[0] == ms[0] && (ms + [m])[1..] == ms[1..] + [m];
      SaidAppend(ms[1..], m);
    }
  }

  lemma {:induction false} QuietSaysNothing(ms: seq<Msg>)
    requires QuietTail(ms) && Requests(ms) == 0
    ensures Silent(Said(ms))
  {
    if ms != [] {
      QuietSaysNothing(ms[1..]);
    }
  }

  /** Nothing said by the sender. */
  predicate Silent(a: Sums) {
    !a.ends && !a.data && !a.odd
  }

  /** What follows the acceptance. */
  function Since(replies: seq<Msg>): seq<Msg> {
    if replies == [] then [] else if replies[0] == Accepted then replies[1..] else Since(replies[1..])
  }

  lemma {:induction false} SinceAppend(replies: seq<Msg>, m: Msg)
    ensures Accepted in replies ==> Since(replies + [m]) == Since(replies) + [m]
    ensures Accepted !in replies && m == Accepted ==> Since(replies + [m]) == []
  {
    if replies == [] {
      assert replies + [m] == [m] && [m][1..] == [];
    } else {
      assert (replies + [m])[0] == replies[0] && (replies + [m])[1..] == replies[1..] + [m];
      SinceAppend(replies[1..], m);
    }
  }

  // ---------------------------------------------------------------------------------------------------
  // The agreement
  // ---------------------------------------------------------------------------------------------------

  /** The transfer has been accepted, and the sender has heard so or will. */
  predicate InForce(s: SendSide, replies: seq<Msg>) {
    Underway(s) || (s.state == SentReq && Accepted in replies)
  }

  /** What the receiver has said about this transfer and the sender has not yet heard. */
  function Unheard(s: SendSide, replies: seq<Msg>): seq<Msg> {
    if s.state == SentReq then Since(replies) else replies
  }

  predicate Open(r: RecvSide) {
    r.state == Receiving || r.state == RecvPaused
  }

  /** Sender and receiver are both paused or both not, or they are not and an odd number of commands is on its way; the
      receiver is through with an accepted transfer only if it has cancelled it. */
  predicate Agree(s: SendSide, r: RecvSide, a: Sums, b: Sums) {
    && !a.ends && (s.pos < |s.file| || !a.data)
    && (r.state == RecvIdle <==> b.cancels)
    && (Open(r) ==> ((s.state == SendPaused) == (r.state == RecvPaused) <==> a.odd == b.oddBack))
  }

  predicate Match(s: SendSide, r: RecvSide, ms: seq<Msg>, replies: seq<Msg>) {
    InForce(s, replies) ==> Agree(s, r, Said(ms), Said(Unheard(s, replies)))
  }

  /** What a call does to the sending side. */
  predicate SenderActs(s: SendSide, s': SendSide, m: Msg) {
    match m
    case Request(_) => s.state == SendIdle && s'.state == SentReq
    case Fragment(data) =>
      && s.state == Sending
      && (s'.state == SendIdle || (s' == s.(pos := s.pos + |data|) && s'.pos < |s.file|))
    case Control(cmd, _) =>
      (match cmd
       case Pause => s.state == Sending && s' == s.(state := SendPaused)
       case Resume => s.state == SendPaused && s' == s.(state := Sending)
       case Void => s' == s
       case _ => Underway(s) && s'.state == SendIdle)
    case _ => s' == s
  }

  lemma {:induction false} PerformSenderActs(p: Peer, c: Call)
    requires Callable(p, c) && Perform(p, c).ok
    ensures var e := Perform(p, c);
            |e.out| <= 1 && if e.out == [] then e.peer.send == p.send else SenderActs(p.send, e.peer.send, e.out[0])
  {
  }

  /** What a call does to the receiving side. */
  predicate ReceiverActs(r: RecvSide, r': RecvSide, m: Msg) {
    match m
    case Accepted => r.state == WaitAccept && r'.state == Receiving
    case Denied => r.state == WaitAccept && r'.state == RecvIdle
    case Control(_, cmd) =>
      (match cmd
       case Pause => r.state == Receiving && r'.state == RecvPaused
       case Resume => r.state == RecvPaused && r'.state == Receiving
       case Void => r' == r
       case _ => Open(r) && r'.state == RecvIdle && Ends(cmd))
    case _ => r' == r
  }

  lemma {:induction false} PerformReceiverActs(p: Peer, c: Call)
    requires Callable(p, c) && Perform(p, c).ok
    ensures var e := Perform(p, c);
            |e.out| <= 1 && if e.out == [] then e.peer.recv == p.recv else ReceiverActs(p.recv, e.peer.recv, e.out[0])
  {
  }

  lemma {:induction false} NoAnswerYet(s: SendSide, r: RecvSide, ms: seq<Msg>, replies: seq<Msg>)
    requires Turn(s, r, ms, replies) && (s.state == SendIdle || r.state == WaitAccept || Requests(ms) > 0)
    ensures Accepted !in replies
  {
    if Accepted in replies {
      AnswersCount(replies, Accepted);
    }
  }

  lemma {:induction false} SenderSays(s: SendSide, s': SendSide, r: RecvSide, ms: seq<Msg>, replies: seq<Msg>, m: Msg)
    requires Match(s, r, ms, replies) && Turn(s, r, ms, replies) && SenderActs(s, s', m)
    ensures Match(s', r, ms + [m], replies)
  {
    SaidAppend(ms, m);
    if m.Request? {
      NoAnswerYet(s, r, ms, replies);
    }
  }

  /** Once a transfer is accepted but its sender does not know it yet, the sender has said nothing more. */
  lemma {:induction false} SilentSince(s: SendSide, r: RecvSide, ms: seq<Msg>, replies: seq<Msg>)
    requires Turn(s, r, ms, replies) && s.state == SentReq && (Accepted in replies || r.state == WaitAccept)
    ensures r.state == WaitAccept ==> Accepted !in replies
    ensures Requests(ms) == 0 && Silent(Said(ms))
  {
    if Accepted in replies {
      AnswersCount(replies, Accepted);
    }
    QuietSaysNothing(ms);
  }

  lemma {:induction false} AcceptanceSaid(s: SendSide, r': RecvSide, ms: seq<Msg>, replies: seq<Msg>)
    requires s.state == SentReq && Accepted !in replies && r'.state == Receiving
    requires Silent(Said(ms))
    ensures Match(s, r', ms, replies + [Accepted])
  {
    SinceAppend(replies, Accepted);
  }

  lemma {:induction false} ReceiverSays(s: SendSide, r: RecvSide, r': RecvSide, ms: seq<Msg>, replies: seq<Msg>, m: Msg)
    requires Match(s, r, ms, replies) && Turn(s, r, ms, replies) && ReceiverActs(r, r', m)
    ensures Match(s, r', ms, replies + [m])
  {
    if m == Accepted {
      SilentSince(s, r, ms, replies);
      AcceptanceSaid(s, r', ms, replies);
    } else {
      SaidAppend(replies, m);
      SinceAppend(replies, m);
      SaidAppend(Since(replies), m);
      if m == Denied {
        NoAnswerYet(s, r, ms, replies);
      }
    }
  }

  /** What hearing a message does to the sending side. */
  predicate SenderHearing(s: SendSide, s': SendSide, m: Msg) {
    match m
    case Accepted => s.state == SentReq && s' == s.(state := Sending)
    case Denied => s'.state == SendIdle
    case Control(_, cmd) =>
      (match cmd
       case Pause => s.state == Sending && s' == s.(state := SendPaused)
       case Resume => s.state == SendPaused && s' == s.(state := Sending)
       case Void => s' == s
       case _ => s'.state == SendIdle)
    case _ => s' == s
  }

  lemma {:induction false} HandleSenderHearing(p: Peer, m: Msg, a: Answer)
    requires Handle(p, m, a).ok
    ensures SenderHearing(p.send, Handle(p, m, a).peer.send, m)
  {
  }

  lemma {:induction false} SenderListens(s: SendSide, s': SendSide, r: RecvSide, ms: seq<Msg>, replies: seq<Msg>)
    requires Match(s, r, ms, replies) && Turn(s, r, ms, replies) && replies != [] && SenderHearing(s, s', replies[0])
    ensures Match(s', r, ms, replies[1..])
  {
    if replies[0] == Accepted {
      SilentSince(s, r, ms, replies);
    }
  }

  /** What taking a message does to the receiving side. */
  predicate ReceiverTaking(r: RecvSide, r': RecvSide, m: Msg, out: seq<Msg>) {
    match m
    case Request(_) =>
      || (out == [] && r'.state == WaitAccept)
      || (out == [Accepted] && r'.state == Receiving)
      || (out == [Denied] && r'.state == RecvIdle)
    case Fragment(data) =>
      out == [] && Open(r) && (r'.state == r.state || (r'.state == RecvIdle && r.pos + |data| == r.size))
    case Control(cmd, _) =>
      && out == []
      && (match cmd
          case Pause => r.state == Receiving && r'.state == RecvPaused
          case Resume => r.state == RecvPaused && r'.state == Receiving
          case Void => r'.state == r.state
          case _ => Ends(cmd))
    case _ => out == [] && r' == r
  }

  lemma {:induction false} HandleReceiverTaking(p: Peer, m: Msg, a: Answer)
    requires Handle(p, m, a).ok
    ensures ReceiverTaking(p.recv, Handle(p, m, a).peer.recv, m, Handle(p, m, a).out)
  {
  }

  lemma {:induction false} RequestTakenMatches(s: SendSide, r: RecvSide, r': RecvSide, ms: seq<Msg>, replies: seq<Msg>,
                                               out: seq<Msg>)
    requires Turn(s, r, ms, replies) && ms != [] && ms[0].Request? && ReceiverTaking(r, r', ms[0], out)
    ensures Match(s, r', ms[1..], replies + out)
  {
    NoAnswerYet(s, r, ms, replies);
    QuietSaysNothing(ms[1..]);
    if out == [Accepted] {
      AcceptanceSaid(s, r', ms[1..], replies);
    }
  }

  /** The last byte arrives only when the sender has read its file to the end, and so closed it. */
  lemma {:induction false} FinishMeansRead(s: SendSide, r: RecvSide, ms: seq<Msg>)
    requires ms != [] && ms[0].Fragment? && Open(r) && RecvLocal(r) && SendLocal(s) && Bytes(s, r, ms)
    requires Underway(s) && Requests(ms) == 0 && r.pos + |ms[0].data| == r.size
    ensures s.pos == |s.file|
  {
    AddAllExtends(AddTo(Files(r.got), ms[0]), ms[1..]);
  }

  lemma {:induction false} OtherTakenMatches(s: SendSide, r: RecvSide, r': RecvSide, ms: seq<Msg>, replies: seq<Msg>)
    requires Match(s, r, ms, replies) && Direction(s, r, ms, replies)
    requires ms != [] && !ms[0].Request? && ReceiverTaking(r, r', ms[0], [])
    ensures Match(s, r', ms[1..], replies)
  {
    if s.state == SentReq && Accepted in replies {
      SilentSince(s, r, ms, replies);
    }
    if ms[0].Fragment? && Underway(s) && r'.state != r.state {
      FinishMeansRead(s, r, ms);
    }
  }

  // ---------------------------------------------------------------------------------------------------
  // Steps and runs
  // ---------------------------------------------------------------------------------------------------

  lemma {:induction false} CallKeepsMatch(p: Peer, c: Call, q: Peer, ms: seq<Msg>, replies: seq<Msg>)
    requires Callable(p, c) && Perform(p, c).ok
    requires Match(p.send, q.recv, ms, replies) && Turn(p.send, q.recv, ms, replies)
    requires Match(q.send, p.recv, replies, ms) && Turn(q.send, p.recv, replies, ms)
    ensures var e := Perform(p, c);
            Match(e.peer.send, q.recv, ms + e.out, replies) && Match(q.send, e.peer.recv, replies, ms + e.out)
  {
    var e := Perform(p, c);
    PerformSenderActs(p, c);
    PerformReceiverActs(p, c);
    if e.out == [] {
      assert ms + e.out == ms;
    } else {
      assert e.out == [e.out[0]];
      SenderSays(p.send, e.peer.send, q.recv, ms, replies, e.out[0]);
      ReceiverSays(q.send, p.recv, e.peer.recv, replies, ms, e.out[0]);
    }
  }

  lemma {:induction false} SenderHearsMatch(p: Peer, a: Answer, r: RecvSide, ms: seq<Msg>, replies: seq<Msg>)
    requires replies != [] && Handle(p, replies[0], a).ok && Match(p.send, r, ms, replies)
    requires Turn(p.send, r, ms, replies)
    ensures var e := Handle(p, replies[0], a);
            Match(e.peer.send, r, ms + e.out, replies[1..])
  {
    var e := Handle(p, replies[0], a);
    HandleSenderHearing(p, replies[0], a);
    HandleHears(p, replies[0], a);
    SenderListens(p.send, e.peer.send, r, ms, replies);
    if e.out == [] {
      assert ms + e.out == ms;
    } else {
      assert e.out == [e.out[0]];
      SaidAppend(ms, e.out[0]);
    }
  }

  lemma {:induction false} ReceiverTakesMatch(p: Peer, a: Answer, s: SendSide, ms: seq<Msg>, replies: seq<Msg>)
    requires ms != [] && Handle(p, ms[0], a).ok && Match(s, p.recv, ms, replies) && Direction(s, p.recv, ms, replies)
    ensures var e := Handle(p, ms[0], a);
            Match(s, e.peer.recv, ms[1..], replies + e.out)
  {
    var e := Handle(p, ms[0], a);
    HandleReceiverTaking(p, ms[0], a);
    if ms[0].Request? {
      RequestTakenMatches(s, p.recv, e.peer.recv, ms, replies, e.out);
    } else {
      OtherTakenMatches(s, p.recv, e.peer.recv, ms, replies);
      assert replies + e.out == replies;
    }
  }

  ghost predicate Agreeing(w: World) {
    && ClearInv(w)
    && (w.alive ==> Match(w.me.send, w.you.recv, w.out, w.inc) && Match(w.you.send, w.me.recv, w.inc, w.out))
  }

  lemma {:induction false} StepKeepsAgreement(w: World, step: Step)
    requires Agreeing(w) && Enabled(w, step)
    ensures Agreeing(Next(w, step))
  {
    StepKeepsClear(w, step);
    match step {
      case Calls(c) =>
        if Perform(w.me, c).ok {
          CallKeepsMatch(w.me, c, w.you, w.out, w.inc);
        }
      case Receives(a) =>
        if Handle(w.me, w.inc[0], a).ok {
          SenderHearsMatch(w.me, a, w.you.recv, w.out, w.inc);
          ReceiverTakesMatch(w.me, a, w.you.send, w.inc, w.out);
        }
    }
  }

  lemma {:induction false} RunKeepsAgreement(start: World, steps: seq<(bool, Step)>, w: World)
    requires Agreeing(start) && Reaches(start, steps, w)
    ensures Agreeing(w)
    decreases |steps|
  {
    if steps != [] {
      var here := if steps[0].0 then start else Flip(start);
      StepKeepsAgreement(here, steps[0].1);
      var there := Next(here, steps[0].1);
      RunKeepsAgreement(if steps[0].0 then there else Flip(there), steps[1..], w);
    }
  }

  /** No message is on its way. */
  predicate Still(w: World) {
    w.alive && w.out == [] && w.inc == []
  }

  /** The states of the two ends of a transfer that belong together. */
  predicate Paired(s: SendState, r: RecvState) {
    && (s == SendIdle <==> r == RecvIdle) && (s == SentReq <==> r == WaitAccept)
    && (s == Sending <==> r == Receiving) && (s == SendPaused <==> r == RecvPaused)
  }

  lemma {:induction false} AgreeingIsPaired(s: SendSide, r: RecvSide)
    requires Match(s, r, [], []) && Turn(s, r, [], []) && Clear(s, r, [], [])
    ensures Paired(s.state, r.state)
  {
  }

  lemma {:induction false} ReachedAgrees(steps: seq<(bool, Step)>, w: World)
    requires Reaches(START, steps, w)
    ensures Agreeing(w)
  {
    assert Agreeing(START);
    RunKeepsAgreement(START, steps, w);
  }

  predicate BothPaired(w: World) {
    Paired(w.me.send.state, w.you.recv.state) && Paired(w.you.send.state, w.me.recv.state)
  }

  /** In every run, whenever no message is on its way, the two ends agree in both directions. */
  lemma {:induction false} StillMeansAgreed(steps: seq<(bool, Step)>, w: World)
    requires Reaches(START, steps, w) && Still(w)
    ensures BothPaired(w)
  {
    ReachedAgrees(steps, w);
    AgreeingIsPaired(w.me.send, w.you.recv);
    AgreeingIsPaired(w.you.send, w.me.recv);
  }

  // ---------------------------------------------------------------------------------------------------
  // A call that meets nothing
  // ---------------------------------------------------------------------------------------------------

  /** The message of a call arrives, and then the answer to it, if there is one. */
  function Delivered(w: World, a: Answer): World
    requires w.alive
  {
    var v := if w.out == [] then w else Moved(w, false, Receives(a));
    if v.alive && v.inc != [] then Next(v, Receives(a)) else v
  }

  /** The states of both ends of the direction from me to you, or of the other one. */
  predicate EndsAre(w: World, sending: bool, s: SendState, r: RecvState) {
    if sending then w.me.send.state == s && w.you.recv.state == r else w.you.send.state == s && w.me.recv.state == r
  }

  /** Nothing has happened to the direction. */
  predicate Untouched(w: World, v: World, sending: bool) {
    if sending then v.me.send == w.me.send && v.you.recv == w.you.recv
    else v.you.send == w.you.send && v.me.recv == w.me.recv
  }

  /** The files announced and written are the same. */
  predicate SameFiles(w: World, v: World) {
    && v.me.send.sent == w.me.send.sent && v.you.recv.got == w.you.recv.got
    && v.you.send.sent == w.you.send.sent && v.me.recv.got == w.me.recv.got
  }

  /** A command is for a transfer in one of these states, and leaves it in this one. */
  predicate Commands(c: Call, s: SendState) {
    match c
    case PauseFile(_) => s == Sending
    case ResumeFile(_) => s == SendPaused
    case CancelFile(_) => s == Sending || s == SendPaused
    case _ => false
  }

  predicate Commanded(w: World, c: Call) {
    match c
    case PauseFile(sending) => EndsAre(w, sending, SendPaused, RecvPaused)
    case ResumeFile(sending) => EndsAre(w, sending, Sending, Receiving)
    case CancelFile(sending) => EndsAre(w, sending, SendIdle, RecvIdle)
    case _ => false
  }

  /** The message that says the command, for the one role or the other. */
  function Naming(c: Call): Msg
    requires c.PauseFile? || c.ResumeFile? || c.CancelFile?
  {
    var cmd := if c.PauseFile? then Pause else if c.ResumeFile? then Resume else Cancel;
    if c.sending then Control(cmd, Void) else Control(Void, cmd)
  }

  lemma {:induction false} CommandArrives(w: World, c: Call, a: Answer)
    requires Still(w) && BothPaired(w) && (c.PauseFile? || c.ResumeFile? || c.CancelFile?)
    ensures var v := Delivered(Next(w, Calls(c)), a);
            if Commands(c, if c.sending then w.me.send.state else w.you.send.state)
            then
              && Next(w, Calls(c)).out == [Naming(c)] && Still(v) && Commanded(v, c)
              && Untouched(w, v, !c.sending) && SameFiles(w, v)
            else v == w
  {
    var e := Perform(w.me, c);
    if e.out == [] {
      assert e.peer == w.me && [] + e.out == [];
    } else {
      var m := e.out[0];
      assert e.out == [m] && m.Control? && [] + [m] == [m];
      ControlDelivered(Next(w, Calls(c)), m, a);
    }
  }

  lemma {:induction false} ControlDelivered(w: World, m: Msg, a: Answer)
    requires w.alive && w.out == [m] && w.inc == [] && m.Control?
    ensures var e := HandleControl(w.you, m.sender, m.receiver);
            Delivered(w, a) == World(w.me, e.peer, [], [], e.ok)
  {
    assert [m][1..] == [];
    var e := HandleControl(w.you, m.sender, m.receiver);
    assert e.out == [] && w.inc + e.out == [];
  }

  /** From any state reached in which no message is on its way: a pause, resume or cancel that fits the transfer is said
      to the peer and leaves both ends in the state it names, connected, with the other direction and all files as they
      were; one that does not fit does nothing. */
  lemma {:induction false} LoneCommandArrives(steps: seq<(bool, Step)>, w: World, c: Call, a: Answer)
    requires Reaches(START, steps, w) && Still(w) && (c.PauseFile? || c.ResumeFile? || c.CancelFile?)
    ensures var v := Delivered(Next(w, Calls(c)), a);
            if Commands(c, if c.sending then w.me.send.state else w.you.send.state)
            then
              && Next(w, Calls(c)).out == [Naming(c)] && Still(v) && Commanded(v, c)
              && Untouched(w, v, !c.sending) && SameFiles(w, v)
            else v == w
  {
    StillMeansAgreed(steps, w);
    CommandArrives(w, c, a);
  }

  /** What becomes of a file that is announced, by the answer to it. */
  predicate Announced(w: World, file: seq<Byte>, a: Answer, v: World) {
    && v.me.send.sent == w.me.send.sent + [file] && v.you.recv.got == w.you.recv.got + [Got([], false)]
    && if a.postpone then EndsAre(v, true, SentReq, WaitAccept) && v.you.recv.size == |file|
       else if a.accept && a.canOpen
       then
         && EndsAre(v, true, Sending, Receiving) && v.you.recv.size == |file|
         && v.me.send.file == file && v.me.send.pos == 0
       else EndsAre(v, true, SendIdle, RecvIdle)
  }

  lemma {:induction false} RequestArrives(w: World, file: seq<Byte>, a: Answer)
    requires Still(w) && BothPaired(w) && w.me.send.state == SendIdle && a.nameOk
    ensures var v := Delivered(Next(w, Calls(SendFile(file))), a);
            Still(v) && Announced(w, file, a, v) && Untouched(w, v, false)
  {
    var m := Request(|file|);
    assert [] + [m] == [m] && [m][1..] == [];
    var e := HandleRequest(w.you, |file|, a);
    if e.out != [] {
      assert e.out == [e.out[0]] && [] + e.out == [e.out[0]] && [e.out[0]][1..] == [];
    }
  }

  /** A file that is announced reaches a peer that is free for it, and both ends follow the answer. */
  lemma {:induction false} LoneRequestArrives(steps: seq<(bool, Step)>, w: World, file: seq<Byte>, a: Answer)
    requires Reaches(START, steps, w) && Still(w) && w.me.send.state == SendIdle && a.nameOk
    ensures var v := Delivered(Next(w, Calls(SendFile(file))), a);
            Still(v) && Announced(w, file, a, v) && Untouched(w, v, false)
  {
    StillMeansAgreed(steps, w);
    RequestArrives(w, file, a);
  }

  lemma {:induction false} AnswerArrives(w: World, c: Call, a: Answer)
    requires Still(w) && BothPaired(w) && w.me.recv.state == WaitAccept && (c.DenyFile? || (c.AcceptFile? && c.canOpen))
    ensures var v := Delivered(Next(w, Calls(c)), a);
            && Still(v) && Untouched(w, v, true) && SameFiles(w, v)
            && if c.DenyFile? then EndsAre(v, false, SendIdle, RecvIdle) else EndsAre(v, false, Sending, Receiving)
  {
    var m := if c.DenyFile? then Denied else Accepted;
    assert [] + [m] == [m] && [m][1..] == [];
  }

  /** A postponed answer arrives too. */
  lemma {:induction false} LoneAnswerArrives(steps: seq<(bool, Step)>, w: World, c: Call, a: Answer)
    requires Reaches(START, steps, w) && Still(w) && w.me.recv.state == WaitAccept
    requires c.DenyFile? || (c.AcceptFile? && c.canOpen)
    ensures var v := Delivered(Next(w, Calls(c)), a);
            && Still(v) && Untouched(w, v, true) && SameFiles(w, v)
            && if c.DenyFile? then EndsAre(v, false, SendIdle, RecvIdle) else EndsAre(v, false, Sending, Receiving)
  {
    StillMeansAgreed(steps, w);
    AnswerArrives(w, c, a);
  }

  // ---------------------------------------------------------------------------------------------------
  // A transfer that nobody disturbs
  // ---------------------------------------------------------------------------------------------------

  /** A transfer of which the receiver has what the sender has read. */
  ghost predicate Halfway(w: World, file: seq<Byte>) {
    && Still(w) && BothPaired(w) && w.me.send.state == Sending && w.me.send.file == file && w.me.send.pos < |file|
    && w.you.recv.got != [] && w.you.recv.pos == w.me.send.pos && w.you.recv.size == |file|
    && w.you.recv.got[|w.you.recv.got| - 1].written == file[..w.me.send.pos]
  }

  lemma {:induction false} SendingIsHalfway(w: World)
    requires Agreeing(w) && Still(w) && BothPaired(w) && w.me.send.state == Sending && w.me.send.pos < |w.me.send.file|
    ensures Halfway(w, w.me.send.file)
  {
    assert Direction(w.me.send, w.you.recv, [], []);
    assert AddAll(Files(w.you.recv.got), []) == Files(w.you.recv.got);
  }

  /** The last file that the peer wrote is this one, complete. */
  predicate Complete(w: World, file: seq<Byte>) {
    && Still(w) && w.me.send.state == SendIdle && w.you.recv.state == RecvIdle
    && w.you.recv.got != [] && w.you.recv.got[|w.you.recv.got| - 1] == Got(file, true)
  }

  function FragmentSize(left: nat): nat {
    if left <= C2cCodec.MAX_FRAGMENT then left else C2cCodec.MAX_FRAGMENT
  }

  function FragmentSteps(n: nat, a: Answer): seq<(bool, Step)> {
    [(true, Calls(SendFragment(n))), (false, Receives(a))]
  }

  lemma {:induction false} FragmentTaken(w: World, file: seq<Byte>, n: nat, a: Answer)
    requires Halfway(w, file) && 0 < n <= |file| - w.me.send.pos && n <= C2cCodec.MAX_FRAGMENT
    ensures var u := Next(w, Calls(SendFragment(n)));
            && u.alive && u.out != []
            && var v := Moved(u, false, Receives(a));
               && |v.you.recv.got| == |w.you.recv.got|
               && if w.me.send.pos + n == |file| then Complete(v, file)
                  else Halfway(v, file) && v.me.send.pos == w.me.send.pos + n
  {
    var pos := w.me.send.pos;
    var m := Fragment(file[pos..pos + n]);
    assert [] + [m] == [m] && [m][1..] == [];
    assert Next(w, Calls(SendFragment(n))).out == [m];
    assert file[..pos] + file[pos..pos + n] == file[..pos + n];
    assert pos + n == |file| ==> file[..pos + n] == file;
  }

  lemma {:induction false} FragmentArrives(w: World, file: seq<Byte>, n: nat, a: Answer) returns (v: World)
    requires Halfway(w, file) && 0 < n <= |file| - w.me.send.pos && n <= C2cCodec.MAX_FRAGMENT
    ensures Reaches(w, FragmentSteps(n, a), v) && |v.you.recv.got| == |w.you.recv.got|
    ensures if w.me.send.pos + n == |file| then Complete(v, file)
            else Halfway(v, file) && v.me.send.pos == w.me.send.pos + n
  {
    FragmentTaken(w, file, n, a);
    var u := Next(w, Calls(SendFragment(n)));
    v := Moved(u, false, Receives(a));
    ReachesBefore(u, false, Receives(a), [], v);
    assert [(false, Receives(a))] + [] == [(false, Receives(a))];
    ReachesBefore(w, true, Calls(SendFragment(n)), [(false, Receives(a))], v);
  }

  lemma {:induction false} ReachesOn(w: World, steps: seq<(bool, Step)>, u: World, more: seq<(bool, Step)>, v: World)
    requires Reaches(w, steps, u) && Reaches(u, more, v)
    ensures Reaches(w, steps + more, v)
    decreases |steps|
  {
    if steps == [] {
      assert steps + more == more;
    } else {
      assert (steps + more)[0] == steps[0] && (steps + more)[1..] == steps[1..] + more;
      var next := Moved(w, steps[0].0, steps[0].1);
      assert Reaches(next, steps[1..], u);
      ReachesOn(next, steps[1..], u, more, v);
      assert Reaches(next, (steps + more)[1..], v);
    }
  }

  lemma {:induction false} HalfwayCompletes(w: World, file: seq<Byte>, a: Answer)
    returns (more: seq<(bool, Step)>, v: World)
    requires Halfway(w, file)
    ensures Reaches(w, more, v) && Complete(v, file) && |v.you.recv.got| == |w.you.recv.got|
    decreases |file| - w.me.send.pos
  {
    var n := FragmentSize(|file| - w.me.send.pos);
    v := FragmentArrives(w, file, n, a);
    more := FragmentSteps(n, a);
    if w.me.send.pos + n < |file| {
      var u := v;
      var rest;
      rest, v := HalfwayCompletes(u, file, a);
      ReachesOn(w, more, u, rest, v);
      more := more + rest;
    }
  }

  /** A transfer of a file that has bytes left can be completed from any state reached in which no message is on its
      way, by sending fragments only: the peer then has the whole file. */
  lemma {:induction false} TransferCompletes(steps: seq<(bool, Step)>, w: World, a: Answer)
    returns (more: seq<(bool, Step)>, v: World)
    requires Reaches(START, steps, w) && Still(w) && w.me.send.state == Sending && w.me.send.pos < |w.me.send.file|
    ensures Reaches(START, steps + more, v) && Complete(v, w.me.send.file)
    ensures |v.you.recv.got| == |w.you.recv.got|
  {
    ReachedAgrees(steps, w);
    StillMeansAgreed(steps, w);
    SendingIsHalfway(w);
    more, v := HalfwayCompletes(w, w.me.send.file, a);
    ReachesOn(START, steps, w, more, v);
  }
}
