/** When a file transfer drops its connection (PICA_client.c).  A handler refuses a message that the peer's state does
    not take, and a refused message closes the channel; since both peers act on their own and messages take time, this
    can happen although both follow the protocol.

    The result is exact: a message is refused if and only if it is late, a fragment or a command for a transfer that the
    peer has meanwhile ended, paused or resumed by itself, or a request with an unusable file name.  Answers are never
    late, fragments are never too long, and a request never meets a receiver that is still busy. */
module FileRefusal {
  import opened Memory
  import opened FileTransfer

  // ---------------------------------------------------------------------------------------------------
  // What the receiver will be doing when a message arrives
  // ---------------------------------------------------------------------------------------------------

  /** A receiver that is busy with a file, and how many bytes of it are missing. */
  datatype Load = Load(busy: bool, left: int)

  function LoadOf(r: RecvSide): Load {
    Load(r.state != RecvIdle, r.size - r.pos)
  }

  predicate Ends(cmd: Cmd) {
    cmd == Cancel || cmd == IoError
  }

  /** The load when a message has been taken. */
  function After(l: Load, m: Msg): Load {
    match m
    case Fragment(data) => if !l.busy || |data| >= l.left then Load(false, 0) else Load(true, l.left - |data|)
    case Control(sender, _) => if Ends(sender) then Load(false, 0) else l
    case _ => l
  }

  function AfterAll(l: Load, ms: seq<Msg>): Load
    decreases |ms|
  {
    if ms == [] then l else AfterAll(After(l, ms[0]), ms[1..])
  }

  /** The first request on its way finds the receiver free. */
  predicate FreeAtRequest(l: Load, ms: seq<Msg>)
    decreases |ms|
  {
    ms == [] || if ms[0].Request? then !l.busy else FreeAtRequest(After(l, ms[0]), ms[1..])
  }

  /** The first message on its way from the peer as sender belongs to an earlier transfer. */
  predicate Doomed(ms: seq<Msg>) {
    ms != [] && if OfSender(ms[0]) then !ms[0].Request? else Doomed(ms[1..])
  }

  /** How many times the receiver has cancelled without the sender having heard of it. */
  function Cancels(ms: seq<Msg>): nat {
    if ms == [] then 0 else (if ms[0].Control? && Ends(ms[0].receiver) then 1 else 0) + Cancels(ms[1..])
  }

  /** An accepted transfer is in progress. */
  predicate Underway(s: SendSide) {
    s.state == Sending || s.state == SendPaused
  }

  /** The sender will hear the receiver's cancellation during the transfer that was cancelled, or not at all. */
  predicate Heard(s: SendSide, ms: seq<Msg>, replies: seq<Msg>) {
    || Underway(s) || Doomed(ms)
    || (s.state == SentReq && Requests(ms) == 0 && Accepted in replies)
  }

  /** Sender s, receiver r and the messages between them agree on which transfers are over. */
  predicate Clear(s: SendSide, r: RecvSide, ms: seq<Msg>, replies: seq<Msg>) {
    && FreeAtRequest(LoadOf(r), ms)
    && (s.state == SendIdle ==> !AfterAll(LoadOf(r), ms).busy)
    && (Denied in replies ==> r.state == RecvIdle)
    && Cancels(replies) <= 1
    && (Cancels(replies) > 0 ==> r.state == RecvIdle && Heard(s, ms, replies))
  }

  // ---------------------------------------------------------------------------------------------------
  // Queues
  // ---------------------------------------------------------------------------------------------------

  lemma {:induction false} FreeStaysFree(l: Load, ms: seq<Msg>)
    requires !l.busy
    ensures FreeAtRequest(l, ms) && !AfterAll(l, ms).busy
    decreases |ms|
  {
    if ms != [] {
      FreeStaysFree(After(l, ms[0]), ms[1..]);
    }
  }

  lemma {:induction false} NoRequestFree(l: Load, ms: seq<Msg>)
    requires Requests(ms) == 0
    ensures FreeAtRequest(l, ms)
    decreases |ms|
  {
    if ms != [] {
      NoRequestFree(After(l, ms[0]), ms[1..]);
    }
  }

  lemma {:induction false} LoadAppend(l: Load, ms: seq<Msg>, m: Msg)
    requires FreeAtRequest(l, ms)
    requires m.Request? && Requests(ms) == 0 ==> !AfterAll(l, ms).busy
    ensures AfterAll(l, ms + [m]) == After(AfterAll(l, ms), m) && FreeAtRequest(l, ms + [m])
    decreases |ms|
  {
    if ms == [] {
      assert ms + [m] == [m] && [m][1..] == [];
    } else {
      assert (ms + [m])[0] == ms[0] && (ms + [m])[1..] == ms[1..] + [m];
      if ms[0].Request? {
        AfterAllAppend(l, ms, m);
      } else {
        LoadAppend(After(l, ms[0]), ms[1..], m);
      }
    }
  }

  lemma {:induction false} AfterAllAppend(l: Load, ms: seq<Msg>, m: Msg)
    ensures AfterAll(l, ms + [m]) == After(AfterAll(l, ms), m)
    decreases |ms|
  {
    if ms == [] {
      assert ms + [m] == [m] && [m][1..] == [];
    } else {
      assert (ms + [m])[0] == ms[0] && (ms + [m])[1..] == ms[1..] + [m];
      AfterAllAppend(After(l, ms[0]), ms[1..], m);
    }
  }

  lemma {:induction false} DoomedAppend(ms: seq<Msg>, m: Msg)
    ensures Doomed(ms) ==> Doomed(ms + [m])
    ensures Requests(ms) == 0 && OfSender(m) && !m.Request? ==> Doomed(ms + [m])
  {
    if ms == [] {
      assert ms + [m] == [m];
    } else {
      assert (ms + [m])[0] == ms[0] && (ms + [m])[1..] == ms[1..] + [m];
      DoomedAppend(ms[1..], m);
    }
  }

  lemma {:induction false} CancelsAppend(ms: seq<Msg>, m: Msg)
    ensures Cancels(ms + [m]) == Cancels(ms) + if m.Control? && Ends(m.receiver) then 1 else 0
  {
    if ms == [] {
      assert ms + [m] == [m] && [m][1..] == [];
    } else {
      assert (ms + [m])[0] == ms[0] && (ms + [m])[1..] == ms[1..] + [m];
      CancelsAppend(ms[1..], m);
    }
  }

  /** A busy receiver that will be free at the request, or at the end, will be freed by the transfer's own messages. */
  lemma {:induction false} FreedBySender(l: Load, ms: seq<Msg>)
    requires l.busy
    ensures FreeAtRequest(l, ms) && Requests(ms) > 0 ==> Doomed(ms)
    ensures !AfterAll(l, ms).busy && Requests(ms) == 0 ==> Doomed(ms)
    decreases |ms|
  {
    if ms != [] && !OfSender(ms[0]) {
      FreedBySender(After(l, ms[0]), ms[1..]);
    }
  }

  lemma {:induction false} AnswersCount(ms: seq<Msg>, m: Msg)
    requires m in ms && (m == Accepted || m == Denied)
    ensures Replies(ms) > 0
    ensures ms[0] != m && (ms[0] == Accepted || ms[0] == Denied) ==> Replies(ms) > 1
  {
    if ms[0] != m {
      AnswersCount(ms[1..], m);
    }
  }

  // ---------------------------------------------------------------------------------------------------
  // The last fragment frees the receiver
  // ---------------------------------------------------------------------------------------------------

  function Total(ms: seq<Msg>): nat {
    if ms == [] then 0 else (if ms[0].Fragment? then |ms[0].data| else 0) + Total(ms[1..])
  }

  lemma {:induction false} LeftAfter(l: Load, ms: seq<Msg>)
    ensures AfterAll(l, ms).busy ==> l.busy && AfterAll(l, ms).left == l.left - Total(ms)
    decreases |ms|
  {
    if ms != [] {
      LeftAfter(After(l, ms[0]), ms[1..]);
    }
  }

  lemma {:induction false} LastGrows(files: seq<seq<Byte>>, ms: seq<Msg>)
    requires files != [] && Requests(ms) == 0
    ensures |AddAll(files, ms)| == |files|
    ensures |AddAll(files, ms)[|files| - 1]| == |files[|files| - 1]| + Total(ms)
    decreases |ms|
  {
    if ms != [] {
      LastGrows(AddTo(files, ms[0]), ms[1..]);
    }
  }

  /** What a receiver that is still busy behind all messages misses is what the sender has not yet read. */
  lemma {:induction false} LeftIsUnread(s: SendSide, r: RecvSide, ms: seq<Msg>)
    requires SendLocal(s) && RecvLocal(r) && Bytes(s, r, ms) && s.state != SendIdle && Requests(ms) == 0
    ensures AfterAll(LoadOf(r), ms).busy ==> AfterAll(LoadOf(r), ms).left == |s.file| - s.pos
  {
    if AfterAll(LoadOf(r), ms).busy {
      LeftAfter(LoadOf(r), ms);
      LastGrows(Files(r.got), ms);
    }
  }

  // ---------------------------------------------------------------------------------------------------
  // Steps
  // ---------------------------------------------------------------------------------------------------

  /** The sender pushes a message that is not about its sending. */
  lemma {:induction false} OtherPushed(s: SendSide, r: RecvSide, ms: seq<Msg>, replies: seq<Msg>, m: Msg)
    requires Clear(s, r, ms, replies) && !OfSender(m)
    ensures Clear(s, r, ms + [m], replies)
  {
    LoadAppend(LoadOf(r), ms, m);
    DoomedAppend(ms, m);
    CountsAppend(ms, m);
  }

  /** The sender announces, sends, pauses, resumes or cancels. */
  lemma {:induction false} SenderPushed(s: SendSide, s': SendSide, r: RecvSide, ms: seq<Msg>, replies: seq<Msg>, m: Msg)
    requires Clear(s, r, ms, replies) && Direction(s, r, ms, replies) && OfSender(m)
    requires m.Request? ==> s.state == SendIdle && s'.state == SentReq
    requires !m.Request? ==> Underway(s)
    requires !m.Request? && !Underway(s') ==> s'.state == SendIdle
    requires s'.state == SendIdle ==>
               (m.Control? && Ends(m.sender)) || (m.Fragment? && s.pos + |m.data| >= |s.file|)
    ensures Clear(s', r, ms + [m], replies)
  {
    LoadAppend(LoadOf(r), ms, m);
    DoomedAppend(ms, m);
    if s'.state == SendIdle {
      LeftIsUnread(s, r, ms);
    }
  }

  /** What a call does to the sending side. */
  predicate Sends(s: SendSide, s': SendSide, out: seq<Msg>) {
    && |out| <= 1
    && (out == [] || !OfSender(out[0]) ==> s' == s)
    && (out != [] && out[0].Request? ==> s.state == SendIdle && s'.state == SentReq)
    && (out != [] && OfSender(out[0]) && !out[0].Request? ==>
          && Underway(s)
          && (!Underway(s') ==>
                s'.state == SendIdle
                && if out[0].Control? then Ends(out[0].sender) else s.pos + |out[0].data| >= |s.file|))
  }

  lemma {:induction false} PerformSends(p: Peer, c: Call)
    requires Callable(p, c) && Perform(p, c).ok
    ensures Sends(p.send, Perform(p, c).peer.send, Perform(p, c).out)
  {
  }

  lemma {:induction false} SenderCalls(p: Peer, c: Call, r: RecvSide, ms: seq<Msg>, replies: seq<Msg>)
    requires Clear(p.send, r, ms, replies) && Direction(p.send, r, ms, replies) && Callable(p, c) && Perform(p, c).ok
    ensures var e := Perform(p, c);
            Clear(e.peer.send, r, ms + e.out, replies)
  {
    var e := Perform(p, c);
    PerformSends(p, c);
    assert e.out != [] ==> e.out == [e.out[0]];
    if e.out == [] {
      assert ms + e.out == ms;
    } else if OfSender(e.out[0]) {
      SenderPushed(p.send, e.peer.send, r, ms, replies, e.out[0]);
    } else {
      OtherPushed(p.send, r, ms, replies, e.out[0]);
    }
  }

  /** The receiver does nothing, answers, pauses, resumes or cancels: it does not get busy by itself. */
  lemma {:induction false} ReceiverPushed(
    s: SendSide, r: RecvSide, r': RecvSide, ms: seq<Msg>, replies: seq<Msg>, m: Msg)
    requires Clear(s, r, ms, replies) && Direction(s, r, ms, replies)
    requires r'.state != RecvIdle ==> r.state != RecvIdle && LoadOf(r') == LoadOf(r)
    requires m == Denied ==> r'.state == RecvIdle
    requires m.Control? && Ends(m.receiver) ==> (r.state == Receiving || r.state == RecvPaused) && r'.state == RecvIdle
    ensures Clear(s, r', ms, replies + [m])
  {
    CancelsAppend(replies, m);
    if r'.state == RecvIdle {
      FreeStaysFree(LoadOf(r'), ms);
    }
    if m.Control? && Ends(m.receiver) {
      CancelIsHeard(s, r, ms, replies);
    }
  }

  lemma {:induction false} CancelIsHeard(s: SendSide, r: RecvSide, ms: seq<Msg>, replies: seq<Msg>)
    requires Clear(s, r, ms, replies) && Direction(s, r, ms, replies) && (r.state == Receiving || r.state == RecvPaused)
    ensures Heard(s, ms, replies)
  {
    FreedBySender(LoadOf(r), ms);
    if s.state == SentReq && Requests(ms) == 0 {
      AnsweredBy(replies);
    }
  }

  lemma {:induction false} AnsweredBy(ms: seq<Msg>)
    requires Replies(ms) > 0
    ensures Accepted in ms || Denied in ms
  {
    if !ms[0].Accepted? && !ms[0].Denied? {
      AnsweredBy(ms[1..]);
    }
  }

  lemma {:induction false} ReceiverSame(s: SendSide, r: RecvSide, r': RecvSide, ms: seq<Msg>, replies: seq<Msg>)
    requires Clear(s, r, ms, replies)
    requires r'.state == RecvIdle || (r.state != RecvIdle && LoadOf(r') == LoadOf(r))
    ensures Clear(s, r', ms, replies)
  {
    if r'.state == RecvIdle {
      FreeStaysFree(LoadOf(r'), ms);
    }
  }

  /** What a call does to the receiving side. */
  predicate Answers(r: RecvSide, r': RecvSide, out: seq<Msg>) {
    && |out| <= 1
    && (r'.state == RecvIdle || (r.state != RecvIdle && LoadOf(r') == LoadOf(r)))
    && (out == [Denied] ==> r'.state == RecvIdle)
    && (out != [] && out[0].Control? && Ends(out[0].receiver) ==>
          (r.state == Receiving || r.state == RecvPaused) && r'.state == RecvIdle)
  }

  lemma {:induction false} PerformAnswers(p: Peer, c: Call)
    requires Callable(p, c) && Perform(p, c).ok
    ensures Answers(p.recv, Perform(p, c).peer.recv, Perform(p, c).out)
  {
  }

  lemma {:induction false} ReceiverCalls(p: Peer, c: Call, s: SendSide, ms: seq<Msg>, replies: seq<Msg>)
    requires Clear(s, p.recv, ms, replies) && Direction(s, p.recv, ms, replies) && Callable(p, c) && Perform(p, c).ok
    ensures var e := Perform(p, c);
            Clear(s, e.peer.recv, ms, replies + e.out)
  {
    var e := Perform(p, c);
    PerformAnswers(p, c);
    assert e.out != [] ==> e.out == [e.out[0]];
    if e.out == [] {
      assert replies + e.out == replies;
      ReceiverSame(s, p.recv, e.peer.recv, ms, replies);
    } else {
      ReceiverPushed(s, p.recv, e.peer.recv, ms, replies, e.out[0]);
    }
  }

  /** What hearing a message does to the sending side. */
  predicate Hears(s: SendSide, s': SendSide, m: Msg) {
    match m
    case Accepted => s.state == SentReq && s'.state == Sending
    case Denied => s.state == SentReq && s'.state == SendIdle
    case Control(_, receiver) =>
      if Ends(receiver) then Underway(s) && s'.state == SendIdle
      else s'.state == s.state || (Underway(s) && Underway(s'))
    case _ => s'.state == s.state
  }

  lemma {:induction false} HandleHears(p: Peer, m: Msg, a: Answer)
    requires Handle(p, m, a).ok
    ensures Hears(p.send, Handle(p, m, a).peer.send, m)
    ensures |Handle(p, m, a).out| <= 1 && (Handle(p, m, a).out != [] ==> !OfSender(Handle(p, m, a).out[0]))
  {
  }

  lemma {:induction false} SenderHeard(s: SendSide, s': SendSide, r: RecvSide, ms: seq<Msg>, replies: seq<Msg>)
    requires Clear(s, r, ms, replies) && Direction(s, r, ms, replies) && replies != [] && Hears(s, s', replies[0])
    ensures Clear(s', r, ms, replies[1..])
  {
    var m := replies[0];
    if s'.state == SendIdle && s.state != SendIdle {
      assert m == Denied ==> Denied in replies;
      FreeStaysFree(LoadOf(r), ms);
    }
    if m == Denied && Accepted in replies {
      AnswersCount(replies, Accepted);
    }
    if Cancels(replies[1..]) > 0 {
      assert Heard(s, ms, replies);
    }
  }

  lemma {:induction false} SenderHears(p: Peer, a: Answer, r: RecvSide, ms: seq<Msg>, replies: seq<Msg>)
    requires Clear(p.send, r, ms, replies) && Direction(p.send, r, ms, replies)
    requires replies != [] && Handle(p, replies[0], a).ok
    ensures var e := Handle(p, replies[0], a);
            Clear(e.peer.send, r, ms + e.out, replies[1..])
  {
    var e := Handle(p, replies[0], a);
    HandleHears(p, replies[0], a);
    SenderHeard(p.send, e.peer.send, r, ms, replies);
    if e.out == [] {
      assert ms + e.out == ms;
    } else {
      assert e.out == [e.out[0]];
      OtherPushed(e.peer.send, r, ms, replies[1..], e.out[0]);
    }
  }

  /** What taking a message does to the receiving side, with what it answers. */
  predicate Takes(r: RecvSide, r': RecvSide, m: Msg, out: seq<Msg>) {
    match m
    case Request(_) =>
      && r.state == RecvIdle && |out| <= 1
      && (out != [] ==> out[0] == Accepted || (out[0] == Denied && r'.state == RecvIdle))
    case Fragment(data) =>
      && out == [] && (r.state == Receiving || r.state == RecvPaused)
      && (r'.state == RecvIdle || (r'.state == r.state && r'.size == r.size && r'.pos == r.pos + |data| < r.size))
    case Control(sender, _) =>
      && out == [] && (sender != Void ==> r.state != RecvIdle)
      && (if Ends(sender) then r'.state == RecvIdle
          else r'.size == r.size && r'.pos == r.pos && (r'.state == RecvIdle <==> r.state == RecvIdle))
    case _ => out == [] && r' == r
  }

  lemma {:induction false} HandleTakes(p: Peer, m: Msg, a: Answer)
    requires Handle(p, m, a).ok
    ensures Takes(p.recv, Handle(p, m, a).peer.recv, m, Handle(p, m, a).out)
  {
  }

  lemma {:induction false} RequestTaken(
    s: SendSide, r: RecvSide, r': RecvSide, ms: seq<Msg>, replies: seq<Msg>, out: seq<Msg>)
    requires Clear(s, r, ms, replies) && Direction(s, r, ms, replies)
    requires ms != [] && ms[0].Request? && Takes(r, r', ms[0], out)
    ensures Clear(s, r', ms[1..], replies + out)
  {
    NoRequestFree(LoadOf(r'), ms[1..]);
    if Denied in replies {
      AnswersCount(replies, Denied);
    }
    if out == [] {
      assert replies + out == replies;
    } else {
      assert replies + out == replies + [out[0]];
      CancelsAppend(replies, out[0]);
    }
  }

  lemma {:induction false} OtherTaken(s: SendSide, r: RecvSide, r': RecvSide, ms: seq<Msg>, replies: seq<Msg>)
    requires Clear(s, r, ms, replies) && ms != [] && !ms[0].Request? && Takes(r, r', ms[0], [])
    ensures Clear(s, r', ms[1..], replies)
  {
    if r'.state == RecvIdle {
      FreeStaysFree(LoadOf(r'), ms[1..]);
    } else {
      assert LoadOf(r') == After(LoadOf(r), ms[0]);
    }
  }

  lemma {:induction false} ReceiverHears(p: Peer, a: Answer, s: SendSide, ms: seq<Msg>, replies: seq<Msg>)
    requires Clear(s, p.recv, ms, replies) && Direction(s, p.recv, ms, replies)
    requires ms != [] && Handle(p, ms[0], a).ok
    ensures var e := Handle(p, ms[0], a);
            Clear(s, e.peer.recv, ms[1..], replies + e.out)
  {
    var e := Handle(p, ms[0], a);
    HandleTakes(p, ms[0], a);
    if ms[0].Request? {
      RequestTaken(s, p.recv, e.peer.recv, ms, replies, e.out);
    } else {
      OtherTaken(s, p.recv, e.peer.recv, ms, replies);
      assert replies + e.out == replies;
    }
  }

  // ---------------------------------------------------------------------------------------------------
  // Runs
  // ---------------------------------------------------------------------------------------------------

  ghost predicate ClearInv(w: World) {
    && Inv(w)
    && (w.alive ==> Clear(w.me.send, w.you.recv, w.out, w.inc) && Clear(w.you.send, w.me.recv, w.inc, w.out))
  }

  lemma {:induction false} StepKeepsClear(w: World, step: Step)
    requires ClearInv(w) && Enabled(w, step)
    ensures ClearInv(Next(w, step))
  {
    match step {
      case Calls(c) =>
        CallKeepsInv(w, c);
        if Perform(w.me, c).ok {
          SenderCalls(w.me, c, w.you.recv, w.out, w.inc);
          ReceiverCalls(w.me, c, w.you.send, w.inc, w.out);
        }
      case Receives(a) =>
        ReceiveKeepsInv(w, a);
        if Handle(w.me, w.inc[0], a).ok {
          SenderHears(w.me, a, w.you.recv, w.out, w.inc);
          ReceiverHears(w.me, a, w.you.send, w.inc, w.out);
        }
    }
  }

  lemma {:induction false} RunKeepsClear(start: World, steps: seq<(bool, Step)>, w: World)
    requires ClearInv(start) && Reaches(start, steps, w)
    ensures ClearInv(w)
    decreases |steps|
  {
    if steps != [] {
      var here := if steps[0].0 then start else Flip(start);
      StepKeepsClear(here, steps[0].1);
      var there := Next(here, steps[0].1);
      RunKeepsClear(if steps[0].0 then there else Flip(there), steps[1..], w);
    }
  }

  /** The command fits the state of the transfer it is about. */
  predicate RecvTakes(state: RecvState, cmd: Cmd) {
    match cmd
    case Void => true
    case Pause => state == Receiving
    case Resume => state == RecvPaused
    case Cancel => state == Receiving || state == RecvPaused
    case IoError => state == Receiving || state == RecvPaused
    case Unknown => false
  }

  predicate SendTakes(state: SendState, cmd: Cmd) {
    match cmd
    case Void => true
    case Pause => state == Sending
    case Resume => state == SendPaused
    case Cancel => state == Sending || state == SendPaused
    case IoError => state == Sending || state == SendPaused
    case Unknown => false
  }

  /** The message is about a transfer that this peer has meanwhile ended, paused or resumed by itself. */
  predicate Late(p: Peer, m: Msg) {
    match m
    case Fragment(_) => p.recv.state == RecvIdle
    case Control(sender, receiver) => !RecvTakes(p.recv.state, sender) || !SendTakes(p.send.state, receiver)
    case _ => false
  }

  lemma {:induction false} ControlRefusedExactlyWhenLate(p: Peer, sender: Cmd, receiver: Cmd)
    requires p.recv.state == WaitAccept ==> sender == Void
    ensures HandleControl(p, sender, receiver).ok <==>
            RecvTakes(p.recv.state, sender) && SendTakes(p.send.state, receiver)
  {
  }

  lemma {:induction false} FragmentRefusedExactlyWhenLate(w: World, a: Answer)
    requires ClearInv(w) && w.alive && w.inc != [] && w.inc[0].Fragment?
    ensures Handle(w.me, w.inc[0], a).ok <==> w.me.recv.state != RecvIdle
  {
    if w.me.recv.state == WaitAccept {
      NothingMeetsWaitAccept(w.you.send, w.me.recv, w.inc, w.out);
    }
    if w.me.recv.state != RecvIdle {
      FragmentFits(w.you.send, w.me.recv, w.inc);
    }
  }

  lemma {:induction false} RefusedWhen(w: World, a: Answer)
    requires ClearInv(w) && w.alive && w.inc != []
    ensures !Handle(w.me, w.inc[0], a).ok <==> Late(w.me, w.inc[0]) || (w.inc[0].Request? && !a.nameOk)
    ensures w.inc[0].Request? ==> w.me.recv.state == RecvIdle
    ensures w.inc[0].Accepted? || w.inc[0].Denied? ==> w.me.send.state == SentReq
  {
    match w.inc[0] {
      case Fragment(_) => FragmentRefusedExactlyWhenLate(w, a);
      case Control(sender, receiver) =>
        if w.me.recv.state == WaitAccept {
          NothingMeetsWaitAccept(w.you.send, w.me.recv, w.inc, w.out);
        }
        ControlRefusedExactlyWhenLate(w.me, sender, receiver);
      case _ =>
    }
  }

  lemma {:induction false} ReachedIsClear(steps: seq<(bool, Step)>, w: World)
    requires Reaches(START, steps, w)
    ensures ClearInv(w)
  {
    assert ClearInv(START);
    RunKeepsClear(START, steps, w);
  }

  /** In every run, a message is refused, which drops the connection, if and only if it is late or it is a request with
      an unusable name: answers and requests always find the peer waiting for them, and fragments always fit. */
  lemma {:induction false} RefusedExactlyWhenLate(steps: seq<(bool, Step)>, w: World, a: Answer)
    requires Reaches(START, steps, w) && w.alive && w.inc != []
    ensures !Handle(w.me, w.inc[0], a).ok <==> Late(w.me, w.inc[0]) || (w.inc[0].Request? && !a.nameOk)
    ensures w.inc[0].Request? ==> w.me.recv.state == RecvIdle
    ensures w.inc[0].Accepted? || w.inc[0].Denied? ==> w.me.send.state == SentReq
  {
    ReachedIsClear(steps, w);
    RefusedWhen(w, a);
  }

  /** Hence a step of a peer ends the connection exactly when it takes a late message or a request with an unusable
      name, or reads on at the end of its file. */
  lemma {:induction false} DropsExactlyWhen(steps: seq<(bool, Step)>, w: World, step: Step)
    requires Reaches(START, steps, w) && Enabled(w, step)
    ensures !Next(w, step).alive <==>
            match step
            case Calls(c) => c.SendFragment? && w.me.send.pos == |w.me.send.file|
            case Receives(a) => Late(w.me, w.inc[0]) || (w.inc[0].Request? && !a.nameOk)
  {
    if step.Receives? {
      RefusedExactlyWhenLate(steps, w, step.a);
    }
  }

  // ---------------------------------------------------------------------------------------------------
  // Two runs that end so
  // ---------------------------------------------------------------------------------------------------

  lemma {:induction false} ReachesBefore(start: World, first: bool, step: Step, steps: seq<(bool, Step)>, w: World)
    requires Enabled(if first then start else Flip(start), step) && Reaches(Moved(start, first, step), steps, w)
    ensures Reaches(start, [(first, step)] + steps, w)
  {
    assert ([(first, step)] + steps)[1..] == steps;
  }

  const YES: Answer := Answer(true, true, false, true)

  /** A file of two bytes is announced and accepted, and the answer is heard. */
  const SETUP: seq<(bool, Step)> := [(true, Calls(SendFile([1, 2]))), (false, Receives(YES)), (true, Receives(YES))]

  function Accepting(): World {
    var x: seq<Byte> := [1, 2];
    World(Peer(SendSide(Sending, true, x, 0, [x]), RecvSide(RecvIdle, false, 0, 0, []), false),
      Peer(SendSide(SendIdle, false, [], 0, []), RecvSide(Receiving, true, 2, 0, [Got([], false)]), false),
      [], [], true)
  }

  lemma {:induction false} AcceptingIsReached(steps: seq<(bool, Step)>, w: World)
    requires Reaches(Accepting(), steps, w)
    ensures Reaches(START, SETUP + steps, w)
  {
    var w1 := Moved(START, true, Calls(SendFile([1, 2])));
    var w2 := Moved(w1, false, Receives(YES));
    assert Moved(w2, true, Receives(YES)) == Accepting();
    ReachesBefore(w2, true, Receives(YES), steps, w);
    ReachesBefore(w1, false, Receives(YES), [(true, Receives(YES))] + steps, w);
    ReachesBefore(START, true, Calls(SendFile([1, 2])),
                  [(false, Receives(YES))] + ([(true, Receives(YES))] + steps), w);
    assert [(true, Calls(SendFile([1, 2])))] + ([(false, Receives(YES))] + ([(true, Receives(YES))] + steps))
        == SETUP + steps;
  }

  lemma {:induction false} ThreeSteps(w0: World, f1: bool, s1: Step, f2: bool, s2: Step, f3: bool, s3: Step)
    requires Enabled(if f1 then w0 else Flip(w0), s1)
    requires var w1 := Moved(w0, f1, s1); Enabled(if f2 then w1 else Flip(w1), s2)
    requires var w2 := Moved(Moved(w0, f1, s1), f2, s2); Enabled(if f3 then w2 else Flip(w2), s3)
    ensures Reaches(w0, [(f1, s1), (f2, s2), (f3, s3)], Moved(Moved(Moved(w0, f1, s1), f2, s2), f3, s3))
  {
    var w1 := Moved(w0, f1, s1);
    var w2 := Moved(w1, f2, s2);
    var w := Moved(w2, f3, s3);
    assert [(f3, s3)] + [] == [(f3, s3)];
    ReachesBefore(w2, f3, s3, [], w);
    ReachesBefore(w1, f2, s2, [(f3, s3)], w);
    ReachesBefore(w0, f1, s1, [(f2, s2)] + [(f3, s3)], w);
    assert [(f1, s1)] + ([(f2, s2)] + [(f3, s3)]) == [(f1, s1), (f2, s2), (f3, s3)];
  }

  /** Both sides pause, and the commands cross. */
  lemma {:induction false} CrossingPausesDrop() returns (w: World)
    ensures !w.alive
    ensures Reaches(START,
                    SETUP + [(true, Calls(PauseFile(true))), (false, Calls(PauseFile(false))), (true, Receives(YES))],
                    w)
  {
    var w1 := Moved(Accepting(), true, Calls(PauseFile(true)));
    var w2 := Moved(w1, false, Calls(PauseFile(false)));
    w := Moved(w2, true, Receives(YES));
    ThreeSteps(Accepting(), true, Calls(PauseFile(true)), false, Calls(PauseFile(false)), true, Receives(YES));
    AcceptingIsReached([(true, Calls(PauseFile(true))), (false, Calls(PauseFile(false))), (true, Receives(YES))], w);
  }

  /** The receiver alone acts: its cancellation crosses a fragment. */
  lemma {:induction false} CancelMeetsFragment() returns (w: World)
    ensures !w.alive
    ensures Reaches(START,
                    SETUP + [(true, Calls(SendFragment(1))), (false, Calls(CancelFile(false))), (false, Receives(YES))],
                    w)
  {
    var w1 := Moved(Accepting(), true, Calls(SendFragment(1)));
    var w2 := Moved(w1, false, Calls(CancelFile(false)));
    w := Moved(w2, false, Receives(YES));
    ThreeSteps(Accepting(), true, Calls(SendFragment(1)), false, Calls(CancelFile(false)), false, Receives(YES));
    AcceptingIsReached([(true, Calls(SendFragment(1))), (false, Calls(CancelFile(false))), (false, Receives(YES))], w);
  }
}
