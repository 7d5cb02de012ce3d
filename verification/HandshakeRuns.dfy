/** What lies behind an Active channel, told from the events alone: which results of the socket and TLS calls and which
    messages of the peer brought it there; when a channel is closed; and that it can always be brought to Active. */
module HandshakeRuns {
  import opened Handshake

  // ---------------------------------------------------------------------------------------------------
  // The events behind each mark
  // ---------------------------------------------------------------------------------------------------

  /** The message that ends the set-up: the caller hears that the versions agree, the callee hears the caller's. */
  function Key(outgoing: bool): Incoming {
    if outgoing then InitOk else ConnReq(VERSION)
  }

  /** The event can be the reason for the mark. */
  predicate Justifies(outgoing: bool, e: Event, m: Mark) {
    match e
    case Found(_, _) => m == Started
    case Push(_) => false
    case Pass(i) =>
      match m
      case Started => false
      case AnonTls => (i.rd || i.wr) && i.ssl.ret == 1
      case ConnIdQueued => (i.rd || i.wr) && i.ssl.ret == 1
      case ConnIdSent => i.wr && i.writeOk && i.written > 0
      case AnonShut => (i.rd || i.wr) && i.ssl.ret == 1 && i.ssl2.ret != 0 && (i.ssl2.ret > 0 || i.ssl2.again)
      case Tls => (i.rd || i.wr) && i.ssl.ret == 1
      case CertPassed => (i.rd || i.wr) && i.ssl.ret == 1 && i.certOk
      case RequestQueued => outgoing && i.certOk
      case VersionsAgree => i.rd && i.readOk && Key(outgoing) in i.msgs
  }

  /** The channel has not begun anew in the events from the k-th on. */
  predicate NotRestarted(es: seq<Event>, k: nat) {
    forall j :: k <= j < |es| ==> !es[j].Found?
  }

  /** The events contain, in the order of the marks and without a restart behind the first, a reason for each. */
  ghost predicate Justified(outgoing: bool, log: seq<Mark>, es: seq<Event>)
    decreases |log|
  {
    log == [] ||
    exists k :: Last(outgoing, log, es, k) && Justified(outgoing, log[..|log| - 1], es[..k + 1])
  }

  /** The k-th event is the reason for the last mark. */
  predicate Last(outgoing: bool, log: seq<Mark>, es: seq<Event>, k: int)
    requires log != []
  {
    0 <= k < |es| && Justifies(outgoing, es[k], log[|log| - 1]) && NotRestarted(es, k + 1)
  }

  /** The second log goes on from the first with marks that the event justifies. */
  predicate Extends(outgoing: bool, e: Event, a: seq<Mark>, b: seq<Mark>) {
    a <= b && forall k :: |a| <= k < |b| ==> Justifies(outgoing, e, b[k])
  }

  lemma {:induction false} OtherEvent(outgoing: bool, log: seq<Mark>, es: seq<Event>, e: Event)
    requires Justified(outgoing, log, es) && !e.Found?
    ensures Justified(outgoing, log, es + [e])
  {
    if log != [] {
      var k :| Last(outgoing, log, es, k) && Justified(outgoing, log[..|log| - 1], es[..k + 1]);
      assert (es + [e])[..k + 1] == es[..k + 1] && (es + [e])[k] == es[k];
      assert Last(outgoing, log, es + [e], k);
    }
  }

  lemma {:induction false} NextEvent(outgoing: bool, log: seq<Mark>, es: seq<Event>, e: Event, log': seq<Mark>)
    requires Justified(outgoing, log, es) && !e.Found? && Extends(outgoing, e, log, log')
    ensures Justified(outgoing, log', es + [e])
    decreases |log'|
  {
    if log' == log {
      OtherEvent(outgoing, log, es, e);
    } else {
      var n := |log'| - 1;
      NextEvent(outgoing, log, es, e, log'[..n]);
      assert (es + [e])[..|es| + 1] == es + [e];
      assert Last(outgoing, log', es + [e], |es|);
    }
  }

  // ---------------------------------------------------------------------------------------------------
  // One event
  // ---------------------------------------------------------------------------------------------------

  lemma {:induction false} MessageMarks(c: Chan, m: Incoming, e: Event)
    requires Handle(c, m).Alive? && e.Pass? && e.input.rd && e.input.readOk && m in e.input.msgs
    requires Inv(c) && Talking(c.state)
    ensures var c' := Handle(c, m).chan;
            Extends(c.outgoing, e, c.log, c'.log) && c'.outgoing == c.outgoing && Inv(c') && Talking(c'.state)
  {
  }

  /** Reading messages leaves the log, or adds that the versions agree if the message that says so was there. */
  lemma {:induction false} MessagesMark(c: Chan, ms: seq<Incoming>, e: Event)
    requires HandleAll(c, ms).Alive? && e.Pass? && e.input.rd && e.input.readOk
    requires Inv(c) && Talking(c.state) && forall m :: m in ms ==> m in e.input.msgs
    ensures var c' := HandleAll(c, ms).chan;
            Extends(c.outgoing, e, c.log, c'.log) && c'.outgoing == c.outgoing
    decreases |ms|
  {
    if ms != [] {
      MessageMarks(c, ms[0], e);
      MessagesMark(Handle(c, ms[0]).chan, ms[1..], e);
    }
  }

  lemma {:induction false} WriteMarks(c: Chan, e: Event)
    requires Inv(c) && Enabled(c, e) && e.Pass? && e.input.wr
    ensures var r := Write(c, e.input.writeOk, e.input.written);
            r.Alive? ==> Extends(c.outgoing, e, c.log, r.chan.log) && r.chan.outgoing == c.outgoing && Inv(r.chan)
                         && r.chan.state == c.state
  {
    WriteKeeps(c, e.input.writeOk, e.input.written);
  }

  lemma {:induction false} TalkMarks(c: Chan, e: Event)
    requires Inv(c) && Enabled(c, e) && e.Pass? && Talking(c.state) && WriteThenRead(c, e.input).Alive?
    ensures var c' := WriteThenRead(c, e.input).chan;
            Extends(c.outgoing, e, c.log, c'.log) && c'.outgoing == c.outgoing
  {
    var i := e.input;
    var c1 := if i.wr then Write(c, i.writeOk, i.written).chan else c;
    if i.wr {
      WriteMarks(c, e);
    }
    if i.rd {
      MessagesMark(c1, i.msgs, e);
    }
  }

  lemma {:induction false} SetUpMarks(c: Chan, e: Event)
    requires Inv(c) && Enabled(c, e) && e.Pass? && !Talking(c.state) && Case(c, e.input).Alive?
    ensures var c' := Case(c, e.input).chan;
            Extends(c.outgoing, e, c.log, c'.log) && c'.outgoing == c.outgoing
  {
    if c.state == ConnId {
      ConnIdMarks(c, e);
    } else if c.state == WaitAnonShut || c.state == WaitTls {
      TlsMarks(c, e);
    }
  }

  lemma {:induction false} ConnIdMarks(c: Chan, e: Event)
    requires Inv(c) && Enabled(c, e) && e.Pass? && c.state == ConnId && Case(c, e.input).Alive?
    ensures var c' := Case(c, e.input).chan;
            Extends(c.outgoing, e, c.log, c'.log) && c'.outgoing == c.outgoing
  {
    if e.input.wr {
      WriteMarks(c, e);
    }
  }

  lemma {:induction false} TlsMarks(c: Chan, e: Event)
    requires Inv(c) && Enabled(c, e) && e.Pass? && (c.state == WaitAnonShut || c.state == WaitTls)
    requires Case(c, e.input).Alive?
    ensures var c' := Case(c, e.input).chan;
            Extends(c.outgoing, e, c.log, c'.log) && c'.outgoing == c.outgoing
  {
  }

  lemma {:induction false} EventMarks(c: Chan, e: Event)
    requires Inv(c) && Enabled(c, e) && Next(c, e).Alive?
    ensures var c' := Next(c, e).chan;
            c'.outgoing == c.outgoing && if e.Found? then c'.log == [Started] else Extends(c.outgoing, e, c.log, c'.log)
  {
    if e.Pass? {
      if Talking(c.state) {
        TalkMarks(c, e);
      } else {
        SetUpMarks(c, e);
      }
    }
  }

  // ---------------------------------------------------------------------------------------------------
  // Every run
  // ---------------------------------------------------------------------------------------------------

  lemma {:induction false} EventJustifies(c: Chan, before: seq<Event>, e: Event)
    requires Inv(c) && Enabled(c, e) && Next(c, e).Alive? && Justified(c.outgoing, c.log, before)
    ensures var c' := Next(c, e).chan;
            Inv(c') && c'.outgoing == c.outgoing && Justified(c.outgoing, c'.log, before + [e])
  {
    NextKeeps(c, e);
    EventMarks(c, e);
    var c' := Next(c, e).chan;
    if e.Found? {
      assert Justified(c.outgoing, [Started][..0], (before + [e])[..|before| + 1]);
      assert Last(c.outgoing, [Started], before + [e], |before|);
    } else {
      NextEvent(c.outgoing, c.log, before, e, c'.log);
    }
  }

  lemma {:induction false} RunJustifies(c: Chan, before: seq<Event>, es: seq<Event>)
    requires Inv(c) && Possible(c, es) && Justified(c.outgoing, c.log, before) && Run(c, es).Alive?
    ensures var c' := Run(c, es).chan;
            c'.outgoing == c.outgoing && Inv(c') && Justified(c.outgoing, c'.log, before + es)
    decreases |es|
  {
    if es == [] {
      assert before + es == before;
    } else {
      EventJustifies(c, before, es[0]);
      RunJustifies(Next(c, es[0]).chan, before + [es[0]], es[1..]);
      assert before + [es[0]] + es[1..] == before + es;
    }
  }

  /** In every run, behind an Active channel lie, since it last began to connect and in this order: a completed
      anonymous TLS handshake, a successful write, a completed shutdown, a completed TLS handshake with a certificate
      that passed, and the message of the peer that the versions agree. */
  lemma {:induction false} ActiveIsJustified(outgoing: bool, es: seq<Event>)
    requires Possible(Fresh(outgoing), es)
    ensures var r := Run(Fresh(outgoing), es);
            r.Alive? && r.chan.state == Active ==> Justified(outgoing, Procedure(outgoing), es)
  {
    if Run(Fresh(outgoing), es).Alive? {
      RunJustifies(Fresh(outgoing), [], es);
      assert [] + es == es;
    }
  }

  /** In particular a caller is Active only if it has read INITRESPOK since then, and a callee only if it has read a
      request with its own version. */
  lemma {:induction false} ActiveHasHeard(outgoing: bool, es: seq<Event>) returns (k: nat)
    requires Possible(Fresh(outgoing), es)
    requires var r := Run(Fresh(outgoing), es); r.Alive? && r.chan.state == Active
    ensures k < |es| && es[k].Pass? && es[k].input.rd && es[k].input.readOk && Key(outgoing) in es[k].input.msgs
    ensures NotRestarted(es, k)
  {
    ActiveIsJustified(outgoing, es);
    var log := Procedure(outgoing);
    k :| Last(outgoing, log, es, k) && Justified(outgoing, log[..|log| - 1], es[..k + 1]);
  }

  // ---------------------------------------------------------------------------------------------------
  // The conversation
  // ---------------------------------------------------------------------------------------------------

  /** What a peer may say, in order: to the caller once that the versions agree, to the callee its version until it is
      the right one; that versions differ is never accepted. */
  predicate Acceptable(outgoing: bool, active: bool, ms: seq<Incoming>)
    decreases |ms|
  {
    ms == [] ||
    match ms[0]
    case ConnReq(v) => !outgoing && !active && Acceptable(outgoing, v == VERSION, ms[1..])
    case InitOk => outgoing && !active && Acceptable(outgoing, true, ms[1..])
    case VerDiffer => false
    case Other(accepted, _) => accepted && Acceptable(outgoing, active, ms[1..])
  }

  /** The bytes that the handlers queue in reply. */
  function Replies(ms: seq<Incoming>): nat {
    if ms == [] then 0
    else (match ms[0] case ConnReq(_) => REPLY_SIZE case Other(_, n) => n case _ => 0) + Replies(ms[1..])
  }

  /** A channel survives a batch of messages if and only if they are acceptable; it is Active afterwards if and only if
      it was, or the right one was among them; and its replies are queued. */
  lemma {:induction false} ConversationIsExact(c: Chan, ms: seq<Incoming>)
    requires Inv(c) && Talking(c.state)
    ensures var r := HandleAll(c, ms);
            && (r.Alive? <==> Acceptable(c.outgoing, c.state == Active, ms))
            && (r.Alive? ==>
                  && (r.chan.state == Active <==> c.state == Active || Key(c.outgoing) in ms)
                  && (r.chan.parting <==> c.parting || exists v :: v != VERSION && ConnReq(v) in ms)
                  && r.chan.writePos == c.writePos + Replies(ms))
    decreases |ms|
  {
    if ms != [] {
      assert forall m :: m in ms <==> m == ms[0] || m in ms[1..];
      var r := Handle(c, ms[0]);
      if r.Alive? {
        HandleAllKeeps(c, [ms[0]]);
        assert HandleAll(c, [ms[0]]) == r && Talking(r.chan.state);
        ConversationIsExact(r.chan, ms[1..]);
      }
    }
  }

  /** That the versions differ ends the channel, whatever else is read. */
  lemma {:induction false} VerDifferCloses(c: Chan, ms: seq<Incoming>)
    requires VerDiffer in ms
    ensures HandleAll(c, ms) == Closed
    decreases |ms|
  {
    HandlersDoNotExit(c, ms);
    if ms[0] != VerDiffer && Handle(c, ms[0]).Alive? {
      VerDifferCloses(Handle(c, ms[0]).chan, ms[1..]);
    }
  }

  // ---------------------------------------------------------------------------------------------------
  // When setting up fails
  // ---------------------------------------------------------------------------------------------------

  predicate Fatal(r: SslRet) {
    r.ret < 0 && !r.again
  }

  /** The failures of the stages; `flushed`: nothing is left to write. */
  predicate Fails(c: Chan, i: Input)
    requires i.written <= c.writePos
  {
    var touched, flushed := i.rd || i.wr, c.writePos == if i.wr then i.written else 0;
    match c.state
    case Connecting => i.wr && (!i.connected || i.ssl.ret == 0 || Fatal(i.ssl))
    case WaitAnonTls => touched && (i.ssl.ret == 0 || Fatal(i.ssl))
    case ConnId =>
      || (i.wr && ((c.writePos > 0 && !i.writeOk) || (c.parting && flushed)))
      || (flushed && (i.ssl.ret > 0 || Fatal(i.ssl)))
    case WaitAnonShut => touched && (Fatal(i.ssl) || (i.ssl.ret == 1 && (i.ssl2.ret == 0 || Fatal(i.ssl2))))
    case WaitTls => touched && (i.ssl.ret == 0 || Fatal(i.ssl) || (i.ssl.ret == 1 && !i.certOk))
    case _ => false
  }

  /** A channel that is being set up is closed by a pass if and only if a call of its stage failed or it is late. */
  lemma {:induction false} SetUpClosesExactlyWhen(c: Chan, i: Input)
    requires Inv(c) && i.written <= c.writePos && !Talking(c.state)
    ensures Process(c, i) == Closed <==> Fails(c, i) || i.late
  {
    if c.state == ConnId {
      WriteKeeps(c, i.writeOk, i.written);
    }
  }

  /** Whatever the state, a channel that outlives a late pass is Active. */
  lemma {:induction false} LateMeansActive(c: Chan, i: Input)
    requires i.written <= c.writePos && i.late
    ensures Process(c, i).Alive? ==> Process(c, i).chan.state == Active
  {
  }

  /** An attempt to connect ends the channel if and only if it is refused, or succeeds and TLS cannot be started. */
  lemma {:induction false} StartClosesExactlyWhen(c: Chan, connect: Connect, r: SslRet)
    ensures var e := Handshake.Event.Found(connect, r);
            && (Next(c, e) == Closed <==> connect == Refused || (connect == Connected && (r.ret == 0 || Fatal(r))))
            && (Next(c, e) != Closed ==>
                  && Next(c, e).Alive?
                  && Next(c, e).chan.state == if connect == Connected then WaitAnonTls else Connecting)
  {
  }

  // ---------------------------------------------------------------------------------------------------
  // The bytes
  // ---------------------------------------------------------------------------------------------------

  /** The bytes an event queues: of the application, CONNID, the request, or replies to messages. */
  function QueuedBy(c: Chan, e: Event): nat {
    match e
    case Found(_, _) => 0
    case Push(n) => n
    case Pass(i) =>
      match c.state
      case WaitAnonTls => if (i.rd || i.wr) && i.ssl.ret == 1 then CONNID_SIZE else 0
      case WaitTls => if (i.rd || i.wr) && i.ssl.ret == 1 && c.outgoing then REPLY_SIZE else 0
      case _ => if Talking(c.state) && i.rd then Replies(i.msgs) else 0
  }

  /** The bytes an event writes. */
  function SentBy(c: Chan, e: Event): nat {
    if e.Pass? && e.input.wr && (c.state == ConnId || Talking(c.state)) then e.input.written else 0
  }

  lemma {:induction false} EventAccounts(c: Chan, e: Event)
    requires Inv(c) && Enabled(c, e) && Next(c, e).Alive?
    ensures Next(c, e).chan.writePos + SentBy(c, e) == c.writePos + QueuedBy(c, e)
  {
    if e.Pass? && Talking(c.state) {
      var i := e.input;
      var c1 := if i.wr then Write(c, i.writeOk, i.written).chan else c;
      WriteKeeps(c, i.writeOk, i.written);
      if i.rd {
        ConversationIsExact(c1, i.msgs);
      }
    }
  }

  function QueuedIn(c: Chan, es: seq<Event>): nat
    requires Possible(c, es)
    decreases |es|
  {
    if es == [] || !Next(c, es[0]).Alive? then 0 else QueuedBy(c, es[0]) + QueuedIn(Next(c, es[0]).chan, es[1..])
  }

  function SentIn(c: Chan, es: seq<Event>): nat
    requires Possible(c, es)
    decreases |es|
  {
    if es == [] || !Next(c, es[0]).Alive? then 0 else SentBy(c, es[0]) + SentIn(Next(c, es[0]).chan, es[1..])
  }

  /** In every run the bytes queued are the bytes written and those still in the write buffer. */
  lemma {:induction false} BytesAreAccounted(c: Chan, es: seq<Event>)
    requires Inv(c) && Possible(c, es) && Run(c, es).Alive?
    ensures Run(c, es).chan.writePos + SentIn(c, es) == c.writePos + QueuedIn(c, es)
    decreases |es|
  {
    if es != [] {
      NextKeeps(c, es[0]);
      EventAccounts(c, es[0]);
      BytesAreAccounted(Next(c, es[0]).chan, es[1..]);
    }
  }

  // ---------------------------------------------------------------------------------------------------
  // Coming to an end
  // ---------------------------------------------------------------------------------------------------

  /** How many good passes a channel is away from Active. */
  function Distance(s: State): nat {
    match s
    case New => 7
    case Connecting => 6
    case WaitAnonTls => 5
    case ConnId => 4
    case WaitAnonShut => 3
    case WaitTls => 2
    case WaitRep => 1
    case WaitProtoVer => 1
    case Active => 0
  }

  /** The event in which everything goes well. */
  function Good(c: Chan): Event {
    match c.state
    case New => Handshake.Event.Found(InProgress, SslRet(1, false))
    case ConnId => GoodPass(0, false, true, c.writePos, [])
    case WaitRep => GoodPass(1, true, true, c.writePos, [InitOk])
    case WaitProtoVer => GoodPass(1, true, false, 0, [ConnReq(VERSION)])
    case _ => GoodPass(1, true, true, 0, [])
  }

  lemma {:induction false} GoodBringsNearer(c: Chan)
    requires Inv(c) && !c.parting && c.state != Active
    ensures Enabled(c, Good(c)) && Next(c, Good(c)).Alive?
    ensures var c' := Next(c, Good(c)).chan;
            Inv(c') && !c'.parting && Distance(c'.state) + 1 == Distance(c.state) && c'.outgoing == c.outgoing
  {
    NextKeeps(c, Good(c));
    if c.state == WaitRep {
      OneMessage(Write(c, true, c.writePos).chan, InitOk);
    } else if c.state == WaitProtoVer {
      OneMessage(c, ConnReq(VERSION));
    }
  }

  lemma {:induction false} OneMessage(c: Chan, m: Incoming)
    ensures HandleAll(c, [m]) == Handle(c, m)
  {
    assert [m][1..] == [];
  }

  /** A channel that has not been told to part can be brought to Active from wherever it is. */
  lemma {:induction false} CanComplete(c: Chan) returns (es: seq<Event>)
    requires Inv(c) && !c.parting
    ensures Possible(c, es) && |es| == Distance(c.state)
    ensures var r := Run(c, es); r.Alive? && r.chan.state == Active
    decreases Distance(c.state)
  {
    es := [];
    if c.state != Active {
      GoodBringsNearer(c);
      var rest := CanComplete(Next(c, Good(c)).chan);
      RunBefore(c, Good(c), rest);
      es := [Good(c)] + rest;
    }
  }

  /** The two sides of a call for which everything succeeds end Active, with nothing left to write. */
  lemma {:induction false} BothRolesComplete()
    ensures var es := TO_TALK + [GoodPass(1, true, true, REPLY_SIZE, [InitOk])];
            && Possible(Fresh(true), es)
            && Run(Fresh(true), es) == Alive(Chan(Active, true, 0, false, 0, Procedure(true)))
    ensures var es := TO_TALK + [GoodPass(1, true, false, 0, [ConnReq(VERSION)]),
                                     GoodPass(1, false, true, REPLY_SIZE, [])];
            && Possible(Fresh(false), es)
            && Run(Fresh(false), es) == Alive(Chan(Active, false, 0, false, 0, Procedure(false)))
  {
    var e := GoodPass(1, true, true, REPLY_SIZE, [InitOk]);
    OneMessage(Ready(true).(writePos := 0), InitOk);
    assert Next(Ready(true), e) == Alive(Chan(Active, true, 0, false, 0, Procedure(true)));
    RunBefore(Ready(true), e, []);
    assert [e] + [] == [e];
    ReachesTalk(true, [e]);
    var e1, e2 := GoodPass(1, true, false, 0, [ConnReq(VERSION)]), GoodPass(1, false, true, REPLY_SIZE, []);
    OneMessage(Ready(false), ConnReq(VERSION));
    assert Next(Ready(false), e1) == Alive(Chan(Active, false, REPLY_SIZE, false, 0, Procedure(false)));
    RunBefore(Next(Ready(false), e1).chan, e2, []);
    RunBefore(Ready(false), e1, [e2] + []);
    assert [e1] + ([e2] + []) == [e1, e2];
    ReachesTalk(false, [e1, e2]);
  }
}
