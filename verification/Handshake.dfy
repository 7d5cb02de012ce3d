/** How a client-to-client channel is set up (c2c_start, the c2c_stage functions, procmsg_C2CCONNREQ,
    procmsg_INITRESP_c2c and process_c2c in PICA_client.c).

    Results of the socket and TLS calls are inputs.  `log` records what has really happened since the channel last
    began to connect; the program has no such variable and decides by its `state` and `write_pos` alone. */
module Handshake {

  datatype State = New | Connecting | WaitAnonTls | ConnId | WaitAnonShut | WaitTls | WaitRep | WaitProtoVer | Active

  datatype Mark =
    | Started | AnonTls | ConnIdQueued | ConnIdSent | AnonShut | Tls | CertPassed | RequestQueued | VersionsAgree

  const CONNID_SIZE: nat := 58
  const REPLY_SIZE: nat := 4
  const VERSION: (int, int) := (0, 1)

  /** `connIdEnd` is how far into the write buffer the CONNID message of this attempt still reaches. */
  datatype Chan = Chan(state: State, outgoing: bool, writePos: nat, parting: bool, connIdEnd: nat, log: seq<Mark>)

  /** The channel lives on, has been closed, or the whole process has exited. */
  datatype Result = Alive(chan: Chan) | Closed | Exited

  /** The value a TLS call returned, and whether a negative one only means to try again. */
  datatype SslRet = SslRet(ret: int, again: bool)

  datatype Connect = Connected | InProgress | Refused

  /** A message as dispatched by the read loop.  The other handlers leave the state alone; they accept or refuse the
      message and may queue bytes.  The address list that a channel may offer when it becomes Active is a push of its
      own, behind the pass. */
  datatype Incoming =
    | ConnReq(version: (int, int))
    | InitOk
    | VerDiffer
    | Other(accepted: bool, queued: nat)

  /** What select and the library calls give one pass of process_c2c. */
  datatype Input = Input(rd: bool, wr: bool, connected: bool, ssl: SslRet, ssl2: SslRet,
                         writeOk: bool, written: nat, certOk: bool, readOk: bool, msgs: seq<Incoming>, late: bool)

  datatype Event =
    | Found(connect: Connect, ssl: SslRet)
    | Push(n: nat)
    | Pass(input: Input)

  // ---------------------------------------------------------------------------------------------------
  // The stages
  // ---------------------------------------------------------------------------------------------------

  /** process_async_ssl_errors */
  predicate Goes(r: SslRet) {
    r.ret > 0 || (r.ret < 0 && r.again)
  }

  function Marked(c: Chan, m: Mark): Chan {
    c.(log := c.log + [m])
  }

  function StartAnonTls(c: Chan, r: SslRet): Result {
    if Goes(r) then Alive(c.(state := WaitAnonTls)) else Closed
  }

  /** c2c_start */
  function Start(c: Chan, connect: Connect, r: SslRet): Result {
    var c := c.(state := Connecting, connIdEnd := 0, log := [Started]);
    match connect
    case Connected => StartAnonTls(c, r)
    case InProgress => Alive(c)
    case Refused => Closed
  }

  function QueueConnId(c: Chan): Chan {
    var pos := c.writePos + CONNID_SIZE;
    Marked(c.(state := ConnId, writePos := pos, connIdEnd := pos), ConnIdQueued)
  }

  /** A return value of 1, a shutdown already complete, counts as an error here. */
  function ShutAnonTls(c: Chan, r: SslRet): Result {
    if r.ret == 0 || (r.ret < 0 && r.again) then Alive(c.(state := WaitAnonShut)) else Closed
  }

  function StartTls(c: Chan, r: SslRet): Result {
    if r.ret == 0 || (r.ret < 0 && !r.again) then Closed else Alive(c.(state := WaitTls))
  }

  function SendRequest(c: Chan): Chan {
    Marked(c.(writePos := c.writePos + REPLY_SIZE, state := WaitRep), RequestQueued)
  }

  /** n bytes leave the front of the write buffer. */
  function Wrote(c: Chan, n: nat): Chan
    requires n <= c.writePos
  {
    var c' := c.(writePos := c.writePos - n, connIdEnd := if n <= c.connIdEnd then c.connIdEnd - n else 0);
    if c.connIdEnd > 0 && c'.connIdEnd == 0 then Marked(c', ConnIdSent) else c'
  }

  /** PICA_write_c2c */
  function Write(c: Chan, ok: bool, n: nat): Result
    requires n <= c.writePos
  {
    if c.state != Active && c.state != ConnId && c.state != WaitRep then Exited
    else if c.writePos > 0 && !ok then Closed
    else if c.parting && c.writePos == n then Closed
    else Alive(Wrote(c, n))
  }

  /** The handlers of the c2c message table. */
  function Handle(c: Chan, m: Incoming): Result {
    match m
    case ConnReq(v) =>
      if c.state != WaitProtoVer then Closed
      else if v == VERSION then Alive(Marked(c.(writePos := c.writePos + REPLY_SIZE, state := Active), VersionsAgree))
      else Alive(c.(writePos := c.writePos + REPLY_SIZE, parting := true))
    case InitOk =>
      if c.state != WaitRep || !c.outgoing then Closed else Alive(Marked(c.(state := Active), VersionsAgree))
    case VerDiffer => Closed
    case Other(accepted, queued) => if accepted then Alive(c.(writePos := c.writePos + queued)) else Closed
  }

  function HandleAll(c: Chan, ms: seq<Incoming>): Result
    decreases |ms|
  {
    if ms == [] then Alive(c)
    else
      match Handle(c, ms[0])
      case Alive(c') => HandleAll(c', ms[1..])
      case Closed => Closed
      case Exited => Exited
  }

  /** PICA_read_c2c */
  function Read(c: Chan, ok: bool, ms: seq<Incoming>): Result {
    if c.state != WaitRep && c.state != WaitProtoVer && c.state != Active then Exited
    else if !ok then Closed
    else HandleAll(c, ms)
  }

  function WriteThenRead(c: Chan, i: Input): Result
    requires i.written <= c.writePos
  {
    match (if i.wr then Write(c, i.writeOk, i.written) else Alive(c))
    case Alive(c') => if i.rd then Read(c', i.readOk, i.msgs) else Alive(c')
    case Closed => Closed
    case Exited => Exited
  }

  /** The case of process_c2c for each state. */
  function Case(c: Chan, i: Input): Result
    requires i.written <= c.writePos
  {
    match c.state
    case New => Alive(c)
    case Connecting =>
      if !i.wr then Alive(c) else if i.connected then StartAnonTls(c, i.ssl) else Closed
    case WaitAnonTls =>
      if !(i.rd || i.wr) then Alive(c)
      else if i.ssl.ret == 1 then Alive(QueueConnId(Marked(c, AnonTls)))
      else if Goes(i.ssl) then Alive(c) else Closed
    case ConnId =>
      (match (if i.wr then Write(c, i.writeOk, i.written) else Alive(c))
       case Alive(c') => if c'.writePos == 0 then ShutAnonTls(c', i.ssl) else Alive(c')
       case Closed => Closed
       case Exited => Exited)
    case WaitAnonShut =>
      if !(i.rd || i.wr) || i.ssl.ret == 0 then Alive(c)
      else if i.ssl.ret == 1 then StartTls(Marked(c, AnonShut), i.ssl2)
      else if Goes(i.ssl) then Alive(c) else Closed
    case WaitTls =>
      if !(i.rd || i.wr) then Alive(c)
      else if i.ssl.ret == 1 then
        if !i.certOk then Closed
        else
          var c' := Marked(Marked(c, Tls), CertPassed);
          if c.outgoing then Alive(SendRequest(c')) else Alive(c'.(state := WaitProtoVer))
      else if i.ssl.ret == 0 || (i.ssl.ret < 0 && !i.ssl.again) then Closed
      else Alive(c)
    case WaitRep => WriteThenRead(c, i)
    case WaitProtoVer => WriteThenRead(c, i)
    case Active => WriteThenRead(c, i)
  }

  /** process_c2c */
  function Process(c: Chan, i: Input): Result
    requires i.written <= c.writePos
  {
    var r := Case(c, i);
    if r.Alive? && r.chan.state != Active && i.late then Closed else r
  }

  // ---------------------------------------------------------------------------------------------------
  // Every run
  // ---------------------------------------------------------------------------------------------------

  /** No more is written than there is. */
  predicate Enabled(c: Chan, e: Event) {
    e.Pass? ==> e.input.written <= c.writePos
  }

  function Next(c: Chan, e: Event): Result
    requires Enabled(c, e)
  {
    match e
    case Found(connect, r) => Start(c, connect, r)
    case Push(n) => Alive(c.(writePos := c.writePos + n))
    case Pass(i) => Process(c, i)
  }

  predicate Possible(c: Chan, es: seq<Event>)
    decreases |es|
  {
    es == [] || (Enabled(c, es[0]) && (Next(c, es[0]).Alive? ==> Possible(Next(c, es[0]).chan, es[1..])))
  }

  function Run(c: Chan, es: seq<Event>): Result
    requires Possible(c, es)
    decreases |es|
  {
    if es == [] then Alive(c)
    else
      var r := Next(c, es[0]);
      if r.Alive? then Run(r.chan, es[1..]) else r
  }

  /** The whole procedure, in order, for either role. */
  function Procedure(outgoing: bool): seq<Mark> {
    [Started, AnonTls, ConnIdQueued, ConnIdSent, AnonShut, Tls, CertPassed]
      + (if outgoing then [RequestQueued] else []) + [VersionsAgree]
  }

  /** How far along the procedure a channel is. */
  function Reached(c: Chan): seq<Mark> {
    match c.state
    case New => []
    case Connecting => [Started]
    case WaitAnonTls => [Started]
    case ConnId =>
      if c.connIdEnd > 0 then [Started, AnonTls, ConnIdQueued] else [Started, AnonTls, ConnIdQueued, ConnIdSent]
    case WaitAnonShut => [Started, AnonTls, ConnIdQueued, ConnIdSent]
    case WaitTls => [Started, AnonTls, ConnIdQueued, ConnIdSent, AnonShut]
    case WaitRep => [Started, AnonTls, ConnIdQueued, ConnIdSent, AnonShut, Tls, CertPassed, RequestQueued]
    case WaitProtoVer => [Started, AnonTls, ConnIdQueued, ConnIdSent, AnonShut, Tls, CertPassed]
    case Active => Procedure(c.outgoing)
  }

  predicate Inv(c: Chan) {
    && c.connIdEnd <= c.writePos
    && (c.state != ConnId ==> c.connIdEnd == 0)
    && c.log == Reached(c)
    && (c.state == WaitRep ==> c.outgoing)
    && (c.state == WaitProtoVer ==> !c.outgoing)
  }

  lemma {:induction false} WriteKeeps(c: Chan, ok: bool, n: nat)
    requires Inv(c) && n <= c.writePos
    ensures Write(c, ok, n).Alive? ==> Inv(Write(c, ok, n).chan) && Write(c, ok, n).chan.state == c.state
  {
  }

  lemma {:induction false} HandleAllKeeps(c: Chan, ms: seq<Incoming>)
    requires Inv(c) && (c.state == WaitRep || c.state == WaitProtoVer || c.state == Active)
    ensures HandleAll(c, ms).Alive? ==> Inv(HandleAll(c, ms).chan)
    decreases |ms|
  {
    if ms != [] && Handle(c, ms[0]).Alive? {
      HandleAllKeeps(Handle(c, ms[0]).chan, ms[1..]);
    }
  }

  predicate Talking(s: State) {
    s == WaitRep || s == WaitProtoVer || s == Active
  }

  lemma {:induction false} TalkKeeps(c: Chan, i: Input)
    requires Inv(c) && i.written <= c.writePos && Talking(c.state)
    ensures WriteThenRead(c, i).Alive? ==> Inv(WriteThenRead(c, i).chan)
  {
    WriteKeeps(c, i.writeOk, i.written);
    var r := if i.wr then Write(c, i.writeOk, i.written) else Alive(c);
    if r.Alive? {
      HandleAllKeeps(r.chan, i.msgs);
    }
  }

  lemma {:induction false} ConnIdKeeps(c: Chan, i: Input)
    requires Inv(c) && i.written <= c.writePos && c.state == ConnId
    ensures Case(c, i).Alive? ==> Inv(Case(c, i).chan)
  {
    WriteKeeps(c, i.writeOk, i.written);
  }

  lemma {:induction false} TlsKeeps(c: Chan, i: Input)
    requires Inv(c) && i.written <= c.writePos && (c.state == WaitAnonShut || c.state == WaitTls)
    ensures Case(c, i).Alive? ==> Inv(Case(c, i).chan)
  {
  }

  lemma {:induction false} CaseKeeps(c: Chan, i: Input)
    requires Inv(c) && i.written <= c.writePos
    ensures Case(c, i).Alive? ==> Inv(Case(c, i).chan)
  {
    if Talking(c.state) {
      TalkKeeps(c, i);
    } else if c.state == ConnId {
      ConnIdKeeps(c, i);
    } else if c.state == WaitAnonShut || c.state == WaitTls {
      TlsKeeps(c, i);
    }
  }

  lemma {:induction false} ProcessKeeps(c: Chan, i: Input)
    requires Inv(c) && i.written <= c.writePos
    ensures Process(c, i).Alive? ==> Inv(Process(c, i).chan)
  {
    CaseKeeps(c, i);
  }

  lemma {:induction false} NextKeeps(c: Chan, e: Event)
    requires Inv(c) && Enabled(c, e)
    ensures Next(c, e).Alive? ==> Inv(Next(c, e).chan)
  {
    if e.Pass? {
      ProcessKeeps(c, e.input);
    }
  }

  lemma {:induction false} RunKeeps(c: Chan, es: seq<Event>)
    requires Inv(c) && Possible(c, es)
    ensures Run(c, es).Alive? ==> Inv(Run(c, es).chan)
    decreases |es|
  {
    if es != [] {
      NextKeeps(c, es[0]);
      var r := Next(c, es[0]);
      if r.Alive? {
        RunKeeps(r.chan, es[1..]);
      }
    }
  }

  function Fresh(outgoing: bool): Chan {
    Chan(New, outgoing, 0, false, 0, [])
  }

  /** In every run, a channel that is Active has gone through the whole procedure, in order, since it last began to
      connect. */
  lemma {:induction false} ActiveMeansProcedureDone(outgoing: bool, es: seq<Event>)
    requires Possible(Fresh(outgoing), es)
    ensures var r := Run(Fresh(outgoing), es);
            r.Alive? && r.chan.state == Active ==> r.chan.log == Procedure(r.chan.outgoing)
  {
    RunKeeps(Fresh(outgoing), es);
  }

  // ---------------------------------------------------------------------------------------------------
  // The refused write
  // ---------------------------------------------------------------------------------------------------

  lemma {:induction false} HandlersDoNotExit(c: Chan, ms: seq<Incoming>)
    ensures HandleAll(c, ms) != Exited
    decreases |ms|
  {
    if ms != [] && Handle(c, ms[0]).Alive? {
      HandlersDoNotExit(Handle(c, ms[0]).chan, ms[1..]);
    }
  }

  /** The process exits exactly when the socket of a channel that awaits the peer's version is found writable. */
  lemma {:induction false} ExitsExactlyWhenWritableInProtoVer(c: Chan, i: Input)
    requires Inv(c) && i.written <= c.writePos
    ensures Process(c, i) == Exited <==> c.state == WaitProtoVer && i.wr
  {
    WriteKeeps(c, i.writeOk, i.written);
    var r := if i.wr then Write(c, i.writeOk, i.written) else Alive(c);
    if r.Alive? {
      HandlersDoNotExit(r.chan, i.msgs);
    }
  }

  /** No write of the reply makes the process exit. */
  ghost predicate CanAnswer(c: Chan) {
    forall ok, n: nat :: n <= c.writePos ==> Write(c, ok, n) != Exited
  }

  /** The reply to a version request can be written if and only if the versions agree: a reply that they differ is
      queued in a state in which writing is refused. */
  lemma {:induction false} AnswerableExactlyWhenVersionsAgree(c: Chan, v: (int, int))
    requires c.state == WaitProtoVer
    ensures var r := Handle(c, ConnReq(v));
            r.Alive? && r.chan.writePos > 0 && (CanAnswer(r.chan) <==> v == VERSION)
  {
    var c' := Handle(c, ConnReq(v)).chan;
    if v != VERSION {
      assert Write(c', true, 0) == Exited;
    }
  }

  lemma {:induction false} RunBefore(c: Chan, e: Event, es: seq<Event>)
    requires Enabled(c, e) && (Next(c, e).Alive? ==> Possible(Next(c, e).chan, es))
    ensures Possible(c, [e] + es)
    ensures Run(c, [e] + es) == if Next(c, e).Alive? then Run(Next(c, e).chan, es) else Next(c, e)
  {
    assert ([e] + es)[1..] == es;
  }

  /** A pass in which the socket is readable and writable and every call succeeds: n bytes are written, ms are read. */
  function GoodPass(ret: int, rd: bool, wr: bool, n: nat, ms: seq<Incoming>): Event {
    Pass(Input(rd, wr, true, SslRet(ret, false), SslRet(1, false), true, n, true, true, ms, false))
  }

  /** A side of a call up to its wait for the other: the caller with its request queued, the callee with nothing. */
  function Ready(outgoing: bool): Chan {
    var log := [Started, AnonTls, ConnIdQueued, ConnIdSent, AnonShut, Tls, CertPassed];
    if outgoing then Chan(WaitRep, true, REPLY_SIZE, false, 0, log + [RequestQueued])
    else Chan(WaitProtoVer, false, 0, false, 0, log)
  }

  const TO_TALK: seq<Event> := [
    Found(Connected, SslRet(1, false)), GoodPass(1, true, true, 0, []), GoodPass(0, false, true, CONNID_SIZE, []),
    GoodPass(1, true, true, 0, []), GoodPass(1, true, true, 0, [])]

  lemma {:induction false} ReachesTalk(outgoing: bool, es: seq<Event>)
    requires Possible(Ready(outgoing), es)
    ensures Possible(Fresh(outgoing), TO_TALK + es)
    ensures Run(Fresh(outgoing), TO_TALK + es) == Run(Ready(outgoing), es)
  {
    var c0 := Fresh(outgoing);
    var e1, e2 := Found(Connected, SslRet(1, false)), GoodPass(1, true, true, 0, []);
    var e3 := GoodPass(0, false, true, CONNID_SIZE, []);
    var c1 := Next(c0, e1).chan;
    var c2 := Next(c1, e2).chan;
    var c3 := Next(c2, e3).chan;
    var c4 := Next(c3, e2).chan;
    assert Next(c4, e2) == Alive(Ready(outgoing));
    RunBefore(c4, e2, es);
    RunBefore(c3, e2, [e2] + es);
    RunBefore(c2, e3, [e2] + ([e2] + es));
    RunBefore(c1, e2, [e3] + ([e2] + ([e2] + es)));
    RunBefore(c0, e1, [e2] + ([e3] + ([e2] + ([e2] + es))));
    assert TO_TALK + es == [e1] + ([e2] + ([e3] + ([e2] + ([e2] + es))));
  }

  /** A caller with any other version makes the callee's process exit. */
  lemma {:induction false} OtherVersionMakesCalleeExit(v: (int, int))
    requires v != VERSION
    ensures var es := TO_TALK + [GoodPass(1, true, false, 0, [ConnReq(v)]), GoodPass(1, false, true, 0, [])];
            Possible(Fresh(false), es) && Run(Fresh(false), es) == Exited
  {
    var e1, e2 := GoodPass(1, true, false, 0, [ConnReq(v)]), GoodPass(1, false, true, 0, []);
    var c := Ready(false);
    assert [ConnReq(v)][1..] == [];
    assert Handle(c, ConnReq(v)) == Alive(c.(writePos := REPLY_SIZE, parting := true));
    assert HandleAll(c, [ConnReq(v)]) == Handle(c, ConnReq(v));
    RunBefore(Next(c, e1).chan, e2, []);
    RunBefore(c, e1, [e2] + []);
    assert [e1] + ([e2] + []) == [e1, e2];
    ReachesTalk(false, [e1, e2]);
  }

  // ---------------------------------------------------------------------------------------------------
  // The channel object
  // ---------------------------------------------------------------------------------------------------

  /** What a stage returns; on an error the event loop closes the channel. */
  datatype Ret = Ok | Error | ExitProcess

  function Told(r: Ret, c: Chan): Result {
    match r
    case Ok => Alive(c)
    case Error => Closed
    case ExitProcess => Exited
  }

  class C2c {
    var state: State
    const outgoing: bool
    var writePos: nat
    var parting: bool
    ghost var connIdEnd: nat
    ghost var log: seq<Mark>

    ghost function View(): Chan
      reads this
    {
      Chan(state, outgoing, writePos, parting, connIdEnd, log)
    }

    constructor (outgoing: bool)
      ensures View() == Fresh(outgoing)
    {
      this.outgoing := outgoing;
      state, writePos, parting, connIdEnd, log := New, 0, false, 0, [];
    }

    method Connect(connect: Connect, r: SslRet) returns (ret: Ret)
      modifies this
      ensures Told(ret, View()) == Start(old(View()), connect, r)
    {
      state := Connecting;
      connIdEnd, log := 0, [Started];
      if connect == Connected {
        ret := Stage2(r);
        return;
      }
      return if connect == Refused then Error else Ok;
    }

    method Stage2(r: SslRet) returns (ret: Ret)
      modifies this`state
      ensures Told(ret, View()) == StartAnonTls(old(View()), r)
    {
      if !Goes(r) {
        return Error;
      }
      state := WaitAnonTls;
      return Ok;
    }

    method Stage3()
      modifies this
      ensures View() == QueueConnId(old(View()))
    {
      writePos := writePos + CONNID_SIZE;
      connIdEnd, log := writePos, log + [ConnIdQueued];
      state := ConnId;
    }

    method Stage4(r: SslRet) returns (ret: Ret)
      modifies this`state
      ensures Told(ret, View()) == ShutAnonTls(old(View()), r)
    {
      if r.ret < 0 && !r.again {
        return Error;
      }
      if r.ret > 0 {
        return Error;
      }
      state := WaitAnonShut;
      return Ok;
    }

    method Stage5(r: SslRet) returns (ret: Ret)
      modifies this`state
      ensures Told(ret, View()) == StartTls(old(View()), r)
    {
      if r.ret == 0 {
        return Error;
      }
      if r.ret < 0 && !r.again {
        return Error;
      }
      state := WaitTls;
      return Ok;
    }

    method Stage6()
      modifies this
      ensures View() == SendRequest(old(View()))
    {
      writePos := writePos + REPLY_SIZE;
      log := log + [RequestQueued];
      state := WaitRep;
    }

    method WriteC2c(ok: bool, n: nat) returns (ret: Ret)
      requires n <= writePos
      modifies this
      ensures Told(ret, View()) == Write(old(View()), ok, n)
    {
      if state != Active && state != ConnId && state != WaitRep {
        return ExitProcess;
      }
      if writePos > 0 && !ok {
        return Error;
      }
      if parting && writePos == n {
        return Error;
      }
      writePos := writePos - n;
      if connIdEnd > 0 && connIdEnd <= n {
        log := log + [ConnIdSent];
      }
      connIdEnd := if n <= connIdEnd then connIdEnd - n else 0;
      return Ok;
    }

    method Dispatch(m: Incoming) returns (ret: Ret)
      modifies this
      ensures Told(ret, View()) == Handle(old(View()), m)
    {
      ret := Ok;
      match m
      case ConnReq(v) =>
        if state != WaitProtoVer {
          return Error;
        }
        writePos := writePos + REPLY_SIZE;
        if v == VERSION {
          state := Active;
          log := log + [VersionsAgree];
        } else {
          parting := true;
        }
      case InitOk =>
        if state != WaitRep || !outgoing {
          return Error;
        }
        state := Active;
        log := log + [VersionsAgree];
      case VerDiffer =>
        return Error;
      case Other(accepted, queued) =>
        if !accepted {
          return Error;
        }
        writePos := writePos + queued;
    }

    method ReadC2c(ok: bool, ms: seq<Incoming>) returns (ret: Ret)
      modifies this
      ensures Told(ret, View()) == Read(old(View()), ok, ms)
    {
      if state != WaitRep && state != WaitProtoVer && state != Active {
        return ExitProcess;
      }
      if !ok {
        return Error;
      }
      var i := 0;
      while i < |ms|
        invariant i <= |ms| && HandleAll(View(), ms[i..]) == HandleAll(old(View()), ms)
      {
        ret := Dispatch(ms[i]);
        if ret != Ok {
          return;
        }
        i := i + 1;
      }
      return Ok;
    }

    method WriteAndRead(i: Input) returns (ret: Ret)
      requires i.written <= writePos
      modifies this
      ensures Told(ret, View()) == WriteThenRead(old(View()), i)
    {
      ret := Ok;
      if i.wr {
        ret := WriteC2c(i.writeOk, i.written);
      }
      if ret == Ok && i.rd {
        ret := ReadC2c(i.readOk, i.msgs);
      }
    }

    method ProcessCase(i: Input) returns (ret: Ret)
      requires i.written <= writePos
      modifies this
      ensures Told(ret, View()) == Case(old(View()), i)
    {
      ret := Ok;
      match state
      case New =>
      case Connecting =>
        if i.wr {
          if i.connected {
            ret := Stage2(i.ssl);
          } else {
            ret := Error;
          }
        }
      case WaitAnonTls =>
        if i.rd || i.wr {
          if i.ssl.ret == 1 {
            log := log + [AnonTls];
            Stage3();
          } else if !Goes(i.ssl) {
            ret := Error;
          }
        }
      case ConnId =>
        if i.wr {
          ret := WriteC2c(i.writeOk, i.written);
        }
        if ret == Ok && writePos == 0 {
          ret := Stage4(i.ssl);
        }
      case WaitAnonShut =>
        if (i.rd || i.wr) && i.ssl.ret != 0 {
          if i.ssl.ret == 1 {
            log := log + [AnonShut];
            ret := Stage5(i.ssl2);
          } else if !Goes(i.ssl) {
            ret := Error;
          }
        }
      case WaitTls =>
        ret := ProcessTls(i);
      case _ =>
        ret := WriteAndRead(i);
    }

    method ProcessTls(i: Input) returns (ret: Ret)
      requires i.written <= writePos && state == WaitTls
      modifies this
      ensures Told(ret, View()) == Case(old(View()), i)
    {
      if !i.rd && !i.wr {
        return Ok;
      }
      if i.ssl.ret == 0 || (i.ssl.ret < 0 && !i.ssl.again) {
        return Error;
      }
      if i.ssl.ret == 1 {
        if !i.certOk {
          return Error;
        }
        log := log + [Tls];
        log := log + [CertPassed];
        if outgoing {
          Stage6();
        } else {
          state := WaitProtoVer;
        }
      }
      return Ok;
    }

    method ProcessC2c(i: Input) returns (ret: Ret)
      requires i.written <= writePos
      modifies this
      ensures Told(ret, View()) == Process(old(View()), i)
    {
      ret := ProcessCase(i);
      if ret == Ok && state != Active && i.late {
        ret := Error;
      }
    }

    /** A restart, a push by the application, or a pass of the event loop. */
    method Take(e: Event) returns (ret: Ret)
      requires Enabled(View(), e)
      modifies this
      ensures Told(ret, View()) == Next(old(View()), e)
    {
      match e
      case Found(connect, r) => ret := Connect(connect, r);
      case Push(n) =>
        writePos := writePos + n;
        ret := Ok;
      case Pass(i) => ret := ProcessC2c(i);
    }
  }

  /** A channel object driven by any events, until it is closed or the process exits; a pass in which TLS would take
      more than there is cannot happen and is left out.  Whenever it is Active, the whole procedure lies behind it. */
  method RunChannel(outgoing: bool, es: seq<Event>) returns (c: C2c, ret: Ret)
    ensures ret == Ok && c.state == Active ==> c.log == Procedure(outgoing)
    ensures Possible(Fresh(outgoing), es) ==> Told(ret, c.View()) == Run(Fresh(outgoing), es)
  {
    c := new C2c(outgoing);
    ret := Ok;
    ghost var possible := Possible(Fresh(outgoing), es);
    for i := 0 to |es|
      invariant fresh(c) && ret == Ok && c.outgoing == outgoing && Inv(c.View())
      invariant possible ==> Possible(c.View(), es[i..]) && Run(c.View(), es[i..]) == Run(Fresh(outgoing), es)
    {
      assert es[i..][0] == es[i] && es[i..][1..] == es[i + 1..];
      if !es[i].Pass? || es[i].input.written <= c.writePos {
        NextKeeps(c.View(), es[i]);
        ret := c.Take(es[i]);
        if ret != Ok {
          return;
        }
      }
    }
  }
}
