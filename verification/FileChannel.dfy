/** The file transfer fields of a c2c channel and the functions that update them, statement by statement as in
    PICA_client.c; each is proved to do what `FileTransfer` says. */
module FileChannel {
  import opened Memory
  import opened FileTransfer
  import C2cCodec

  class Channel {
    var sendState: SendState
    var sendOpen: bool
    var sendFile: seq<Byte>
    var sendPos: nat
    var recvState: RecvState
    var recvOpen: bool
    var recvSize: nat
    var recvPos: nat
    var pushed: seq<Msg>
    ghost var sent: seq<seq<Byte>>
    ghost var got: seq<Got>
    ghost var fault: bool

    ghost function View(): Peer
      reads this
    {
      Peer(SendSide(sendState, sendOpen, sendFile, sendPos, sent),
           RecvSide(recvState, recvOpen, recvSize, recvPos, got), fault)
    }

    /** The channel is as the effect `e` leaves it, with its messages behind the messages `p` pushed before. */
    ghost predicate Is(p: seq<Msg>, e: Effect)
      reads this
    {
      View() == e.peer && pushed == p + e.out
    }

    constructor ()
      ensures View() == IDLE && pushed == []
    {
      sendState, sendOpen, sendFile, sendPos := SendIdle, false, [], 0;
      recvState, recvOpen, recvSize, recvPos := RecvIdle, false, 0, 0;
      pushed, sent, got, fault := [], [], [], false;
    }

    method CloseSendStream()
      modifies this`sendOpen, this`fault
      ensures !sendOpen && fault == (old(fault) || !old(sendOpen))
    {
      fault := fault || !sendOpen;
      sendOpen := false;
    }

    method CloseRecvStream()
      modifies this`recvOpen, this`fault
      ensures !recvOpen && fault == (old(fault) || !old(recvOpen))
    {
      fault := fault || !recvOpen;
      recvOpen := false;
    }

    /** PICA_deny_file */
    method DenyFile() returns (ok: bool)
      modifies this
      ensures Is(old(pushed), Deny(old(View())))
      ensures ok <==> old(recvState) == WaitAccept
    {
      if recvState != WaitAccept {
        return false;
      }
      recvState := RecvIdle;
      pushed := pushed + [Denied];
      return true;
    }

    /** PICA_accept_file */
    method AcceptFile(canOpen: bool) returns (ok: bool)
      modifies this
      ensures Is(old(pushed), Accept(old(View()), canOpen))
      ensures ok <==> old(recvState) == WaitAccept && canOpen
    {
      if recvState != WaitAccept || !canOpen {
        return false;
      }
      recvOpen := true;
      pushed := pushed + [Accepted];
      recvState := Receiving;
      return true;
    }

    /** procmsg_SENDFILEREQUEST */
    method OnRequest(size: nat, a: Answer) returns (ok: bool)
      modifies this
      ensures var e := HandleRequest(old(View()), size, a);
              Is(old(pushed), e) && ok == e.ok
    {
      if recvState != RecvIdle || !a.nameOk {
        return false;
      }
      recvState := WaitAccept;
      recvSize := size;
      recvPos := 0;
      got := got + [Got([], false)];
      if !a.postpone {
        var accepted := false;
        if a.accept {
          accepted := AcceptFile(a.canOpen);
        }
        if !accepted {
          ok := DenyFile();
        }
      }
      return true;
    }

    /** procmsg_ACCEPTEDFILE */
    method OnAccepted() returns (ok: bool)
      modifies this
      ensures forall a :: var e := Handle(old(View()), Accepted, a); Is(old(pushed), e) && ok == e.ok
    {
      if sendState != SentReq {
        return false;
      }
      sendState := Sending;
      return true;
    }

    /** procmsg_DENIEDFILE */
    method OnDenied() returns (ok: bool)
      modifies this
      ensures forall a :: var e := Handle(old(View()), Denied, a); Is(old(pushed), e) && ok == e.ok
    {
      if sendState != SentReq {
        return false;
      }
      sendState := SendIdle;
      CloseSendStream();
      return true;
    }

    /** procmsg_FILEFRAGMENT, with a write to the file that succeeds */
    method OnFragment(data: seq<Byte>) returns (ok: bool)
      requires recvState == Receiving || recvState == RecvPaused ==> got != []
      modifies this
      ensures var e := HandleFragment(old(View()), data);
              Is(old(pushed), e) && ok == e.ok
    {
      if recvState != Receiving && recvState != RecvPaused {
        return false;
      }
      ghost var n := |got| - 1;
      got := got[n := got[n].(written := got[n].written + data)];
      recvPos := recvPos + |data|;
      if recvPos > recvSize {
        return false;
      }
      if recvPos == recvSize {
        recvState := RecvIdle;
        CloseRecvStream();
        got := got[n := got[n].(finished := true)];
      }
      return true;
    }

    /** procmsg_FILECONTROL */
    method OnControl(sender: Cmd, receiver: Cmd) returns (ok: bool)
      modifies this
      ensures var e := HandleControl(old(View()), sender, receiver);
              Is(old(pushed), e) && ok == e.ok
    {
      if (sendState == SendIdle || sendState == SentReq) && receiver != Void {
        return false;
      }
      if recvState == RecvIdle && sender != Void {
        return false;
      }
      ok := OnSenderCommand(sender);
      if ok {
        ok := OnReceiverCommand(receiver);
      }
    }

    method OnSenderCommand(cmd: Cmd) returns (ok: bool)
      modifies this
      ensures var e := SenderCommand(old(View()), cmd);
              Is(old(pushed), e) && ok == e.ok
    {
      match cmd {
        case Pause =>
          if recvState != Receiving {
            return false;
          }
          recvState := RecvPaused;
        case Resume =>
          if recvState != RecvPaused {
            return false;
          }
          recvState := Receiving;
        case Cancel =>
          recvState := RecvIdle;
          CloseRecvStream();
        case IoError =>
          recvState := RecvIdle;
          CloseRecvStream();
        case Void =>
        case Unknown =>
          return false;
      }
      return true;
    }

    method OnReceiverCommand(cmd: Cmd) returns (ok: bool)
      modifies this
      ensures var e := ReceiverCommand(old(View()), cmd);
              Is(old(pushed), e) && ok == e.ok
    {
      match cmd {
        case Pause =>
          if sendState != Sending {
            return false;
          }
          sendState := SendPaused;
        case Resume =>
          if sendState != SendPaused {
            return false;
          }
          sendState := Sending;
        case Cancel =>
          sendState := SendIdle;
          CloseSendStream();
        case IoError =>
          sendState := SendIdle;
          CloseSendStream();
        case Void =>
        case Unknown =>
          return false;
      }
      return true;
    }

    /** PICA_send_file, for a file that can be opened */
    method StartFile(file: seq<Byte>)
      modifies this
      ensures Is(old(pushed), Perform(old(View()), SendFile(file)))
    {
      if sendState != SendIdle {
        return;
      }
      sendOpen := true;
      sendFile := file;
      pushed := pushed + [Request(|file|)];
      sendState := SentReq;
      sendPos := 0;
      sent := sent + [file];
    }

    /** PICA_pause_file */
    method PauseTransfer(sending: bool)
      modifies this
      ensures Is(old(pushed), Perform(old(View()), PauseFile(sending)))
    {
      if sending {
        if sendState != Sending {
          return;
        }
        sendState := SendPaused;
        pushed := pushed + [Control(Pause, Void)];
      } else {
        if recvState != Receiving {
          return;
        }
        recvState := RecvPaused;
        pushed := pushed + [Control(Void, Pause)];
      }
    }

    /** PICA_resume_file */
    method ResumeTransfer(sending: bool)
      modifies this
      ensures Is(old(pushed), Perform(old(View()), ResumeFile(sending)))
    {
      if sending {
        if sendState != SendPaused {
          return;
        }
        sendState := Sending;
        pushed := pushed + [Control(Resume, Void)];
      } else {
        if recvState != RecvPaused {
          return;
        }
        recvState := Receiving;
        pushed := pushed + [Control(Void, Resume)];
      }
    }

    /** PICA_cancel_file */
    method CancelTransfer(sending: bool)
      modifies this
      ensures Is(old(pushed), Perform(old(View()), CancelFile(sending)))
    {
      if sending {
        if sendState != Sending && sendState != SendPaused {
          return;
        }
        CloseSendStream();
        sendState := SendIdle;
        pushed := pushed + [Control(Cancel, Void)];
      } else {
        if recvState != Receiving && recvState != RecvPaused {
          return;
        }
        CloseRecvStream();
        recvState := RecvIdle;
        pushed := pushed + [Control(Void, Cancel)];
      }
    }

    /** PICA_send_file_fragment; fread gave n bytes */
    method SendNextFragment(n: nat) returns (ok: bool)
      requires Callable(View(), SendFragment(n))
      modifies this
      ensures var e := Perform(old(View()), SendFragment(n));
              Is(old(pushed), e) && ok == e.ok
    {
      if n == 0 {
        CloseSendStream();
        sendState := SendIdle;
        pushed := pushed + [Control(IoError, Void)];
        return false;
      }
      pushed := pushed + [Fragment(sendFile[sendPos..sendPos + n])];
      sendPos := sendPos + n;
      if sendPos >= |sendFile| {
        sendState := SendIdle;
        CloseSendStream();
      }
      return true;
    }

    /** A call of the program's interface, or of the event loop. */
    method Make(c: Call) returns (ok: bool)
      requires Callable(View(), c)
      modifies this
      ensures var e := Perform(old(View()), c);
              Is(old(pushed), e) && ok == e.ok
    {
      ok := true;
      match c
      case SendFile(file) => StartFile(file);
      case AcceptFile(canOpen) => var _ := AcceptFile(canOpen);
      case DenyFile => var _ := DenyFile();
      case PauseFile(sending) => PauseTransfer(sending);
      case ResumeFile(sending) => ResumeTransfer(sending);
      case CancelFile(sending) => CancelTransfer(sending);
      case SendFragment(n) => ok := SendNextFragment(n);
    }

    /** The handler of a message, by the c2c table. */
    method Dispatch(m: Msg, a: Answer) returns (ok: bool)
      requires RecvLocal(View().recv)
      modifies this
      ensures var e := Handle(old(View()), m, a);
              Is(old(pushed), e) && ok == e.ok
    {
      match m
      case Request(size) => ok := OnRequest(size, a);
      case Accepted => ok := OnAccepted();
      case Denied => ok := OnDenied();
      case Fragment(data) => ok := OnFragment(data);
      case Control(sender, receiver) => ok := OnControl(sender, receiver);
    }

    method CanMake(c: Call) returns (can: bool)
      ensures can == Callable(View(), c)
    {
      if !c.SendFragment? {
        return true;
      }
      return sendState == Sending && sendPos <= |sendFile| && c.n <= C2cCodec.MAX_FRAGMENT
        && c.n <= |sendFile| - sendPos && (c.n == 0 ==> sendPos == |sendFile|);
    }

    /** One step of this peer, if it can be made: what it pushes goes behind `out`, what it reads comes from `inc`. */
    method Move(step: Step, out: seq<Msg>, inc: seq<Msg>, ghost you: Peer)
      returns (moved: bool, out': seq<Msg>, inc': seq<Msg>, alive: bool)
      requires RecvLocal(View().recv) && pushed == []
      modifies this
      ensures pushed == [] && moved == Enabled(World(old(View()), you, out, inc, true), step)
      ensures World(View(), you, out', inc', alive) ==
              var w := World(old(View()), you, out, inc, true);
              if moved then Next(w, step) else w
    {
      moved, out', inc', alive := false, out, inc, true;
      match step {
        case Calls(c) =>
          moved := CanMake(c);
          if moved {
            alive := Make(c);
          }
        case Receives(a) =>
          moved := inc != [];
          if moved {
            alive := Dispatch(inc[0], a);
            inc' := inc[1..];
          }
      }
      out', pushed := out + pushed, [];
    }
  }

  lemma {:induction false} ReachesMore(start: World, steps: seq<(bool, Step)>, w: World, first: bool, step: Step)
    requires Reaches(start, steps, w) && Enabled(if first then w else Flip(w), step)
    ensures Reaches(start, steps + [(first, step)], Moved(w, first, step))
    decreases |steps|
  {
    var more := steps + [(first, step)];
    if steps == [] {
      assert more[1..] == [];
    } else {
      assert more[0] == steps[0] && more[1..] == steps[1..] + [(first, step)];
      var here := if steps[0].0 then start else Flip(start);
      var there := Next(here, steps[0].1);
      ReachesMore(if steps[0].0 then there else Flip(there), steps[1..], w, first, step);
    }
  }

  lemma {:induction false} Onward(w: World, steps: seq<(bool, Step)>, i: nat, w': World, z: World)
    requires i < |steps| && Reaches(w, steps[i..], z)
    requires Enabled(if steps[i].0 then w else Flip(w), steps[i].1) ==> w' == Moved(w, steps[i].0, steps[i].1)
    ensures Reaches(w', steps[i + 1..], z)
  {
    assert steps[i..][0] == steps[i] && steps[i..][1..] == steps[i + 1..];
  }

  /** Two channel objects and the queues between them, driven by any steps until the connection drops; a step that
      cannot be made is left out.  In both directions every file written is a prefix of the file announced, and all of
      it when finished; no stream is closed that is not open; and streams are open exactly in the states that use them.
      If every step can be made, the objects end as the run of the protocol does. */
  method RunTransfers(steps: seq<(bool, Step)>) returns (a: Channel, b: Channel, alive: bool)
    ensures Faithful(a.sent, b.got) && Faithful(b.sent, a.got) && !a.fault && !b.fault
    ensures alive ==>
              && (a.sendOpen <==> a.sendState != SendIdle) && (b.sendOpen <==> b.sendState != SendIdle)
              && (a.recvOpen <==> a.recvState == Receiving || a.recvState == RecvPaused)
              && (b.recvOpen <==> b.recvState == Receiving || b.recvState == RecvPaused)
    ensures forall w :: Reaches(START, steps, w) ==> w.me == a.View() && w.you == b.View() && w.alive == alive
  {
    a := new Channel();
    b := new Channel();
    var ab, ba := [], [];
    alive := true;
    ghost var made: seq<(bool, Step)>, w := [], START;
    for i := 0 to |steps|
      invariant fresh(a) && fresh(b) && a != b && a.pushed == [] && b.pushed == []
      invariant w == World(a.View(), b.View(), ab, ba, alive) && Reaches(START, made, w)
      invariant forall z :: Reaches(START, steps, z) ==> Reaches(w, steps[i..], z)
    {
      ghost var before := w;
      if alive {
        ReachedInv(made, w);
        var moved;
        if steps[i].0 {
          moved, ab, ba, alive := a.Move(steps[i].1, ab, ba, b.View());
        } else {
          moved, ba, ab, alive := b.Move(steps[i].1, ba, ab, a.View());
        }
        if moved {
          ReachesMore(START, made, w, steps[i].0, steps[i].1);
          made := made + [steps[i]];
          w := World(a.View(), b.View(), ab, ba, alive);
        }
      }
      forall z | Reaches(START, steps, z)
        ensures Reaches(w, steps[i + 1..], z)
      {
        Onward(before, steps, i, w, z);
      }
    }
    TransfersAreFaithful(made, w);
  }

  lemma {:induction false} ReachedInv(steps: seq<(bool, Step)>, w: World)
    requires Reaches(START, steps, w)
    ensures w.alive ==> RecvLocal(w.me.recv) && RecvLocal(w.you.recv)
  {
    assert Inv(START);
    RunKeepsInv(START, steps, w);
  }
}
