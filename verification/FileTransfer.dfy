/** The file transfer protocol between two clients (PICA_client.c): each peer may send one file and receive
    one file at a time, over one pair of message queues.

    `Handle` and `Call` say what the handlers and the API calls do to a peer; `FileChannel` is the same in the
    program's own form.  A run interleaves calls on both peers with deliveries in any order; a refused message
    drops the connection.  The histories `sent` and `got` record, one entry for each request, the source file
    and what has been written to the receiver's file. */
module FileTransfer {
  import opened Memory
  import C2cCodec

  datatype SendState = SendIdle | SentReq | Sending | SendPaused
  datatype RecvState = RecvIdle | WaitAccept | Receiving | RecvPaused

  /** A file control command; Unknown stands for every other octet. */
  datatype Cmd = Void | Pause | Resume | Cancel | IoError | Unknown

  datatype Msg =
    | Request(size: nat)
    | Accepted
    | Denied
    | Fragment(data: seq<Byte>)
    | Control(sender: Cmd, receiver: Cmd)

  datatype SendSide = SendSide(state: SendState, open: bool, file: seq<Byte>, pos: nat, sent: seq<seq<Byte>>)

  datatype Got = Got(written: seq<Byte>, finished: bool)

  datatype RecvSide = RecvSide(state: RecvState, open: bool, size: nat, pos: nat, got: seq<Got>)

  /** `fault`: fclose was called on a stream that was not open. */
  datatype Peer = Peer(send: SendSide, recv: RecvSide, fault: bool)

  const IDLE: Peer := Peer(SendSide(SendIdle, false, [], 0, []), RecvSide(RecvIdle, false, 0, 0, []), false)

  /** A peer after a call or a handler, the messages it pushed, and whether the connection is to be kept. */
  datatype Effect = Effect(peer: Peer, out: seq<Msg>, ok: bool)

  /** What the user interface answers to a request, and whether the file can be created. */
  datatype Answer = Answer(nameOk: bool, accept: bool, postpone: bool, canOpen: bool)

  // ---------------------------------------------------------------------------------------------------
  // What the handlers do
  // ---------------------------------------------------------------------------------------------------

  function CloseSend(p: Peer): Peer {
    p.(send := p.send.(state := SendIdle, open := false), fault := p.fault || !p.send.open)
  }

  function CloseRecv(p: Peer): Peer {
    p.(recv := p.recv.(state := RecvIdle, open := false), fault := p.fault || !p.recv.open)
  }

  function Accept(p: Peer, canOpen: bool): Effect {
    if p.recv.state == WaitAccept && canOpen
    then Effect(p.(recv := p.recv.(state := Receiving, open := true)), [Accepted], true)
    else Effect(p, [], true)
  }

  function Deny(p: Peer): Effect {
    if p.recv.state == WaitAccept
    then Effect(p.(recv := p.recv.(state := RecvIdle)), [Denied], true)
    else Effect(p, [], true)
  }

  function HandleRequest(p: Peer, size: nat, a: Answer): Effect {
    if p.recv.state != RecvIdle || !a.nameOk then Effect(p, [], false)
    else
      var q := p.(recv := p.recv.(state := WaitAccept, size := size, pos := 0, got := p.recv.got + [Got([], false)]));
      if a.postpone then Effect(q, [], true)
      else if a.accept && a.canOpen then Accept(q, true)
      else Deny(q)
  }

  function HandleFragment(p: Peer, data: seq<Byte>): Effect {
    if (p.recv.state != Receiving && p.recv.state != RecvPaused) || p.recv.got == [] then Effect(p, [], false)
    else
      var pos := p.recv.pos + |data|;
      var n := |p.recv.got| - 1;
      var g := p.recv.got[n];
      var q := p.(recv := p.recv.(pos := pos, got := p.recv.got[n := g.(written := g.written + data)]));
      if pos > p.recv.size then Effect(q, [], false)
      else if pos == p.recv.size
      then Effect(CloseRecv(q.(recv := q.recv.(got := q.recv.got[n := Got(g.written + data, true)]))), [], true)
      else Effect(q, [], true)
  }

  /** The first switch of procmsg_FILECONTROL: the command of the peer that sends the file. */
  function SenderCommand(p: Peer, cmd: Cmd): Effect {
    match cmd
    case Pause =>
      if p.recv.state == Receiving then Effect(p.(recv := p.recv.(state := RecvPaused)), [], true)
      else Effect(p, [], false)
    case Resume =>
      if p.recv.state == RecvPaused then Effect(p.(recv := p.recv.(state := Receiving)), [], true)
      else Effect(p, [], false)
    case Cancel => Effect(CloseRecv(p), [], true)
    case IoError => Effect(CloseRecv(p), [], true)
    case Void => Effect(p, [], true)
    case Unknown => Effect(p, [], false)
  }

  /** The second switch: the command of the peer that receives the file. */
  function ReceiverCommand(p: Peer, cmd: Cmd): Effect {
    match cmd
    case Pause =>
      if p.send.state == Sending then Effect(p.(send := p.send.(state := SendPaused)), [], true)
      else Effect(p, [], false)
    case Resume =>
      if p.send.state == SendPaused then Effect(p.(send := p.send.(state := Sending)), [], true)
      else Effect(p, [], false)
    case Cancel => Effect(CloseSend(p), [], true)
    case IoError => Effect(CloseSend(p), [], true)
    case Void => Effect(p, [], true)
    case Unknown => Effect(p, [], false)
  }

  function HandleControl(p: Peer, sender: Cmd, receiver: Cmd): Effect {
    if (p.send.state == SendIdle || p.send.state == SentReq) && receiver != Void then Effect(p, [], false)
    else if p.recv.state == RecvIdle && sender != Void then Effect(p, [], false)
    else
      var e := SenderCommand(p, sender);
      if e.ok then ReceiverCommand(e.peer, receiver) else e
  }

  function Handle(p: Peer, m: Msg, a: Answer): Effect {
    match m
    case Request(size) => HandleRequest(p, size, a)
    case Accepted =>
      if p.send.state == SentReq then Effect(p.(send := p.send.(state := Sending)), [], true) else Effect(p, [], false)
    case Denied => if p.send.state == SentReq then Effect(CloseSend(p), [], true) else Effect(p, [], false)
    case Fragment(data) => HandleFragment(p, data)
    case Control(sender, receiver) => HandleControl(p, sender, receiver)
  }

  // ---------------------------------------------------------------------------------------------------
  // What the API calls and the event loop do
  // ---------------------------------------------------------------------------------------------------

  datatype Call =
    | SendFile(file: seq<Byte>)
    | AcceptFile(canOpen: bool)
    | DenyFile
    | PauseFile(sending: bool)
    | ResumeFile(sending: bool)
    | CancelFile(sending: bool)
    | SendFragment(n: nat)

  /** fread gives up to MAX_FRAGMENT bytes, and nothing only at the end of the file. */
  predicate Callable(p: Peer, c: Call) {
    c.SendFragment? ==>
      && p.send.state == Sending && p.send.pos <= |p.send.file|
      && c.n <= C2cCodec.MAX_FRAGMENT && c.n <= |p.send.file| - p.send.pos
      && (c.n == 0 ==> p.send.pos == |p.send.file|)
  }

  function Perform(p: Peer, c: Call): Effect
    requires Callable(p, c)
  {
    var s, r := p.send, p.recv;
    match c
    case SendFile(file) =>
      if s.state != SendIdle then Effect(p, [], true)
      else Effect(p.(send := SendSide(SentReq, true, file, 0, s.sent + [file])), [Request(|file|)], true)
    case AcceptFile(canOpen) => Accept(p, canOpen)
    case DenyFile => Deny(p)
    case PauseFile(sending) =>
      if sending && s.state == Sending then Effect(p.(send := s.(state := SendPaused)), [Control(Pause, Void)], true)
      else if !sending && r.state == Receiving
      then Effect(p.(recv := r.(state := RecvPaused)), [Control(Void, Pause)], true)
      else Effect(p, [], true)
    case ResumeFile(sending) =>
      if sending && s.state == SendPaused then Effect(p.(send := s.(state := Sending)), [Control(Resume, Void)], true)
      else if !sending && r.state == RecvPaused
      then Effect(p.(recv := r.(state := Receiving)), [Control(Void, Resume)], true)
      else Effect(p, [], true)
    case CancelFile(sending) =>
      if sending && (s.state == Sending || s.state == SendPaused)
      then Effect(CloseSend(p), [Control(Cancel, Void)], true)
      else if !sending && (r.state == Receiving || r.state == RecvPaused)
      then Effect(CloseRecv(p), [Control(Void, Cancel)], true)
      else Effect(p, [], true)
    case SendFragment(n) =>
      if n == 0 then Effect(CloseSend(p), [Control(IoError, Void)], false)
      else
        var q := p.(send := s.(pos := s.pos + n));
        Effect(if s.pos + n >= |s.file| then CloseSend(q) else q, [Fragment(s.file[s.pos..s.pos + n])], true)
  }

  // ---------------------------------------------------------------------------------------------------
  // Two peers
  // ---------------------------------------------------------------------------------------------------

  /** One peer `me`, the other `you`, the messages on their way from me to you and from you to me. */
  datatype World = World(me: Peer, you: Peer, out: seq<Msg>, inc: seq<Msg>, alive: bool)

  const START: World := World(IDLE, IDLE, [], [], true)

  function Flip(w: World): World {
    World(w.you, w.me, w.inc, w.out, w.alive)
  }

  datatype Step = Calls(c: Call) | Receives(a: Answer)

  predicate Enabled(w: World, step: Step) {
    w.alive && match step
               case Calls(c) => Callable(w.me, c)
               case Receives(_) => w.inc != []
  }

  /** A step of the peer `me`. */
  function Next(w: World, step: Step): World
    requires Enabled(w, step)
  {
    match step
    case Calls(c) =>
      var e := Perform(w.me, c);
      w.(me := e.peer, out := w.out + e.out, alive := e.ok)
    case Receives(a) =>
      var e := Handle(w.me, w.inc[0], a);
      w.(me := e.peer, out := w.out + e.out, inc := w.inc[1..], alive := e.ok)
  }

  /** The world after a step of the first peer, or of the second. */
  function Moved(w: World, first: bool, step: Step): World
    requires Enabled(if first then w else Flip(w), step)
  {
    if first then Next(w, step) else Flip(Next(Flip(w), step))
  }

  /** A run: each entry says which peer moves (true: the first) and how. */
  ghost predicate Reaches(start: World, steps: seq<(bool, Step)>, w: World)
    decreases |steps|
  {
    if steps == [] then w == start
    else
      var here := if steps[0].0 then start else Flip(start);
      && Enabled(here, steps[0].1)
      && var there := Next(here, steps[0].1);
         Reaches(if steps[0].0 then there else Flip(there), steps[1..], w)
  }

  // ---------------------------------------------------------------------------------------------------
  // The invariant of one direction: peer s sends files to peer r
  // ---------------------------------------------------------------------------------------------------

  function AddTo(files: seq<seq<Byte>>, m: Msg): seq<seq<Byte>> {
    match m
    case Request(_) => files + [[]]
    case Fragment(data) => if files == [] then files else files[|files| - 1 := files[|files| - 1] + data]
    case _ => files
  }

  /** What the receiver's files will be when it has taken all the messages on their way. */
  function AddAll(files: seq<seq<Byte>>, ms: seq<Msg>): seq<seq<Byte>>
    decreases |ms|
  {
    if ms == [] then files else AddAll(AddTo(files, ms[0]), ms[1..])
  }

  function Files(got: seq<Got>): (fs: seq<seq<Byte>>)
    ensures |fs| == |got| && forall i :: 0 <= i < |got| ==> fs[i] == got[i].written
  {
    seq(|got|, i requires 0 <= i < |got| => got[i].written)
  }

  /** The requests on their way announce the sizes of the files they stand for. */
  predicate Sizes(ms: seq<Msg>, sent: seq<seq<Byte>>, n: nat) {
    ms == [] ||
    if ms[0].Request? then n < |sent| && ms[0].size == |sent[n]| && Sizes(ms[1..], sent, n + 1)
    else Sizes(ms[1..], sent, n)
  }

  /** Messages of a peer in its role of sending a file. */
  predicate OfSender(m: Msg) {
    m.Request? || m.Fragment? || (m.Control? && m.sender != Void)
  }

  function Requests(ms: seq<Msg>): nat {
    if ms == [] then 0 else (if ms[0].Request? then 1 else 0) + Requests(ms[1..])
  }

  function Replies(ms: seq<Msg>): nat {
    if ms == [] then 0 else (if ms[0].Accepted? || ms[0].Denied? then 1 else 0) + Replies(ms[1..])
  }

  /** Behind the last request, or if there is none at all, nothing from the peer as sender is on its way. */
  predicate QuietTail(ms: seq<Msg>) {
    ms == [] || (QuietTail(ms[1..]) && (OfSender(ms[0]) ==> Requests(ms) > 0))
  }

  /** Every file of the receiver is a prefix of the one announced by the same request, and a finished one is
      that file. */
  ghost predicate Faithful(sent: seq<seq<Byte>>, got: seq<Got>) {
    && |got| <= |sent|
    && forall i :: 0 <= i < |got| ==> got[i].written <= sent[i] && (got[i].finished ==> got[i].written == sent[i])
  }

  ghost predicate Prefixes(fs: seq<seq<Byte>>, sent: seq<seq<Byte>>) {
    |fs| == |sent| && forall i :: 0 <= i < |fs| ==> fs[i] <= sent[i]
  }

  predicate SendLocal(s: SendSide) {
    && (s.open <==> s.state != SendIdle)
    && (s.state == SentReq ==> s.pos == 0)
    && (s.state != SendIdle ==> s.sent != [] && s.file == s.sent[|s.sent| - 1] && s.pos <= |s.file|)
  }

  predicate RecvLocal(r: RecvSide) {
    && (r.open <==> r.state == Receiving || r.state == RecvPaused)
    && (r.state != RecvIdle ==> r.got != [] && r.pos == |r.got[|r.got| - 1].written|)
  }

  /** The bytes: what has been written and what is on its way make up what has been read from each source. */
  ghost predicate Bytes(s: SendSide, r: RecvSide, ms: seq<Msg>) {
    var fs := AddAll(Files(r.got), ms);
    && Prefixes(fs, s.sent)
    && (s.state != SendIdle ==> fs != [] && s.pos <= |s.file| && fs[|fs| - 1] == s.file[..s.pos])
    && Sizes(ms, s.sent, |r.got|)
    && (r.state != RecvIdle ==> 0 < |r.got| <= |s.sent| && r.size == |s.sent[|r.got| - 1]|)
  }

  /** The turn: an unanswered request is in exactly one place, and until it is answered its sender is silent. */
  predicate Turn(s: SendSide, r: RecvSide, ms: seq<Msg>, replies: seq<Msg>) {
    && Requests(ms) + (if r.state == WaitAccept then 1 else 0) + Replies(replies)
         == (if s.state == SentReq then 1 else 0)
    && (s.state == SentReq ==> QuietTail(ms))
  }

  ghost predicate Direction(s: SendSide, r: RecvSide, ms: seq<Msg>, replies: seq<Msg>) {
    SendLocal(s) && RecvLocal(r) && Bytes(s, r, ms) && Turn(s, r, ms, replies)
  }

  ghost predicate Inv(w: World) {
    && !w.me.fault && !w.you.fault
    && Faithful(w.me.send.sent, w.you.recv.got)
    && Faithful(w.you.send.sent, w.me.recv.got)
    && (w.alive ==>
          && Direction(w.me.send, w.you.recv, w.out, w.inc)
          && Direction(w.you.send, w.me.recv, w.inc, w.out))
  }

  // ---------------------------------------------------------------------------------------------------
  // Queues
  // ---------------------------------------------------------------------------------------------------

  lemma {:induction false} AddAllAppend(files: seq<seq<Byte>>, ms: seq<Msg>, m: Msg)
    ensures AddAll(files, ms + [m]) == AddTo(AddAll(files, ms), m)
    decreases |ms|
  {
    if ms != [] {
      assert (ms + [m])[1..] == ms[1..] + [m];
      AddAllAppend(AddTo(files, ms[0]), ms[1..], m);
    }
  }

  lemma {:induction false} CountsAppend(ms: seq<Msg>, m: Msg)
    ensures Requests(ms + [m]) == Requests(ms) + (if m.Request? then 1 else 0)
    ensures Replies(ms + [m]) == Replies(ms) + (if m.Accepted? || m.Denied? then 1 else 0)
    ensures m.Request? || (QuietTail(ms) && !OfSender(m)) ==> QuietTail(ms + [m])
    decreases |ms|
  {
    if ms != [] {
      assert (ms + [m])[1..] == ms[1..] + [m];
      CountsAppend(ms[1..], m);
    }
  }

  lemma {:induction false} SizesAppend(ms: seq<Msg>, sent: seq<seq<Byte>>, n: nat, m: Msg, more: seq<seq<Byte>>)
    requires Sizes(ms, sent, n)
    requires m.Request? ==> n + Requests(ms) == |sent| && more != [] && m.size == |more[0]|
    ensures Sizes(ms + [m], sent + more, n)
    decreases |ms|
  {
    if ms != [] {
      assert (ms + [m])[1..] == ms[1..] + [m];
      SizesAppend(ms[1..], sent, if ms[0].Request? then n + 1 else n, m, more);
    }
  }

  /** Taking messages only adds files and bytes at the ends. */
  lemma {:induction false} AddAllExtends(files: seq<seq<Byte>>, ms: seq<Msg>)
    ensures |AddAll(files, ms)| == |files| + Requests(ms)
    ensures forall i :: 0 <= i < |files| ==> files[i] <= AddAll(files, ms)[i]
    decreases |ms|
  {
    if ms != [] {
      AddAllExtends(AddTo(files, ms[0]), ms[1..]);
    }
  }

  // ---------------------------------------------------------------------------------------------------
  // One peer by itself: streams are open exactly when the states say so
  // ---------------------------------------------------------------------------------------------------

  lemma {:induction false} CallKeepsLocal(p: Peer, c: Call)
    requires SendLocal(p.send) && RecvLocal(p.recv) && Callable(p, c)
    ensures var q := Perform(p, c).peer;
            SendLocal(q.send) && RecvLocal(q.recv) && q.fault == p.fault
  {
  }

  lemma {:induction false} ControlKeepsLocal(p: Peer, sender: Cmd, receiver: Cmd)
    requires SendLocal(p.send) && RecvLocal(p.recv)
    requires p.recv.state == WaitAccept ==> sender == Void
    ensures var q := HandleControl(p, sender, receiver).peer;
            SendLocal(q.send) && RecvLocal(q.recv) && q.fault == p.fault
  {
    var e := SenderCommand(p, sender);
    if p.recv.state != RecvIdle || sender == Void {
      assert RecvLocal(e.peer.recv) && e.peer.send == p.send && e.peer.fault == p.fault;
    }
  }

  lemma {:induction false} FragmentKeepsLocal(p: Peer, data: seq<Byte>)
    requires RecvLocal(p.recv)
    ensures var q := HandleFragment(p, data).peer;
            RecvLocal(q.recv) && q.send == p.send && q.fault == p.fault
  {
  }

  lemma {:induction false} HandleKeepsLocal(p: Peer, m: Msg, a: Answer)
    requires SendLocal(p.send) && RecvLocal(p.recv)
    requires p.recv.state == WaitAccept ==> !OfSender(m)
    ensures var q := Handle(p, m, a).peer;
            SendLocal(q.send) && RecvLocal(q.recv) && q.fault == p.fault
  {
    match m {
      case Control(sender, receiver) => ControlKeepsLocal(p, sender, receiver);
      case Fragment(data) => FragmentKeepsLocal(p, data);
      case _ =>
    }
  }

  // ---------------------------------------------------------------------------------------------------
  // The turn
  // ---------------------------------------------------------------------------------------------------

  /** While the receiver decides, nothing from the sender is on its way. */
  lemma {:induction false} NothingMeetsWaitAccept(s: SendSide, r: RecvSide, ms: seq<Msg>, replies: seq<Msg>)
    requires Turn(s, r, ms, replies) && r.state == WaitAccept && ms != []
    ensures !OfSender(ms[0])
  {
  }

  lemma {:induction false} TurnSenderCalls(p: Peer, c: Call, r: RecvSide, ms: seq<Msg>, replies: seq<Msg>)
    requires Turn(p.send, r, ms, replies) && Callable(p, c)
    ensures var e := Perform(p, c);
            Turn(e.peer.send, r, ms + e.out, replies)
  {
    var e := Perform(p, c);
    if e.out == [] {
      assert ms + e.out == ms;
    } else {
      CountsAppend(ms, e.out[0]);
    }
  }

  lemma {:induction false} TurnReceiverCalls(p: Peer, c: Call, s: SendSide, ms: seq<Msg>, replies: seq<Msg>)
    requires Turn(s, p.recv, ms, replies) && Callable(p, c)
    ensures var e := Perform(p, c);
            Turn(s, e.peer.recv, ms, replies + e.out)
  {
    var e := Perform(p, c);
    ReplyOnlyFromWaitAccept(p, c);
    if e.out == [] {
      assert replies + e.out == replies;
    } else {
      assert replies + e.out == replies + [e.out[0]];
      CountsAppend(replies, e.out[0]);
    }
  }

  lemma {:induction false} ReplyOnlyFromWaitAccept(p: Peer, c: Call)
    requires Callable(p, c)
    ensures var e := Perform(p, c);
            && |e.out| <= 1
            && (e.out != [] && (e.out[0].Accepted? || e.out[0].Denied?) <==>
                  p.recv.state == WaitAccept && e.peer.recv.state != WaitAccept)
            && (e.peer.recv.state == WaitAccept ==> p.recv.state == WaitAccept)
  {
  }

  lemma {:induction false} TurnSenderHears(p: Peer, a: Answer, r: RecvSide, ms: seq<Msg>, replies: seq<Msg>)
    requires Turn(p.send, r, ms, replies) && replies != [] && Handle(p, replies[0], a).ok
    ensures var e := Handle(p, replies[0], a);
            Turn(e.peer.send, r, ms + e.out, replies[1..])
  {
    var e := Handle(p, replies[0], a);
    if e.out == [] {
      assert ms + e.out == ms;
    } else {
      CountsAppend(ms, e.out[0]);
    }
  }

  lemma {:induction false} TurnRequested(p: Peer, a: Answer, s: SendSide, ms: seq<Msg>, replies: seq<Msg>)
    requires Turn(s, p.recv, ms, replies) && ms != [] && ms[0].Request? && Handle(p, ms[0], a).ok
    ensures var e := Handle(p, ms[0], a);
            Turn(s, e.peer.recv, ms[1..], replies + e.out)
  {
    var e := Handle(p, ms[0], a);
    if e.out == [] {
      assert replies + e.out == replies;
    } else {
      CountsAppend(replies, e.out[0]);
    }
  }

  lemma {:induction false} TurnReceiverHears(p: Peer, a: Answer, s: SendSide, ms: seq<Msg>, replies: seq<Msg>)
    requires Turn(s, p.recv, ms, replies) && ms != [] && Handle(p, ms[0], a).ok
    ensures var e := Handle(p, ms[0], a);
            Turn(s, e.peer.recv, ms[1..], replies + e.out)
  {
    if ms[0].Request? {
      TurnRequested(p, a, s, ms, replies);
    } else {
      assert replies + Handle(p, ms[0], a).out == replies;
    }
  }

  // ---------------------------------------------------------------------------------------------------
  // The bytes
  // ---------------------------------------------------------------------------------------------------

  /** A message that carries no file data, and a sender that reads no further. */
  lemma {:induction false} BytesAppend(s: SendSide, s': SendSide, r: RecvSide, ms: seq<Msg>, out: seq<Msg>)
    requires Bytes(s, r, ms)
    requires |out| <= 1 && (out != [] ==> !out[0].Request? && !out[0].Fragment?)
    requires s'.sent == s.sent
    requires s'.state != SendIdle ==> s.state != SendIdle && s'.file == s.file && s'.pos == s.pos
    ensures Bytes(s', r, ms + out)
  {
    if out == [] {
      assert ms + out == ms;
    } else {
      assert ms + out == ms + [out[0]];
      AddAllAppend(Files(r.got), ms, out[0]);
      SizesAppend(ms, s.sent, |r.got|, out[0], []);
      assert s.sent + [] == s.sent;
    }
  }

  lemma {:induction false} BytesFragment(s: SendSide, s': SendSide, r: RecvSide, ms: seq<Msg>, n: nat)
    requires SendLocal(s) && s.state == Sending && Bytes(s, r, ms)
    requires 0 < n <= |s.file| - s.pos
    requires s'.sent == s.sent
    requires s'.state != SendIdle ==> s'.file == s.file && s'.pos == s.pos + n
    ensures Bytes(s', r, ms + [Fragment(s.file[s.pos..s.pos + n])])
  {
    var m := Fragment(s.file[s.pos..s.pos + n]);
    AddAllAppend(Files(r.got), ms, m);
    SizesAppend(ms, s.sent, |r.got|, m, []);
    assert s.sent + [] == s.sent;
    assert s.file[..s.pos] + s.file[s.pos..s.pos + n] == s.file[..s.pos + n];
  }

  lemma {:induction false} BytesRequest(s: SendSide, r: RecvSide, ms: seq<Msg>, file: seq<Byte>)
    requires Bytes(s, r, ms)
    ensures Bytes(SendSide(SentReq, true, file, 0, s.sent + [file]), r, ms + [Request(|file|)])
  {
    AddAllExtends(Files(r.got), ms);
    AddAllAppend(Files(r.got), ms, Request(|file|));
    SizesAppend(ms, s.sent, |r.got|, Request(|file|), [file]);
  }

  lemma {:induction false} BytesSenderCalls(p: Peer, c: Call, r: RecvSide, ms: seq<Msg>)
    requires SendLocal(p.send) && Bytes(p.send, r, ms) && Callable(p, c) && Perform(p, c).ok
    ensures var e := Perform(p, c);
            Bytes(e.peer.send, r, ms + e.out)
  {
    var e := Perform(p, c);
    if c.SendFile? && p.send.state == SendIdle {
      BytesRequest(p.send, r, ms, c.file);
    } else if c.SendFragment? {
      BytesFragment(p.send, e.peer.send, r, ms, c.n);
    } else {
      BytesAppend(p.send, e.peer.send, r, ms, e.out);
    }
  }

  /** A handler never reads on in the source file, never announces a file and sends no file data. */
  lemma {:induction false} HandleReadsNothing(p: Peer, m: Msg, a: Answer)
    ensures var e := Handle(p, m, a);
            && e.peer.send == p.send.(state := e.peer.send.state, open := e.peer.send.open)
            && (p.send.state == SendIdle ==> e.peer.send.state == SendIdle)
            && |e.out| <= 1 && (e.out != [] ==> !e.out[0].Request? && !e.out[0].Fragment?)
  {
    if m.Control? {
      var e := SenderCommand(p, m.sender);
      assert e.peer.send == p.send && e.out == [];
    }
  }

  lemma {:induction false} BytesSenderHears(p: Peer, m: Msg, a: Answer, r: RecvSide, ms: seq<Msg>)
    requires SendLocal(p.send) && Bytes(p.send, r, ms)
    ensures var e := Handle(p, m, a);
            Bytes(e.peer.send, r, ms + e.out) && e.peer.send.sent == p.send.sent
  {
    var e := Handle(p, m, a);
    HandleReadsNothing(p, m, a);
    BytesAppend(p.send, e.peer.send, r, ms, e.out);
  }

  /** Nothing is written or announced: the receiver may only change between its states of one transfer. */
  lemma {:induction false} BytesSameFiles(s: SendSide, r: RecvSide, r': RecvSide, ms: seq<Msg>)
    requires Bytes(s, r, ms)
    requires r'.got == r.got && (r'.state != RecvIdle ==> r.state != RecvIdle && r'.size == r.size)
    ensures Bytes(s, r', ms)
  {
  }

  lemma {:induction false} BytesReceiverCalls(p: Peer, c: Call, s: SendSide, ms: seq<Msg>)
    requires Bytes(s, p.recv, ms) && Callable(p, c)
    ensures var q := Perform(p, c).peer;
            Bytes(s, q.recv, ms) && q.recv.got == p.recv.got
  {
    BytesSameFiles(s, p.recv, Perform(p, c).peer.recv, ms);
  }

  /** The receiver takes a message: what it has and what is on its way together stay the same. */
  lemma {:induction false} BytesTake(s: SendSide, r: RecvSide, r': RecvSide, ms: seq<Msg>)
    requires ms != [] && Bytes(s, r, ms)
    requires Files(r'.got) == AddTo(Files(r.got), ms[0])
    requires ms[0].Request? ==> r'.size == ms[0].size
    requires !ms[0].Request? && r'.state != RecvIdle ==> r.state != RecvIdle && r'.size == r.size
    ensures Bytes(s, r', ms[1..])
  {
  }

  /** The next fragment fits: it continues the announced file and does not reach beyond its size. */
  lemma {:induction false} FragmentFits(s: SendSide, r: RecvSide, ms: seq<Msg>)
    requires ms != [] && ms[0].Fragment? && Bytes(s, r, ms) && r.state != RecvIdle
    ensures var n := |r.got| - 1;
            n < |s.sent| && r.got[n].written + ms[0].data <= s.sent[n]
  {
    AddAllExtends(AddTo(Files(r.got), ms[0]), ms[1..]);
  }

  /** Only requests and fragments change the receiver's files. */
  lemma {:induction false} OthersWriteNothing(p: Peer, m: Msg, a: Answer)
    requires !m.Request? && !m.Fragment?
    ensures var r, r' := p.recv, Handle(p, m, a).peer.recv;
            r'.got == r.got && (r'.state != RecvIdle ==> r.state != RecvIdle && r'.size == r.size)
  {
  }

  lemma {:induction false} BytesTakeFragment(p: Peer, a: Answer, s: SendSide, ms: seq<Msg>)
    requires RecvLocal(p.recv) && Bytes(s, p.recv, ms) && Faithful(s.sent, p.recv.got) && ms != [] && ms[0].Fragment?
    ensures var e := HandleFragment(p, ms[0].data);
            && Faithful(s.sent, e.peer.recv.got)
            && (e.ok ==> Bytes(s, e.peer.recv, ms[1..]))
  {
    var r, r' := p.recv, HandleFragment(p, ms[0].data).peer.recv;
    if r.state == Receiving || r.state == RecvPaused {
      FragmentFits(s, r, ms);
      var n := |r.got| - 1;
      assert Files(r'.got) == Files(r.got)[n := r.got[n].written + ms[0].data];
      BytesTake(s, r, r', ms);
    }
  }

  lemma {:induction false} BytesReceiverHears(p: Peer, a: Answer, s: SendSide, ms: seq<Msg>)
    requires RecvLocal(p.recv) && Bytes(s, p.recv, ms) && Faithful(s.sent, p.recv.got) && ms != []
    ensures var e := Handle(p, ms[0], a);
            && Faithful(s.sent, e.peer.recv.got)
            && (e.ok ==> Bytes(s, e.peer.recv, ms[1..]))
  {
    var e := Handle(p, ms[0], a);
    if ms[0].Fragment? {
      BytesTakeFragment(p, a, s, ms);
    } else if ms[0].Request? {
      if e.ok {
        assert Files(e.peer.recv.got) == Files(p.recv.got) + [[]];
        BytesTake(s, p.recv, e.peer.recv, ms);
      }
    } else {
      OthersWriteNothing(p, ms[0], a);
      BytesTake(s, p.recv, e.peer.recv, ms);
    }
  }

  // ---------------------------------------------------------------------------------------------------
  // Steps and runs
  // ---------------------------------------------------------------------------------------------------

  lemma {:induction false} CallKeepsInv(w: World, c: Call)
    requires Inv(w) && Enabled(w, Calls(c))
    ensures Inv(Next(w, Calls(c)))
  {
    CallKeepsLocal(w.me, c);
    CallKeepsSent(w.me, c, w.you.recv.got);
    ReceiverCallKeeps(w.me, c, w.you.send, w.inc, w.out);
    if Perform(w.me, c).ok {
      SenderCallKeeps(w.me, c, w.you.recv, w.out, w.inc);
    }
  }

  lemma {:induction false} CallKeepsSent(p: Peer, c: Call, got: seq<Got>)
    requires Callable(p, c) && Faithful(p.send.sent, got)
    ensures Faithful(Perform(p, c).peer.send.sent, got)
  {
  }

  lemma {:induction false} SenderCallKeeps(p: Peer, c: Call, r: RecvSide, ms: seq<Msg>, replies: seq<Msg>)
    requires Direction(p.send, r, ms, replies) && RecvLocal(p.recv) && Callable(p, c) && Perform(p, c).ok
    ensures var e := Perform(p, c);
            Direction(e.peer.send, r, ms + e.out, replies)
  {
    CallKeepsLocal(p, c);
    TurnSenderCalls(p, c, r, ms, replies);
    BytesSenderCalls(p, c, r, ms);
  }

  lemma {:induction false} ReceiverCallKeeps(p: Peer, c: Call, s: SendSide, ms: seq<Msg>, replies: seq<Msg>)
    requires Direction(s, p.recv, ms, replies) && SendLocal(p.send) && Callable(p, c)
    ensures var e := Perform(p, c);
            Direction(s, e.peer.recv, ms, replies + e.out) && e.peer.recv.got == p.recv.got
  {
    CallKeepsLocal(p, c);
    TurnReceiverCalls(p, c, s, ms, replies);
    BytesReceiverCalls(p, c, s, ms);
  }

  lemma {:induction false} ReceiveKeepsInv(w: World, a: Answer)
    requires Inv(w) && Enabled(w, Receives(a))
    ensures Inv(Next(w, Receives(a)))
  {
    var m := w.inc[0];
    if w.me.recv.state == WaitAccept {
      NothingMeetsWaitAccept(w.you.send, w.me.recv, w.inc, w.out);
    }
    HandleKeepsLocal(w.me, m, a);
    BytesReceiverHears(w.me, a, w.you.send, w.inc);
    BytesSenderHears(w.me, m, a, w.you.recv, w.out);
    if Handle(w.me, m, a).ok {
      TurnSenderHears(w.me, a, w.you.recv, w.out, w.inc);
      TurnReceiverHears(w.me, a, w.you.send, w.inc, w.out);
    }
  }

  lemma {:induction false} RunKeepsInv(start: World, steps: seq<(bool, Step)>, w: World)
    requires Inv(start) && Reaches(start, steps, w)
    ensures Inv(w)
    decreases |steps|
  {
    if steps != [] {
      var here := if steps[0].0 then start else Flip(start);
      match steps[0].1 {
        case Calls(c) => CallKeepsInv(here, c);
        case Receives(a) => ReceiveKeepsInv(here, a);
      }
      var there := Next(here, steps[0].1);
      RunKeepsInv(if steps[0].0 then there else Flip(there), steps[1..], w);
    }
  }

  /** In every run of the two peers, in both directions: the i-th file the receiver has opened for writing holds
      a prefix of the i-th file its peer has announced, and all of it when the receiver reported it finished,
      whatever was cancelled, paused or refused in between; no stream is closed that is not open; and while the
      connection lives a stream is open exactly in the states that use it. */
  lemma {:induction false} TransfersAreFaithful(steps: seq<(bool, Step)>, w: World)
    requires Reaches(START, steps, w)
    ensures Faithful(w.me.send.sent, w.you.recv.got) && Faithful(w.you.send.sent, w.me.recv.got)
    ensures !w.me.fault && !w.you.fault
    ensures w.alive ==>
              forall p :: p == w.me || p == w.you ==>
                && (p.send.open <==> p.send.state != SendIdle)
                && (p.recv.open <==> p.recv.state == Receiving || p.recv.state == RecvPaused)
    ensures w.alive && w.you.recv.state == WaitAccept && w.out != [] ==> !OfSender(w.out[0])
    ensures w.alive && w.me.recv.state == WaitAccept && w.inc != [] ==> !OfSender(w.inc[0])
  {
    assert Inv(START);
    RunKeepsInv(START, steps, w);
  }
}
