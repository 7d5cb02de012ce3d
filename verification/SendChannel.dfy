/** The writing side of a c2c channel: the growing write buffer, the retry length of a blocked TLS write, and
    the write barrier that moves a live stream from the relayed to the direct connection
    (c2c_writebuf_push, PICA_write_ssl, PICA_write_c2c, PICA_send_directc2c_switch in PICA_client.c). */
module SendChannel {
  import opened Memory

  const NODE_BUF: nat := 4096
  const CHAN_WRITE_BUF: nat := 4096

  /** What SSL_write answered: it took n bytes, asked to be called again with the same ones, or failed. */
  datatype TlsResult = Took(n: nat) | WantRetry | Broken

  /** The fields of a channel that writing touches, on values: `buf` is write_buf[0..write_pos). */
  datatype Sender = Sender(buf: seq<Byte>, retry: nat, barrier: nat, before: nat, switched: bool)

  const FRESH: Sender := Sender([], 0, 0, 0, false)

  /** The part of the buffer that the next write is about: all of it, or what precedes the barrier. */
  function Extent(s: Sender): nat {
    if s.barrier == 0 then |s.buf| else if s.before == 0 then s.barrier else s.before
  }

  predicate Sound(s: Sender) {
    && s.before <= s.barrier <= |s.buf|
    && s.retry <= Extent(s)
    && (s.switched ==> s.barrier == 0)
  }

  /** The bytes the next call gives to SSL_write, and whether on the direct connection. */
  datatype Offer = Offer(direct: bool, data: seq<Byte>)

  function OfferLength(s: Sender): nat {
    if s.retry == 0 then Extent(s) else s.retry
  }

  function NextOffer(s: Sender): Offer
    requires Sound(s)
  {
    Offer(s.switched, s.buf[..OfferLength(s)])
  }

  predicate PossibleResult(s: Sender, res: TlsResult) {
    res.Took? ==> 1 <= res.n <= OfferLength(s)
  }

  function Pushed(s: Sender, m: seq<Byte>): Sender {
    s.(buf := s.buf + m)
  }

  function PushedSwitch(s: Sender, m: seq<Byte>): Sender {
    s.(buf := s.buf + m, barrier := |s.buf + m|)
  }

  /** memmove(buf, buf + n, e - n): the first n of the first e bytes are dropped, the bytes from e - n on stay
      where they were. */
  function Dropped(b: seq<Byte>, e: nat, n: nat): (r: seq<Byte>)
    requires n <= e <= |b|
    ensures |r| == |b|
  {
    seq(|b|, i requires 0 <= i < |b| => if i < e - n then b[n + i] else b[i])
  }

  /** The channel after one write attempt with something to write. */
  function Written(s: Sender, res: TlsResult): (r: Sender)
    requires Sound(s) && PossibleResult(s, res)
    requires Extent(s) > 0
    ensures Sound(r)
  {
    var e := Extent(s);
    if !res.Took? then
      s.(retry := OfferLength(s), before := if s.barrier == 0 then 0 else e)
    else if s.barrier == 0 then
      s.(buf := s.buf[res.n..], retry := 0)
    else if res.n < e then
      s.(buf := Dropped(s.buf, e, res.n), retry := 0, before := e - res.n)
    else
      s.(buf := s.buf[s.barrier..], retry := 0, before := 0, barrier := 0, switched := true)
  }

  // ---------------------------------------------------------------------------------------------------
  // Conservation
  // ---------------------------------------------------------------------------------------------------

  /** What has happened on a channel: the bytes pushed up to the end of the SWITCH message (`marked`: it has
      been pushed) and behind it, the bytes each connection took, and the write TLS asked to have repeated. */
  datatype History = History(
    early: seq<Byte>, late: seq<Byte>, marked: bool, relay: seq<Byte>, direct: seq<Byte>, blocked: Option<Offer>)

  const NOTHING: History := History([], [], false, [], [], None)

  function AfterPush(h: History, m: seq<Byte>): History {
    if h.marked then h.(late := h.late + m) else h.(early := h.early + m)
  }

  function AfterSwitch(h: History, m: seq<Byte>): History {
    h.(early := h.early + m, marked := true)
  }

  function AfterWrite(h: History, s: Sender, res: TlsResult): History
    requires Sound(s) && PossibleResult(s, res)
  {
    var offer := NextOffer(s);
    if !res.Took? then h.(blocked := Some(offer))
    else if offer.direct then h.(direct := h.direct + offer.data[..res.n], blocked := None)
    else h.(relay := h.relay + offer.data[..res.n], blocked := None)
  }

  /** Every pushed byte is in its place, in order: taken by its connection or waiting in its part of the
      buffer; and a write that has to be repeated will offer the same bytes on the same connection. */
  ghost predicate Conserved(s: Sender, h: History) {
    && Sound(s)
    && (!h.marked ==>
          s.barrier == 0 && !s.switched && h.late == [] && h.direct == [] && h.early == h.relay + s.buf)
    && (h.marked && !s.switched ==>
          && s.barrier > 0 && h.direct == []
          && h.early == h.relay + s.buf[..Extent(s)]
          && h.late == s.buf[s.barrier..])
    && (s.switched ==> h.marked && h.early == h.relay && h.late == h.direct + s.buf)
    && (h.blocked.Some? ==> s.retry > 0 && NextOffer(s) == h.blocked.value)
  }

  lemma {:induction false} PushConserves(s: Sender, h: History, m: seq<Byte>)
    requires Conserved(s, h)
    ensures Conserved(Pushed(s, m), AfterPush(h, m))
  {
    var b := s.buf + m;
    assert h.relay + b == h.relay + s.buf + m && h.direct + b == h.direct + s.buf + m;
    assert b[s.barrier..] == s.buf[s.barrier..] + m;
    if s.barrier > 0 {
      assert b[..Extent(s)] == s.buf[..Extent(s)];
    }
    assert b[..s.retry] == s.buf[..s.retry];
  }

  lemma {:induction false} SwitchConserves(s: Sender, h: History, m: seq<Byte>)
    requires Conserved(s, h) && !h.marked && |m| > 0
    ensures Conserved(PushedSwitch(s, m), AfterSwitch(h, m))
  {
  }

  lemma {:induction false} WriteConserves(s: Sender, h: History, res: TlsResult)
    requires Conserved(s, h) && Extent(s) > 0 && PossibleResult(s, res)
    ensures Conserved(Written(s, res), AfterWrite(h, s, res))
  {
    if res.Took? {
      var sent := s.buf[..res.n];
      assert NextOffer(s).data[..res.n] == sent;
      if s.barrier == 0 {
        assert sent + s.buf[res.n..] == s.buf;
        assert h.relay + sent + s.buf[res.n..] == h.relay + s.buf;
        assert h.direct + sent + s.buf[res.n..] == h.direct + s.buf;
      } else {
        BarrierWrite(h.relay, s.buf, s.barrier, Extent(s), res.n);
      }
    }
  }

  lemma {:induction false} BarrierWrite(relay: seq<Byte>, b: seq<Byte>, barrier: nat, e: nat, n: nat)
    requires n <= e <= barrier <= |b|
    ensures relay + b[..n] + Dropped(b, e, n)[..e - n] == relay + b[..e]
    ensures Dropped(b, e, n)[barrier..] == b[barrier..]
  {
  }

  /** A message is pushed, the SWITCH message is pushed, or a write is attempted. */
  datatype Op = PushOp(m: seq<Byte>) | SwitchOp(m: seq<Byte>) | WriteOp(res: TlsResult)

  /** A sender with its history. */
  datatype Run = Run(s: Sender, h: History)

  /** The switch happens once; TLS takes no more than it is offered. */
  predicate CanDo(r: Run, op: Op) {
    match op
    case PushOp(_) => true
    case SwitchOp(m) => !r.h.marked && m != []
    case WriteOp(res) => Sound(r.s) && Extent(r.s) > 0 && PossibleResult(r.s, res)
  }

  function Done(r: Run, op: Op): Run
    requires CanDo(r, op)
  {
    match op
    case PushOp(m) => Run(Pushed(r.s, m), AfterPush(r.h, m))
    case SwitchOp(m) => Run(PushedSwitch(r.s, m), AfterSwitch(r.h, m))
    case WriteOp(res) => Run(Written(r.s, res), AfterWrite(r.h, r.s, res))
  }

  predicate Switches(ops: seq<Op>) {
    exists i :: 0 <= i < |ops| && ops[i].SwitchOp? && ops[i].m != []
  }

  /** What a run pushes: its messages, with the SWITCH message once. */
  ghost function PushedIn(ops: seq<Op>): seq<Byte> {
    if ops == [] then []
    else
      var before, op := ops[..|ops| - 1], ops[|ops| - 1];
      PushedIn(before) + if op.PushOp? || (op.SwitchOp? && !Switches(before)) then op.m else []
  }

  lemma {:induction false} SwitchesOnce(ops: seq<Op>)
    requires ops != []
    ensures Switches(ops) <==>
            Switches(ops[..|ops| - 1]) || (ops[|ops| - 1].SwitchOp? && ops[|ops| - 1].m != [])
  {
    var last := |ops| - 1;
    assert forall i :: 0 <= i < last ==> ops[..last][i] == ops[i];
  }

  /** What a run of operations comes to; one that cannot happen is left out. */
  ghost function RunSender(ops: seq<Op>): (r: Run)
    ensures Conserved(r.s, r.h) && (r.h.marked <==> Switches(ops)) && r.h.early + r.h.late == PushedIn(ops)
  {
    if ops == [] then Run(FRESH, NOTHING)
    else
      var r, op := RunSender(ops[..|ops| - 1]), ops[|ops| - 1];
      DoneConserves(r, op);
      SwitchesOnce(ops);
      assert CanDo(r, op) ==> Done(r, op).h.early + Done(r, op).h.late == PushedIn(ops) by {
        if CanDo(r, op) {
          DonePushes(r, op);
        }
      }
      if CanDo(r, op) then Done(r, op) else r
  }

  lemma {:induction false} DonePushes(r: Run, op: Op)
    requires Conserved(r.s, r.h) && CanDo(r, op)
    ensures var h := Done(r, op).h;
            h.early + h.late == r.h.early + r.h.late + if op.WriteOp? then [] else op.m
  {
    var h := Done(r, op).h;
    if r.h.marked && op.PushOp? {
      assert r.h.early + (r.h.late + op.m) == r.h.early + r.h.late + op.m;
    } else if !op.WriteOp? {
      assert r.h.late == [] && r.h.early + op.m + [] == r.h.early + [] + op.m;
    }
  }

  lemma {:induction false} DoneConserves(r: Run, op: Op)
    requires Conserved(r.s, r.h)
    ensures CanDo(r, op) ==> Conserved(Done(r, op).s, Done(r, op).h)
  {
    if CanDo(r, op) {
      match op
      case PushOp(m) => PushConserves(r.s, r.h, m);
      case SwitchOp(m) => SwitchConserves(r.s, r.h, m);
      case WriteOp(res) => WriteConserves(r.s, r.h, res);
    }
  }

  // ---------------------------------------------------------------------------------------------------
  // The node's writers
  // ---------------------------------------------------------------------------------------------------

  /** process_c2n_write and process_n2n_write: bytes leave the buffer only when TLS took all that was offered. */
  function NodeWritten(buf: seq<Byte>, retry: nat, res: TlsResult): (seq<Byte>, nat)
    requires retry <= |buf|
  {
    var offered := if retry == 0 then |buf| else retry;
    if res == Took(offered) then (buf[offered..], 0) else (buf, offered)
  }

  /** This is right for TLS writes that take all or nothing, as they do unless partial writes are enabled, and for no
      others. */
  lemma {:induction false} NodeWriteConserves(pushed: seq<Byte>, taken: seq<Byte>, buf: seq<Byte>, retry: nat,
        res: TlsResult)
    requires pushed == taken + buf && retry <= |buf| && buf != []
    requires res.Took? ==> 1 <= res.n <= (if retry == 0 then |buf| else retry)
    ensures var taken' := taken + buf[..if res.Took? then res.n else 0];
            pushed == taken' + NodeWritten(buf, retry, res).0 <==>
            (res.Took? ==> res.n == if retry == 0 then |buf| else retry)
  {
  }

  /** A message is queued, or the connection is writable and TLS takes the offer or asks for it to be repeated. */
  datatype NodeOp = Queue(m: seq<Byte>) | Attempt(took: bool)

  /** A node's write buffer with all bytes ever queued and taken, and the offer TLS asked to have repeated. */
  datatype NodeRun = NodeRun(buf: seq<Byte>, retry: nat, queued: seq<Byte>, taken: seq<Byte>,
      blocked: Option<seq<Byte>>)

  function NodeOffer(s: NodeRun): seq<Byte>
    requires s.retry <= |s.buf|
  {
    s.buf[..if s.retry == 0 then |s.buf| else s.retry]
  }

  function NodeNext(s: NodeRun, op: NodeOp): NodeRun
    requires s.retry <= |s.buf|
  {
    match op
    case Queue(m) => s.(buf := s.buf + m, queued := s.queued + m)
    case Attempt(took) =>
      if s.buf == [] then s
      else
        var offer := NodeOffer(s);
        var (buf, retry) := NodeWritten(s.buf, s.retry, if took then Took(|offer|) else WantRetry);
        NodeRun(buf, retry, s.queued, if took then s.taken + offer else s.taken, if took then None else Some(offer))
  }

  /** Bytes queued are bytes taken followed by the buffer, and an outstanding retry will offer the same bytes. */
  predicate NodeConserved(s: NodeRun) {
    && s.retry <= |s.buf| && s.queued == s.taken + s.buf
    && (s.blocked.Some? <==> s.retry > 0)
    && (s.blocked.Some? ==> NodeOffer(s) == s.blocked.value)
  }

  lemma {:induction false} NodeNextConserves(s: NodeRun, op: NodeOp)
    requires NodeConserved(s)
    ensures NodeConserved(NodeNext(s, op))
  {
    match op
    case Queue(m) =>
      assert s.taken + (s.buf + m) == s.taken + s.buf + m;
      assert (s.buf + m)[..s.retry] == s.buf[..s.retry];
    case Attempt(took) =>
      if s.buf != [] && took {
        var offer := NodeOffer(s);
        assert s.buf == offer + s.buf[|offer|..];
        assert s.taken + offer + s.buf[|offer|..] == s.taken + s.buf;
      }
  }

  class Channel {
    var buf: array?<Byte>
    var pos: nat
    var retry: nat
    var barrier: nat
    var before: nat
    var switched: bool

    ghost predicate Valid()
      reads this, buf
    {
      && pos <= Capacity()
      && (buf == null ==> pos == 0)
      && Sound(View())
    }

    ghost function Capacity(): nat
      reads this
    {
      if buf == null then 0 else buf.Length
    }

    ghost function View(): Sender
      reads this, buf
      requires pos <= Capacity()
    {
      Sender(if buf == null then [] else buf[..pos], retry, barrier, before, switched)
    }

    constructor ()
      ensures Valid() && View() == FRESH && buf == null
    {
      buf, pos, retry, barrier, before, switched := null, 0, 0, 0, 0, false;
    }

    /** c2c_writebuf_push followed by the caller's filling in of the message; `m` is the whole message. */
    method Push(m: seq<Byte>)
      requires Valid()
      modifies this`buf, this`pos, buf
      ensures Valid() && View() == Pushed(old(View()), m)
      ensures buf == old(buf) || fresh(buf)
      ensures Capacity() >= old(Capacity())
    {
      MakeRoom(|m|);
      ghost var b := buf[..pos];
      CopyIn(buf, pos, m);
      pos := pos + |m|;
      assert buf[..pos] == b + m;
    }

    method MakeRoom(size: nat)
      requires Valid()
      modifies this`buf
      ensures buf != null && pos + size <= buf.Length && Capacity() >= old(Capacity())
      ensures View() == old(View())
      ensures buf == old(buf) || fresh(buf)
    {
      if buf == null {
        buf := new Byte[CHAN_WRITE_BUF];
      }
      if buf.Length - pos < size {
        var p := Grow(buf, size + pos);
        assert p[..pos] == buf[..pos];
        buf := p;
      }
    }

    /** PICA_send_directc2c_switch */
    method SendSwitch(m: seq<Byte>)
      requires Valid() && !switched && barrier == 0 && |m| > 0
      modifies this`buf, this`pos, this`barrier, buf
      ensures Valid() && View() == PushedSwitch(old(View()), m)
      ensures buf == old(buf) || fresh(buf)
    {
      Push(m);
      barrier := pos;
    }

    /** PICA_write_ssl on the first `ppos` bytes of the buffer: what is left of them moves to the front. */
    method WriteSsl(ppos: nat, res: TlsResult) returns (left: nat)
      requires buf != null && 0 < ppos <= buf.Length && retry <= ppos
      requires res.Took? ==> 1 <= res.n <= (if retry == 0 then ppos else retry)
      modifies this`retry, buf
      ensures res.Took? ==> retry == 0 && left == ppos - res.n
      ensures !res.Took? ==> retry == (if old(retry) == 0 then ppos else old(retry)) && left == ppos
      ensures forall j :: 0 <= j < left ==> buf[j] == old(buf[ppos - left + j])
      ensures forall j :: left <= j < buf.Length ==> buf[j] == old(buf[j])
    {
      left := ppos;
      if retry == 0 {
        retry := ppos;
      }
      if res.Took? {
        left := ppos - res.n;
        MoveDown(buf, res.n, left);
        retry := 0;
      }
    }

    /** One operation, if it can happen. */
    method Attempt(op: Op, marked: bool, ghost r: Run) returns (marked': bool)
      requires Valid() && r.s == View() && r.h.marked == marked && Conserved(r.s, r.h)
      modifies this, buf
      ensures Valid() && (buf == old(buf) || fresh(buf))
      ensures Run(View(), r.h) == (if CanDo(r, op) then Run(Done(r, op).s, r.h) else r)
      ensures marked' == if CanDo(r, op) then Done(r, op).h.marked else marked
    {
      marked' := marked;
      match op
      case PushOp(m) => Push(m);
      case SwitchOp(m) =>
        if !marked && |m| > 0 {
          SendSwitch(m);
          marked' := true;
        }
      case WriteOp(res) =>
        var e := if barrier == 0 then pos else if before == 0 then barrier else before;
        if e > 0 && (res.Took? ==> 1 <= res.n <= if retry == 0 then e else retry) {
          WriteC2c(res);
        }
    }

    /** PICA_write_c2c */
    method WriteC2c(res: TlsResult)
      requires Valid()
      requires PossibleResult(View(), res)
      modifies this`pos, this`retry, this`barrier, this`before, this`switched, buf
      ensures Valid()
      ensures View() == if old(Extent(View())) == 0 then old(View()) else Written(old(View()), res)
    {
      if barrier > 0 {
        if before == 0 {
          before := barrier;
        }
        ghost var v := old(View());
        WriteUpToBarrier(res, v.buf);
        assert View() == Written(v, res);
      } else if pos > 0 {
        WriteAll(res, buf[..pos]);
      }
    }

    /** The branch of PICA_write_c2c for a buffer without a barrier. */
    method WriteAll(res: TlsResult, ghost b: seq<Byte>)
      requires buf != null && 0 < pos <= buf.Length && retry <= pos
      requires b == buf[..pos]
      requires res.Took? ==> 1 <= res.n <= (if retry == 0 then pos else retry)
      modifies this`pos, this`retry, buf
      ensures pos <= buf.Length
      ensures !res.Took? ==> retry == (if old(retry) == 0 then old(pos) else old(retry)) && buf[..pos] == b
      ensures res.Took? ==> retry == 0 && buf[..pos] == b[res.n..]
    {
      pos := WriteSsl(pos, res);
      assert buf[..pos] == b[|b| - pos..];
    }

    /** The branch of PICA_write_c2c for a buffer with a barrier: only the bytes before it are written, on the
        relayed connection; when they are gone the bytes behind it become the buffer of the direct one. */
    method WriteUpToBarrier(res: TlsResult, ghost b: seq<Byte>)
      requires buf != null && 0 < before <= barrier <= pos <= buf.Length && retry <= before
      requires b == buf[..pos]
      requires res.Took? ==> 1 <= res.n <= (if retry == 0 then before else retry)
      modifies this`pos, this`retry, this`barrier, this`before, this`switched, buf
      ensures pos <= buf.Length
      ensures !res.Took? ==>
                && retry == (if old(retry) == 0 then old(before) else old(retry))
                && before == old(before) && barrier == old(barrier) && switched == old(switched) && buf[..pos] == b
      ensures res.Took? ==> retry == 0 && before == old(before) - res.n
      ensures res.Took? && before > 0 ==>
                barrier == old(barrier) && switched == old(switched) && buf[..pos] == Dropped(b, old(before), res.n)
      ensures res.Took? && before == 0 ==> barrier == 0 && switched && buf[..pos] == b[old(barrier)..]
    {
      before := WriteSsl(before, res);
      if before == 0 {
        switched := true;
        assert buf[..pos] == b;
        ShiftPastBarrier(b);
      } else if res.Took? {
        assert buf[..pos] == Dropped(b, old(before), res.n);
      } else {
        assert buf[..pos] == b;
      }
    }

    method ShiftPastBarrier(ghost b: seq<Byte>)
      requires buf != null && barrier <= pos <= buf.Length && buf[..pos] == b
      modifies this`pos, this`barrier, buf
      ensures barrier == 0 && pos == |b| - old(barrier) && buf[..pos] == b[old(barrier)..]
    {
      MoveDown(buf, barrier, pos - barrier);
      pos := pos - barrier;
      assert buf[..pos] == b[barrier..];
      barrier := 0;
    }
  }

  /** The write buffer of a node's connection to a client or to another node (client_wbuf_push, nodelink_wbuf_push,
      process_c2n_write, process_n2n_write): it grows like the channel's, but bytes leave it only when TLS took all
      that was offered. */
  class NodeBuffer {
    var buf: array?<Byte>
    var pos: nat
    var retry: nat

    ghost predicate Valid()
      reads this, buf
    {
      (if buf == null then pos == 0 else pos <= buf.Length) && retry <= pos
    }

    ghost function Waiting(): seq<Byte>
      reads this, buf
      requires Valid()
    {
      if buf == null then [] else buf[..pos]
    }

    constructor ()
      ensures Valid() && Waiting() == [] && buf == null && retry == 0
    {
      buf, pos, retry := null, 0, 0;
    }

    /** The first buffer holds a round number of blocks for `firstSize` octets; later ones are as long as they must
        be. */
    method Push(m: seq<Byte>, firstSize: nat)
      requires Valid()
      modifies this`buf, this`pos, buf
      ensures Valid() && Waiting() == old(Waiting()) + m && retry == old(retry)
      ensures buf == old(buf) || fresh(buf)
    {
      if buf == null {
        buf := new Byte[NODE_BUF + firstSize / NODE_BUF * NODE_BUF];
      }
      if buf.Length - pos < |m| {
        var p := Grow(buf, |m| + pos);
        assert p[..pos] == buf[..pos];
        buf := p;
      }
      ghost var before := buf[..pos];
      assert before == old(Waiting());
      CopyBehind(buf, pos, m);
      pos := pos + |m|;
    }

    /** One queued message, or one write callback. */
    method Perform(op: NodeOp)
      requires Valid()
      modifies this, buf
      ensures Valid() && (buf == old(buf) || fresh(buf))
      ensures forall s: NodeRun :: s.buf == old(Waiting()) && s.retry == old(retry) ==>
                var s' := NodeNext(s, op);
                s'.buf == Waiting() && s'.retry == retry
    {
      match op
      case Queue(m) => Push(m, |m|);
      case Attempt(took) =>
        if pos > 0 {
          Write(if took then Took(if retry == 0 then pos else retry) else WantRetry);
        }
    }

    method Write(res: TlsResult)
      requires Valid() && pos > 0
      requires res.Took? ==> 1 <= res.n <= (if retry == 0 then pos else retry)
      modifies this`pos, this`retry, buf
      ensures Valid() && (Waiting(), retry) == NodeWritten(old(Waiting()), old(retry), res)
    {
      if retry == 0 {
        retry := pos;
      }
      if res == Took(retry) {
        ghost var before := buf[..pos];
        if retry < pos {
          MoveDown(buf, retry, pos - retry);
        }
        pos := pos - retry;
        assert buf[..pos] == before[retry..];
        retry := 0;
      }
    }
  }

  /** What has been queued in a run. */
  function QueuedIn(ops: seq<NodeOp>): seq<Byte> {
    if ops == [] then [] else QueuedIn(ops[..|ops| - 1]) + if ops[|ops| - 1].Queue? then ops[|ops| - 1].m else []
  }

  /** A run from an empty buffer is first in, first out: the bytes TLS took followed by those waiting are the bytes
      queued, and what an outstanding retry offers is what was offered before. */
  function RunOf(ops: seq<NodeOp>): (run: NodeRun)
    ensures NodeConserved(run) && run.queued == QueuedIn(ops)
  {
    if ops == [] then NodeRun([], 0, [], [], None)
    else
      var run := RunOf(ops[..|ops| - 1]);
      NodeNextConserves(run, ops[|ops| - 1]);
      NodeNext(run, ops[|ops| - 1])
  }

  /** Two writes that TLS takes empty the buffer, whatever happened before: the retry first, then the rest. */
  lemma {:induction false} TwoWritesEmpty(ops: seq<NodeOp>)
    ensures var run := RunOf(ops + [Attempt(true)] + [Attempt(true)]);
            run.buf == [] && run.taken == QueuedIn(ops)
  {
    var a := ops + [Attempt(true)];
    var b := a + [Attempt(true)];
    assert a[..|ops|] == ops && b[..|a|] == a;
    assert QueuedIn(b) == QueuedIn(a) + [] && QueuedIn(a) == QueuedIn(ops) + [];
    var run, last := RunOf(ops), RunOf(b);
    assert last.taken + [] == last.taken;
  }

  /** The node's buffer, after any sequence of queued messages and write attempts. */
  method RunNodeBuffer(ops: seq<NodeOp>) returns (b: NodeBuffer)
    ensures b.Valid() && b.Waiting() == RunOf(ops).buf && b.retry == RunOf(ops).retry
    ensures QueuedIn(ops) == RunOf(ops).taken + b.Waiting()
  {
    b := new NodeBuffer();
    for i := 0 to |ops|
      invariant fresh(b) && (b.buf != null ==> fresh(b.buf)) && b.Valid()
      invariant b.Waiting() == RunOf(ops[..i]).buf && b.retry == RunOf(ops[..i]).retry
    {
      assert ops[..i + 1][..i] == ops[..i];
      b.Perform(ops[i]);
    }
    assert ops[..|ops|] == ops;
  }

  /** The channel's buffer, after any sequence of pushes, the switch and write attempts, is the run's: every byte pushed
      has been taken by its connection, in order, or waits in its part of the buffer. */
  method RunChannel(ops: seq<Op>) returns (c: Channel)
    ensures c.Valid() && c.View() == RunSender(ops).s && Conserved(c.View(), RunSender(ops).h)
  {
    c := new Channel();
    var marked := false;
    for i := 0 to |ops|
      invariant fresh(c) && (c.buf != null ==> fresh(c.buf)) && c.Valid()
      invariant c.View() == RunSender(ops[..i]).s && marked == RunSender(ops[..i]).h.marked
    {
      assert ops[..i + 1][..i] == ops[..i];
      marked := c.Attempt(ops[i], marked, RunSender(ops[..i]));
    }
    assert ops[..|ops|] == ops;
  }
}
