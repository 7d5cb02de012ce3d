/** The relay of a call between two clients of one node (process_c2c_read, process_c2c_write in PICA_node.c).

    A link has two directions, each with a buffer, a jam flag, a persistent read event on the socket it drains and a
    one-shot write event on the socket it fills.  The program writes both directions in one callback with one variable
    `ret`; what is meant is one result per direction.  Both are modelled. */
module Relay {
  import opened Memory

  const BUF_SIZE: nat := 4096
  const UINT_RANGE: nat := 0x1_0000_0000
  const INT_MAX: nat := 0x7fff_ffff
  const EAGAIN: int := 11
  const ENOBUFS: int := 105

  /** One direction: the bytes in its buffer, the unsigned position variable, and its events. */
  datatype Half = Half(held: seq<Byte>, pos: nat, jam: bool, reading: bool, writing: bool)

  datatype Pair = Pair(p1p2: Half, p2p1: Half)

  /** What recv hands over: bytes, or the end of the stream or an error. */
  datatype Recv = Data(bytes: seq<Byte>) | Gone

  // ---------------------------------------------------------------------------------------------------
  // The bodies of the two callbacks
  // ---------------------------------------------------------------------------------------------------

  /** process_c2c_read, one direction, with the read event armed. */
  function Received(h: Half, bytes: seq<Byte>): Half {
    var pos := h.pos + |bytes|;
    Half(h.held + bytes, pos, h.jam || pos == BUF_SIZE, h.reading && pos != BUF_SIZE, true)
  }

  /** What one direction of process_c2c_write does with the value of `ret`; `killed` says whether the link is already
      due for deletion. */
  datatype Settled = Settled(half: Half, ret: int, kill: bool)

  function Settle(h: Half, ret: int, errno: int, killed: bool): Settled {
    if ret > 0 then
      var pos := (h.pos - ret) % UINT_RANGE;
      Settled(Half(if ret <= |h.held| then h.held[ret..] else [], pos, false, h.reading || pos == 0,
          h.writing || (!killed && pos != 0)), ret, killed)
    else if ret == 0 then Settled(h, ret, true)
    else if ret == -1 then
      if errno == EAGAIN || errno == ENOBUFS
      then Settled(h.(jam := true, writing := h.writing || !killed), errno, killed)
      else Settled(h, errno, true)
    else Settled(h.(writing := h.writing || !killed), ret, killed)
  }

  datatype Written = Written(pair: Pair, kill: bool)

  /** The write event of the receiver of one direction fires, which disarms it. */
  function Fired(l: Pair, toP2: bool): Pair {
    if toP2 then l.(p1p2 := l.p1p2.(writing := false)) else l.(p2p1 := l.p2p1.(writing := false))
  }

  /** process_c2c_write as the program has it: one `ret`, at first whatever the stack holds, for both directions. */
  function WriteEvent(l: Pair, toP2: bool, sent: int, errno: int, stack: int): Written {
    var l := Fired(l, toP2);
    var a := if l.p1p2.pos == 0 then Settled(l.p1p2, stack, false)
             else Settle(l.p1p2, if toP2 then sent else stack, errno, false);
    var b := if l.p2p1.pos == 0 then Settled(l.p2p1, a.ret, a.kill)
             else Settle(l.p2p1, if toP2 then a.ret else sent, errno, a.kill);
    Written(Pair(a.half, b.half), b.kill)
  }

  /** process_c2c_write as it is meant: a direction whose receiver is not the socket that fired is left alone. */
  function WriteMeant(l: Pair, toP2: bool, sent: int, errno: int): Written {
    var l := Fired(l, toP2);
    var h := if toP2 then l.p1p2 else l.p2p1;
    if h.pos == 0 then Written(l, false)
    else
      var s := Settle(h, sent, errno, false);
      Written(if toP2 then l.(p1p2 := s.half) else l.(p2p1 := s.half), s.kill)
  }

  function To(l: Pair, toP2: bool): Half {
    if toP2 then l.p1p2 else l.p2p1
  }

  /** What send may return for the bytes in the buffer. */
  predicate SendResult(h: Half, sent: int) {
    -1 <= sent <= h.pos
  }

  // ---------------------------------------------------------------------------------------------------
  // Every run
  // ---------------------------------------------------------------------------------------------------

  /** The buffer is within bounds; a full one is jammed; a waiting byte has a write event; a reader is disarmed only
      while bytes wait. */
  predicate HalfInv(h: Half) {
    && |h.held| == h.pos <= BUF_SIZE
    && (h.pos == BUF_SIZE ==> h.jam)
    && (h.pos > 0 ==> h.writing)
    && (!h.reading ==> h.pos > 0 && h.writing)
    && (h.jam ==> h.pos > 0)
  }

  /** A direction with all the bytes it ever received and sent. */
  datatype Wire = Wire(received: seq<Byte>, sent: seq<Byte>)

  datatype World = World(pair: Pair, w1: Wire, w2: Wire, alive: bool)

  datatype Event =
    | Readable(fromP1: bool, recv: Recv)
    | Writable(toP2: bool, sent: int, errno: int)

  predicate WireInv(h: Half, w: Wire) {
    HalfInv(h) && w.received == w.sent + h.held
  }

  predicate Inv(w: World) {
    w.alive ==> WireInv(w.pair.p1p2, w.w1) && WireInv(w.pair.p2p1, w.w2)
  }

  /** The length process_c2c_read asks recv for. */
  function Room(h: Half): int {
    BUF_SIZE - h.pos
  }

  /** Which events can happen: armed ones, with results the calls can give. */
  predicate Enabled(w: World, e: Event) {
    w.alive &&
    match e
    case Readable(fromP1, r) =>
      var h := To(w.pair, fromP1);
      h.reading && (r.Data? && !h.jam ==> 0 < |r.bytes| <= Room(h))
    case Writable(toP2, sent, errno) =>
      To(w.pair, toP2).writing && SendResult(To(w.pair, toP2), sent)
  }

  function Got(w: Wire, bytes: seq<Byte>): Wire {
    w.(received := w.received + bytes)
  }

  function Gave(w: Wire, h: Half, sent: int): Wire {
    if 0 < sent <= |h.held| then w.(sent := w.sent + h.held[..sent]) else w
  }

  function ReadStep(w: World, fromP1: bool, r: Recv): World {
    if To(w.pair, fromP1).jam then w
    else if r.Gone? then w.(alive := false)
    else if fromP1 then w.(pair := w.pair.(p1p2 := Received(w.pair.p1p2, r.bytes)), w1 := Got(w.w1, r.bytes))
    else w.(pair := w.pair.(p2p1 := Received(w.pair.p2p1, r.bytes)), w2 := Got(w.w2, r.bytes))
  }

  function Account(w: World, toP2: bool, sent: int, r: Written): World {
    World(r.pair,
      if toP2 then Gave(w.w1, w.pair.p1p2, sent) else w.w1,
      if toP2 then w.w2 else Gave(w.w2, w.pair.p2p1, sent),
      !r.kill)
  }

  function Next(w: World, e: Event): World {
    match e
    case Readable(fromP1, r) => ReadStep(w, fromP1, r)
    case Writable(toP2, sent, errno) => Account(w, toP2, sent, WriteMeant(w.pair, toP2, sent, errno))
  }

  predicate Possible(w: World, es: seq<Event>)
    decreases |es|
  {
    es == [] || (Enabled(w, es[0]) && Possible(Next(w, es[0]), es[1..]))
  }

  function Run(w: World, es: seq<Event>): World
    decreases |es|
  {
    if es == [] then w else Run(Next(w, es[0]), es[1..])
  }

  function Idle(): Half {
    Half([], 0, false, true, false)
  }

  function Start(): World {
    World(Pair(Idle(), Idle()), Wire([], []), Wire([], []), true)
  }

  lemma {:induction false} SettleKeeps(h: Half, w: Wire, sent: int, errno: int)
    requires WireInv(h, w) && h.pos > 0 && SendResult(h, sent)
    ensures var s := Settle(h.(writing := false), sent, errno, false);
            s.kill || WireInv(s.half, Gave(w, h, sent))
  {
  }

  lemma {:induction false} StepKeeps(w: World, e: Event)
    requires Inv(w) && Enabled(w, e)
    ensures Inv(Next(w, e))
  {
    match e
    case Readable(fromP1, r) =>
    case Writable(toP2, sent, errno) =>
      var h, wire := To(w.pair, toP2), if toP2 then w.w1 else w.w2;
      if h.pos > 0 {
        SettleKeeps(h, wire, sent, errno);
      }
  }

  /** In every run, in each direction, the bytes received are the bytes sent followed by the bytes in the buffer. */
  lemma {:induction false} EveryRunConserves(w: World, es: seq<Event>)
    requires Inv(w) && Possible(w, es)
    ensures Inv(Run(w, es))
    decreases |es|
  {
    if es != [] {
      StepKeeps(w, es[0]);
      EveryRunConserves(Next(w, es[0]), es[1..]);
    }
  }

  /** And a reader that is not jammed asks recv for at least one byte. */
  lemma {:induction false} StartConserves(es: seq<Event>)
    requires Possible(Start(), es)
    ensures var w := Run(Start(), es);
            w.alive ==>
              && w.w1.received == w.w1.sent + w.pair.p1p2.held
              && w.w2.received == w.w2.sent + w.pair.p2p1.held
              && HalfInv(w.pair.p1p2) && HalfInv(w.pair.p2p1)
              && (!w.pair.p1p2.jam ==> Room(w.pair.p1p2) > 0) && (!w.pair.p2p1.jam ==> Room(w.pair.p2p1) > 0)
  {
    EveryRunConserves(Start(), es);
  }

  /** The bytes that an event hands over from one side: a jammed direction is not read. */
  function Given(w: World, e: Event, fromP1: bool): seq<Byte> {
    if e.Readable? && e.fromP1 == fromP1 && e.recv.Data? && !To(w.pair, fromP1).jam then e.recv.bytes else []
  }

  function HandedOver(w: World, es: seq<Event>, fromP1: bool): seq<Byte>
    decreases |es|
  {
    if es == [] then [] else Given(w, es[0], fromP1) + HandedOver(Next(w, es[0]), es[1..], fromP1)
  }

  /** How many bytes a call of send says it took. */
  function Took(e: Event, toP2: bool): nat {
    if e.Writable? && e.toP2 == toP2 && e.sent > 0 then e.sent else 0
  }

  function TakenBy(es: seq<Event>, toP2: bool): nat {
    if es == [] then 0 else Took(es[0], toP2) + TakenBy(es[1..], toP2)
  }

  lemma {:induction false} StepAccounts(w: World, e: Event)
    requires Inv(w) && Enabled(w, e)
    ensures var v := Next(w, e);
            && v.w1.received == w.w1.received + Given(w, e, true)
            && v.w2.received == w.w2.received + Given(w, e, false)
            && |v.w1.sent| == |w.w1.sent| + Took(e, true) && |v.w2.sent| == |w.w2.sent| + Took(e, false)
  {
  }

  /** In every run the bytes counted as received are those that recv handed over, in order, and as many count as sent
      as send took. */
  lemma {:induction false} RunAccounts(w: World, es: seq<Event>)
    requires Inv(w) && Possible(w, es)
    ensures var v := Run(w, es);
            && v.w1.received == w.w1.received + HandedOver(w, es, true)
            && v.w2.received == w.w2.received + HandedOver(w, es, false)
            && |v.w1.sent| == |w.w1.sent| + TakenBy(es, true) && |v.w2.sent| == |w.w2.sent| + TakenBy(es, false)
    decreases |es|
  {
    if es != [] {
      var next := Next(w, es[0]);
      StepKeeps(w, es[0]);
      StepAccounts(w, es[0]);
      RunAccounts(next, es[1..]);
      Regroup(w.w1.received, Given(w, es[0], true), HandedOver(next, es[1..], true));
      Regroup(w.w2.received, Given(w, es[0], false), HandedOver(next, es[1..], false));
    }
  }

  lemma {:induction false} Regroup(a: seq<Byte>, b: seq<Byte>, c: seq<Byte>)
    ensures a + b + c == a + (b + c)
  {
  }

  /** An event ends the link if and only if the stream it reads is over or the send it makes fails for good. */
  lemma {:induction false} EndsExactlyWhen(w: World, e: Event)
    requires Inv(w) && Enabled(w, e)
    ensures !Next(w, e).alive <==>
            match e
            case Readable(fromP1, r) => r.Gone? && !To(w.pair, fromP1).jam
            case Writable(toP2, sent, errno) =>
              To(w.pair, toP2).pos > 0 && (sent == 0 || (sent == -1 && errno != EAGAIN && errno != ENOBUFS))
  {
  }

  /** A direction is jammed from when its buffer is full or a send would block until a send takes bytes; it is read
      again when its buffer is empty. */
  lemma {:induction false} JamsExactlyWhen(w: World, e: Event)
    requires Inv(w) && Enabled(w, e) && Next(w, e).alive
    ensures match e
            case Readable(fromP1, _) =>
              var h, h' := To(w.pair, fromP1), To(Next(w, e).pair, fromP1);
              (h'.jam <==> h.jam || h'.pos == BUF_SIZE) && To(Next(w, e).pair, !fromP1) == To(w.pair, !fromP1)
            case Writable(toP2, sent, _) =>
              var h, h' := To(w.pair, toP2), To(Next(w, e).pair, toP2);
              && (h'.jam <==> h.pos > 0 && sent == -1) && (h'.pos == 0 ==> h'.reading)
              && To(Next(w, e).pair, !toP2) == To(w.pair, !toP2)
  {
  }

  // ---------------------------------------------------------------------------------------------------
  // As the program has it
  // ---------------------------------------------------------------------------------------------------

  /** A callback lost nothing: the link is due for deletion, or each direction still accounts for every byte. */
  predicate NothingLost(l: Pair, toP2: bool, sent: int, r: Written) {
    r.kill ||
    (&& To(l, toP2).held ==
          (if 0 < sent <= |To(l, toP2).held| then To(l, toP2).held[..sent] else []) + To(r.pair, toP2).held
     && To(l, !toP2).held == To(r.pair, !toP2).held
     && |r.pair.p1p2.held| == r.pair.p1p2.pos && |r.pair.p2p1.held| == r.pair.p2p1.pos)
  }

  /** While the buffer of the other direction is empty, the program does what it is meant to. */
  lemma {:induction false} AsWrittenWhenOppositeEmpty(l: Pair, toP2: bool, sent: int, errno: int, stack: int)
    requires To(l, !toP2).pos == 0
    ensures WriteEvent(l, toP2, sent, errno, stack) == WriteMeant(l, toP2, sent, errno)
  {
  }

  lemma {:induction false} MeantLosesNothing(l: Pair, toP2: bool, sent: int, errno: int)
    requires HalfInv(l.p1p2) && HalfInv(l.p2p1) && SendResult(To(l, toP2), sent)
    ensures NothingLost(l, toP2, sent, WriteMeant(l, toP2, sent, errno))
  {
    var h := To(l, toP2);
    if h.pos > 0 && sent > 0 {
      assert h.held == h.held[..sent] + h.held[sent..];
      assert (h.pos - sent) % UINT_RANGE == h.pos - sent;
    }
  }

  /** A result for which the callback loses a byte of the other direction. */
  function LossyResult(l: Pair, toP2: bool): int {
    if To(l, toP2).pos > 0 then 1 else 0
  }

  lemma {:induction false} OppositeLoses(l: Pair, toP2: bool)
    requires HalfInv(l.p1p2) && HalfInv(l.p2p1) && To(l, !toP2).pos > 0
    ensures SendResult(To(l, toP2), LossyResult(l, toP2))
    ensures !NothingLost(l, toP2, LossyResult(l, toP2), WriteEvent(l, toP2, LossyResult(l, toP2), 0, 1))
  {
  }

  ghost predicate AlwaysConserves(l: Pair, toP2: bool) {
    forall sent, errno, stack :: SendResult(To(l, toP2), sent) ==>
      NothingLost(l, toP2, sent, WriteEvent(l, toP2, sent, errno, stack))
  }

  /** As written, a write callback is sure to conserve the bytes if and only if the other buffer is empty. */
  lemma {:induction false} ConservesExactlyWhenOppositeEmpty(l: Pair, toP2: bool)
    requires HalfInv(l.p1p2) && HalfInv(l.p2p1)
    ensures AlwaysConserves(l, toP2) <==> To(l, !toP2).pos == 0
  {
    if To(l, !toP2).pos == 0 {
      forall sent, errno, stack | SendResult(To(l, toP2), sent)
        ensures NothingLost(l, toP2, sent, WriteEvent(l, toP2, sent, errno, stack))
      {
        AsWrittenWhenOppositeEmpty(l, toP2, sent, errno, stack);
        MeantLosesNothing(l, toP2, sent, errno);
      }
    } else {
      OppositeLoses(l, toP2);
    }
  }

  /** A send to p2 that would block leaves errno in `ret`, and as many bytes of the other direction are dropped. */
  lemma {:induction false} WouldBlockDropsErrnoBytes(l: Pair, errno: int, stack: int)
    requires HalfInv(l.p1p2) && HalfInv(l.p2p1) && l.p1p2.pos > 0 && l.p2p1.pos >= errno
    requires errno == EAGAIN || errno == ENOBUFS
    ensures var r := WriteEvent(l, true, -1, errno, stack);
            !r.kill && r.pair.p1p2.held == l.p1p2.held && r.pair.p2p1.held == l.p2p1.held[errno..]
  {
  }

  /** With both buffers in use, as many bytes of the other direction are dropped as were sent to p2, or as the stack
      happens to hold in a callback for p1. */
  lemma {:induction false} SharedResultDrops(l: Pair, toP2: bool, sent: int, errno: int, stack: int)
    requires HalfInv(l.p1p2) && HalfInv(l.p2p1) && 0 < sent <= To(l, toP2).pos
    ensures var r := WriteEvent(l, toP2, sent, errno, stack);
            var dropped := if toP2 then sent else stack;
            0 < dropped <= To(l, !toP2).pos ==>
              && !r.kill && To(r.pair, toP2).held == To(l, toP2).held[sent..]
              && To(r.pair, !toP2).held == To(l, !toP2).held[dropped..]
  {
  }

  /** A write callback loses nothing for certain: the buffer of the other direction is empty. */
  predicate Harmless(w: World, e: Event) {
    e.Writable? ==> To(w.pair, !e.toP2).pos == 0
  }

  predicate AllHarmless(w: World, es: seq<Event>)
    requires Possible(w, es)
    decreases |es|
  {
    es == [] || (Harmless(w, es[0]) && AllHarmless(Next(w, es[0]), es[1..]))
  }

  /** What the program makes of an event, with what the stack holds. */
  function NextAsWritten(w: World, e: Event, stack: int): World {
    match e
    case Readable(fromP1, r) => ReadStep(w, fromP1, r)
    case Writable(toP2, sent, errno) => Account(w, toP2, sent, WriteEvent(w.pair, toP2, sent, errno, stack))
  }

  function RunAsWritten(w: World, es: seq<Event>, stack: nat -> int): World
    decreases |es|
  {
    if es == [] then w else RunAsWritten(NextAsWritten(w, es[0], stack(|es|)), es[1..], stack)
  }

  /** Every run of the program, with events of both directions and whatever the stack holds, in which each write
      callback finds the other buffer empty is the run as it is meant, and conserves the bytes. */
  lemma {:induction false} HarmlessRunConserves(w: World, es: seq<Event>, stack: nat -> int)
    requires Inv(w) && Possible(w, es) && AllHarmless(w, es)
    ensures RunAsWritten(w, es, stack) == Run(w, es) && Inv(Run(w, es))
    decreases |es|
  {
    if es != [] {
      var e := es[0];
      StepKeeps(w, e);
      if e.Writable? {
        AsWrittenWhenOppositeEmpty(w.pair, e.toP2, e.sent, e.errno, stack(|es|));
      }
      HarmlessRunConserves(Next(w, e), es[1..], stack);
    }
  }

  /** The event belongs to the direction towards p2, or to the other. */
  predicate Towards(e: Event, toP2: bool) {
    if e.Readable? then e.fromP1 == toP2 else e.toP2 == toP2
  }

  /** As long as one side only sends, every callback is harmless. */
  lemma {:induction false} OneWayIsHarmless(w: World, es: seq<Event>, toP2: bool)
    requires Inv(w) && Possible(w, es) && To(w.pair, !toP2) == Idle() && forall e :: e in es ==> Towards(e, toP2)
    ensures AllHarmless(w, es)
    decreases |es|
  {
    if es != [] {
      assert es[0] in es;
      StepKeeps(w, es[0]);
      OneWayIsHarmless(Next(w, es[0]), es[1..], toP2);
    }
  }

  // ---------------------------------------------------------------------------------------------------
  // The callbacks on the buffers
  // ---------------------------------------------------------------------------------------------------

  class Direction {
    const buf: array<Byte>
    var pos: nat
    var jam: bool
    var reading: bool
    var writing: bool

    ghost predicate Sane()
      reads this, buf
    {
      buf.Length == BUF_SIZE && pos <= BUF_SIZE
    }

    ghost function View(): Half
      reads this, buf
      requires buf.Length == BUF_SIZE
    {
      Half(if pos <= BUF_SIZE then buf[..pos] else [], pos, jam, reading, writing)
    }

    constructor ()
      ensures Sane() && View() == Idle() && fresh(buf)
    {
      buf := new Byte[BUF_SIZE];
      pos, jam, reading, writing := 0, false, true, false;
    }

    /** recv into the free part of the buffer, which is not empty. */
    method Recv(bytes: seq<Byte>)
      requires Sane() && 0 < |bytes| <= BUF_SIZE - pos
      modifies buf
      ensures Sane() && buf[..pos] == old(buf[..pos]) && buf[pos..pos + |bytes|] == bytes
    {
      CopyIn(buf, pos, bytes);
    }

    /** One direction of process_c2c_read; the result says whether the link has to be deleted. */
    method OnReadable(r: Recv) returns (kill: bool)
      requires Sane() && HalfInv(View()) && reading && (r.Data? && !jam ==> 0 < |r.bytes| <= Room(View()))
      modifies this, buf
      ensures Sane() && (kill <==> !old(jam) && r.Gone?)
      ensures View() == if old(jam) || r.Gone? then old(View()) else Received(old(View()), r.bytes)
    {
      if jam {
        return false;
      }
      if r.Gone? {
        return true;
      }
      Recv(r.bytes);
      ghost var held := buf[..pos];
      pos := pos + |r.bytes|;
      assert buf[..pos] == held + r.bytes;
      if pos == buf.Length {
        reading := false;
        jam := true;
      }
      writing := true;
      return false;
    }

    /** One direction of process_c2c_write once `ret` is known. */
    method Use(ret: int, errno: int, killed: bool) returns (ret': int, kill: bool)
      requires Sane() && pos > 0 && ret <= INT_MAX
      modifies this, buf
      ensures buf.Length == BUF_SIZE && Settled(View(), ret', kill) == Settle(old(View()), ret, errno, killed)
    {
      ret', kill := ret, killed;
      if ret > 0 {
        Drop(ret);
      }
      if ret' == 0 {
        kill := true;
      }
      if ret' == -1 {
        ret' := errno;
        if errno == EAGAIN || errno == ENOBUFS {
          jam := true;
        } else {
          kill := true;
        }
      }
      if !kill && pos != 0 {
        writing := true;
      }
    }

    /** The bytes that `ret` says were sent leave the buffer. */
    method Drop(n: nat)
      requires Sane() && 0 < n <= INT_MAX
      modifies this`pos, this`reading, this`jam, buf
      ensures buf.Length == BUF_SIZE && writing == old(writing)
      ensures pos == (old(pos) - n) % UINT_RANGE && !jam && (reading <==> old(reading) || pos == 0)
      ensures n <= old(pos) ==> pos <= BUF_SIZE && buf[..pos] == old(buf[n..pos])
      ensures n > old(pos) ==> pos > BUF_SIZE
    {
      if n < pos {
        MoveDown(buf, n, pos - n);
      }
      pos := (pos - n) % UINT_RANGE;
      if pos == 0 {
        reading := true;
      }
      jam := false;
    }
  }

  class Link {
    const p1p2: Direction
    const p2p1: Direction

    ghost predicate Sane()
      reads p1p2, p1p2.buf, p2p1, p2p1.buf
    {
      p1p2 != p2p1 && p1p2.buf != p2p1.buf && p1p2.Sane() && p2p1.Sane()
    }

    constructor ()
      ensures Sane() && fresh(p1p2) && fresh(p2p1) && fresh(p1p2.buf) && fresh(p2p1.buf)
      ensures Pair(p1p2.View(), p2p1.View()) == Start().pair
    {
      p1p2 := new Direction();
      p2p1 := new Direction();
    }

    /** The event can happen now. */
    method Accepts(e: Event, ghost w: World) returns (can: bool)
      requires Sane() && w.alive && w.pair == Pair(p1p2.View(), p2p1.View())
      ensures can == Enabled(w, e)
    {
      match e
      case Readable(fromP1, r) =>
        var d := if fromP1 then p1p2 else p2p1;
        return d.reading && (r.Data? && !d.jam ==> 0 < |r.bytes| <= BUF_SIZE - d.pos);
      case Writable(toP2, sent, _) =>
        var d := if toP2 then p1p2 else p2p1;
        return d.writing && -1 <= sent <= d.pos;
    }

    method FindsOtherEmpty(e: Event, ghost w: World) returns (empty: bool)
      requires Sane() && w.pair == Pair(p1p2.View(), p2p1.View())
      ensures empty == Harmless(w, e)
    {
      return e.Writable? ==> (if e.toP2 then p2p1.pos else p1p2.pos) == 0;
    }

    /** One event of either direction; a write callback only while the other buffer is empty. */
    method React(e: Event, stack: int, ghost w: World) returns (alive: bool)
      requires Sane() && w.alive && w.pair == Pair(p1p2.View(), p2p1.View()) && Inv(w)
      requires Enabled(w, e) && Harmless(w, e) && stack <= INT_MAX && (e.Writable? ==> e.errno <= INT_MAX)
      modifies p1p2, p1p2.buf, p2p1, p2p1.buf
      ensures alive == Next(w, e).alive
      ensures alive ==> Sane() && Next(w, e).pair == Pair(p1p2.View(), p2p1.View())
    {
      var kill;
      match e {
        case Readable(fromP1, r) =>
          if fromP1 {
            kill := p1p2.OnReadable(r);
          } else {
            kill := p2p1.OnReadable(r);
          }
        case Writable(toP2, sent, errno) =>
          AsWrittenWhenOppositeEmpty(w.pair, toP2, sent, errno, stack);
          StepKeeps(w, e);
          kill := OnWritable(toP2, sent, errno, stack);
      }
      alive := !kill;
    }

    /** process_c2c_write: one variable for the results of both directions. */
    method OnWritable(toP2: bool, sent: int, errno: int, stack: int) returns (kill: bool)
      requires Sane() && sent <= INT_MAX && errno <= INT_MAX && stack <= INT_MAX
      modifies p1p2, p1p2.buf, p2p1, p2p1.buf
      ensures p1p2.buf.Length == BUF_SIZE && p2p1.buf.Length == BUF_SIZE
      ensures Written(Pair(p1p2.View(), p2p1.View()), kill)
              == WriteEvent(old(Pair(p1p2.View(), p2p1.View())), toP2, sent, errno, stack)
    {
      var ret := stack;
      kill := false;
      if toP2 {
        p1p2.writing := false;
      } else {
        p2p1.writing := false;
      }
      if p1p2.pos != 0 {
        if toP2 {
          ret := sent;
        }
        ret, kill := p1p2.Use(ret, errno, kill);
      }
      if p2p1.pos != 0 {
        if !toP2 {
          ret := sent;
        }
        ret, kill := p2p1.Use(ret, errno, kill);
      }
    }
  }

  /** The world after the first k events, if all of them can happen. */
  ghost predicate Progress(es: seq<Event>, k: nat, w: World) {
    k <= |es| &&
    (Possible(Start(), es) ==>
       && Possible(w, es[k..]) && (AllHarmless(Start(), es) <==> AllHarmless(w, es[k..]))
       && Possible(Start(), es[..k]) && w == Run(Start(), es[..k]))
  }

  lemma {:induction false} ProgressStarts(es: seq<Event>)
    ensures Progress(es, 0, Start())
  {
    assert es[..0] == [] && es[0..] == es;
  }

  lemma {:induction false} ProgressGoesOn(es: seq<Event>, k: nat, w: World)
    requires Progress(es, k, w) && k < |es| && Enabled(w, es[k]) && Harmless(w, es[k])
    ensures Progress(es, k + 1, Next(w, es[k]))
  {
    assert es[k..][0] == es[k] && es[k..][1..] == es[k + 1..];
    if Possible(Start(), es) {
      OneMoreEvent(Start(), es, k);
    }
  }

  lemma {:induction false} ProgressSkips(es: seq<Event>, k: nat, w: World)
    requires Progress(es, k, w) && k < |es| && !Enabled(w, es[k])
    ensures Progress(es, k + 1, w)
  {
    assert es[k..][0] == es[k];
  }

  /** The run ends with the events, or at the first write callback that finds the other buffer in use. */
  ghost predicate Stopped(es: seq<Event>, done: nat, w: World) {
    done <= |es| &&
    (Possible(Start(), es) ==>
       && Possible(Start(), es[..done]) && w == Run(Start(), es[..done])
       && (done < |es| <==> !AllHarmless(Start(), es))
       && (done < |es| ==> !Harmless(w, es[done])))
  }

  lemma {:induction false} ProgressStops(es: seq<Event>, k: nat, w: World)
    requires Progress(es, k, w) && (k < |es| ==> !Harmless(w, es[k]))
    ensures Stopped(es, k, w)
  {
    assert k < |es| ==> es[k..][0] == es[k];
  }

  /** The link as the program has it, driven by any events of both directions, whatever the stack holds, until the
      first write callback that finds the other buffer in use.  If the events can happen, it stops exactly when there is
      such a callback, and up to there the run is the run as it is meant. */
  method RunLink(es: seq<Event>, stack: nat -> int) returns (l: Link, done: nat, ghost w: World)
    requires forall e :: e in es && e.Writable? ==> e.errno <= INT_MAX
    requires forall i :: stack(i) <= INT_MAX
    ensures Inv(w) && Stopped(es, done, w)
    ensures w.alive ==> l.Sane() && w.pair == Pair(l.p1p2.View(), l.p2p1.View())
  {
    l := new Link();
    w := Start();
    ProgressStarts(es);
    var alive := true;
    done := 0;
    while done < |es|
      invariant alive == w.alive && Inv(w) && Progress(es, done, w)
      invariant fresh(l) && fresh(l.p1p2) && fresh(l.p2p1) && fresh(l.p1p2.buf) && fresh(l.p2p1.buf)
      invariant alive ==> l.Sane() && w.pair == Pair(l.p1p2.View(), l.p2p1.View())
    {
      assert es[done] in es;
      var enabled := false;
      if alive {
        enabled := l.Accepts(es[done], w);
      }
      if !enabled {
        ProgressSkips(es, done, w);
      } else {
        var harmless := l.FindsOtherEmpty(es[done], w);
        if !harmless {
          break;
        }
        StepKeeps(w, es[done]);
        ProgressGoesOn(es, done, w);
        alive := l.React(es[done], stack(done), w);
        w := Next(w, es[done]);
      }
      done := done + 1;
    }
    ProgressStops(es, done, w);
  }

  lemma {:induction false} OneMoreEvent(w: World, es: seq<Event>, i: nat)
    requires i < |es| && Possible(w, es[..i]) && Enabled(Run(w, es[..i]), es[i])
    ensures Possible(w, es[..i + 1]) && Run(w, es[..i + 1]) == Next(Run(w, es[..i]), es[i])
    decreases i
  {
    if i == 0 {
      assert es[..1] == [es[0]] && [es[0]][1..] == [];
    } else {
      assert es[..i][0] == es[0] && es[..i][1..] == es[1..][..i - 1];
      assert es[..i + 1][0] == es[0] && es[..i + 1][1..] == es[1..][..i];
      OneMoreEvent(Next(w, es[0]), es[1..], i - 1);
    }
  }
}
