/** A live stream of messages that moves from the relayed to the direct connection in the middle.

    The sender is the channel of `SendChannel`; the two connections are reliable byte queues; the receiver
    reads from the connection it has been told to read from, into one buffer, and dispatches whole messages
    (PICA_read_c2c, procmsg_PICA_PROTO_DIRECTC2C_SWITCH).  Pushes, partial writes, retries and reads of any
    size interleave freely. */
module DirectSwitch {
  import opened Memory
  import opened Framing
  import opened SendChannel
  import C2cCodec

  const CAP: nat := C2cCodec.CHAN_READ_BUF

  predicate IsSwitch(m: seq<Byte>) {
    |m| > 0 && m[0] == C2cCodec.SWITCH
  }

  /** What the receiver has dispatched, and whether it now reads the direct connection. */
  datatype Received = Received(got: seq<seq<Byte>>, switched: bool)

  /** Everything the two peers have done: the sender `s` and its history `h`, the messages pushed, the first
      `cut` of them up to and including the SWITCH message (0: not pushed), and the receiver, which has read
      the first `relayRead` and `directRead` bytes of the two connections. */
  datatype World = World(
    s: Sender, h: History, frames: seq<seq<Byte>>, cut: nat,
    r: Received, buf: seq<Byte>, alive: bool, relayRead: nat, directRead: nat)

  const START: World := World(FRESH, NOTHING, [], 0, Received([], false), [], true, 0, 0)

  /** `verdict(i)` is whether the receiver's handler accepts the i-th message it is given. */
  datatype Step =
    | PushFrame(m: seq<Byte>)
    | PushSwitch(m: seq<Byte>)
    | Write(res: TlsResult)
    | Read(n: nat, verdict: nat -> bool)

  /** The bytes of the next read. */
  function Chunk(w: World, n: nat): seq<Byte>
    requires if w.r.switched then w.directRead + n <= |w.h.direct| else w.relayRead + n <= |w.h.relay|
  {
    if w.r.switched then w.h.direct[w.directRead..w.directRead + n] else w.h.relay[w.relayRead..w.relayRead + n]
  }

  predicate Enabled(t: Table, w: World, step: Step) {
    match step
    case PushFrame(m) => IsFrame(t, m) && |m| <= CAP && !IsSwitch(m)
    case PushSwitch(m) => IsFrame(t, m) && |m| <= CAP && IsSwitch(m) && w.cut == 0
    case Write(res) => Sound(w.s) && Extent(w.s) > 0 && PossibleResult(w.s, res) && !res.Broken?
    case Read(n, _) =>
      && w.alive && 0 < n <= CAP - |w.buf|
      && if w.r.switched then w.directRead + n <= |w.h.direct| else w.relayRead + n <= |w.h.relay|
  }

  function Dispatch(verdict: nat -> bool): Handler<Received> {
    (r: Received, f: seq<Byte>) =>
      if verdict(|r.got|) then Handled(Received(r.got + [f], r.switched || IsSwitch(f)), true) else Handled(r, false)
  }

  function Next(t: Table, w: World, step: Step): World
    requires ValidTable(t) && Enabled(t, w, step)
  {
    match step
    case PushFrame(m) => w.(s := Pushed(w.s, m), h := AfterPush(w.h, m), frames := w.frames + [m])
    case PushSwitch(m) =>
      w.(s := PushedSwitch(w.s, m), h := AfterSwitch(w.h, m), frames := w.frames + [m], cut := |w.frames| + 1)
    case Write(res) => w.(s := Written(w.s, res), h := AfterWrite(w.h, w.s, res))
    case Read(n, verdict) => AfterRead(w, n, Drain(t, Dispatch(verdict), w.r, w.buf + Chunk(w, n)))
  }

  function AfterRead(w: World, n: nat, o: Outcome<Received>): World {
    w.(r := o.state, buf := o.rest, alive := o.ok,
       relayRead := if w.r.switched then w.relayRead else w.relayRead + n,
       directRead := if w.r.switched then w.directRead + n else w.directRead)
  }

  // ---------------------------------------------------------------------------------------------------
  // Invariants
  // ---------------------------------------------------------------------------------------------------

  /** The pushed messages: whole frames that fit the receiver's buffer, with at most one SWITCH. */
  ghost predicate Pushable(t: Table, fs: seq<seq<Byte>>, cut: nat) {
    && ValidTable(t) && AllFrames(t, fs) && cut <= |fs|
    && (forall i :: 0 <= i < |fs| ==> |fs[i]| <= CAP)
    && (forall i :: 0 <= i < |fs| ==> (IsSwitch(fs[i]) <==> cut == i + 1))
  }

  ghost predicate Marks(fs: seq<seq<Byte>>, cut: nat, h: History) {
    && cut <= |fs|
    && h.marked == (cut > 0)
    && (cut == 0 ==> h.early == Concat(fs))
    && (cut > 0 ==> h.early == Concat(fs[..cut]) && h.late == Concat(fs[cut..]))
  }

  /** The receiver has dispatched the first k messages and holds a proper part of the next one; together these
      are the bytes it has seen. */
  ghost predicate Tracks(fs: seq<seq<Byte>>, k: nat, buf: seq<Byte>, seen: seq<Byte>) {
    && k <= |fs|
    && Concat(fs[..k]) + buf == seen
    && |buf| < CAP
    && (k < |fs| ==> |buf| < |fs[k]|)
  }

  ghost function Seen(w: World): seq<Byte>
    requires w.relayRead <= |w.h.relay| && w.directRead <= |w.h.direct|
  {
    w.h.relay[..w.relayRead] + w.h.direct[..w.directRead]
  }

  ghost predicate ReceiverInv(w: World) {
    var k := |w.r.got|;
    && w.r.got <= w.frames
    && w.relayRead <= |w.h.relay| && w.directRead <= |w.h.direct|
    && (w.alive ==>
          && Tracks(w.frames, k, w.buf, Seen(w))
          && (!w.r.switched ==> (w.cut == 0 || k < w.cut) && w.directRead == 0)
          && (w.r.switched ==> w.s.switched && k >= w.cut && w.relayRead == |w.h.relay|))
  }

  ghost predicate Inv(t: Table, w: World) {
    && Pushable(t, w.frames, w.cut)
    && Marks(w.frames, w.cut, w.h)
    && Conserved(w.s, w.h)
    && ReceiverInv(w)
  }

  // ---------------------------------------------------------------------------------------------------
  // Streams
  // ---------------------------------------------------------------------------------------------------

  lemma {:induction false} ConcatPush(fs: seq<seq<Byte>>, m: seq<Byte>)
    ensures Concat(fs + [m]) == Concat(fs) + m
  {
    ConcatAppend(fs, [m]);
    assert Concat([m]) == m;
  }

  lemma {:induction false} SplitAt(fs: seq<seq<Byte>>, k: nat)
    requires k <= |fs|
    ensures Concat(fs) == Concat(fs[..k]) + Concat(fs[k..])
  {
    ConcatAppend(fs[..k], fs[k..]);
    assert fs[..k] + fs[k..] == fs;
  }

  lemma {:induction false} Associate(a: seq<Byte>, b: seq<Byte>, c: seq<Byte>, p: seq<Byte>)
    requires p == b + c
    ensures (a + b) + c == a + p
  {
  }

  /** A prefix of the stream that begins with the first k messages goes on with the others. */
  lemma {:induction false} Behind(fs: seq<seq<Byte>>, k: nat, p: seq<Byte>)
    requires k <= |fs| && Concat(fs[..k]) + p <= Concat(fs)
    ensures p <= Concat(fs[k..])
  {
    SplitAt(fs, k);
    var a, b := Concat(fs[..k]), Concat(fs[k..]);
    assert p == (a + p)[|a|..];
    assert b == (a + b)[|a|..];
  }

  /** More messages, more bytes: at least the next message. */
  lemma {:induction false} Longer(fs: seq<seq<Byte>>, i: nat, j: nat)
    requires i < j <= |fs|
    ensures |Concat(fs[..i])| + |fs[i]| <= |Concat(fs[..j])|
  {
    assert fs[..j] == fs[..i] + fs[i..j];
    ConcatAppend(fs[..i], fs[i..j]);
    assert fs[i..j][0] == fs[i];
  }

  lemma {:induction false} MarksPush(fs: seq<seq<Byte>>, cut: nat, h: History, m: seq<Byte>)
    requires Marks(fs, cut, h)
    ensures Marks(fs + [m], cut, AfterPush(h, m))
    ensures cut == 0 ==> Marks(fs + [m], |fs| + 1, AfterSwitch(h, m).(late := []))
  {
    ConcatPush(fs, m);
    ConcatPush(fs[cut..], m);
    assert (fs + [m])[..cut] == fs[..cut];
    assert (fs + [m])[cut..] == fs[cut..] + [m];
    assert (fs + [m])[..|fs| + 1] == fs + [m];
    assert (fs + [m])[|fs| + 1..] == [];
  }

  lemma {:induction false} TracksPush(fs: seq<seq<Byte>>, k: nat, buf: seq<Byte>, seen: seq<Byte>, m: seq<Byte>)
    requires Tracks(fs, k, buf, seen) && seen <= Concat(fs) && |m| > 0
    ensures Tracks(fs + [m], k, buf, seen)
  {
    assert (fs + [m])[..k] == fs[..k];
    if k == |fs| {
      assert fs[..k] == fs;
    }
  }

  /** Everything handed to the two connections, relayed part first, is a prefix of what was pushed. */
  lemma {:induction false} WirePrefix(w: World)
    requires Marks(w.frames, w.cut, w.h) && Conserved(w.s, w.h)
    ensures w.h.relay + w.h.direct <= Concat(w.frames)
    ensures w.h.relay <= w.h.early
    ensures w.h.marked && |w.h.relay| == |w.h.early| ==> w.s.switched
    ensures w.h.direct != [] ==> w.s.switched
  {
    SplitAt(w.frames, w.cut);
    if w.s.switched {
      Associate(w.h.relay, w.h.direct, w.s.buf, w.h.late);
    } else {
      assert w.h.relay + w.h.direct == w.h.relay;
      assert w.h.marked ==> |w.s.buf[..Extent(w.s)]| > 0;
    }
  }


  // ---------------------------------------------------------------------------------------------------
  // Steps
  // ---------------------------------------------------------------------------------------------------

  /** Pushing does not touch the connections, and the receiver stays where it is in the longer stream. */
  lemma {:induction false} PushFrameKeepsInv(t: Table, w: World, m: seq<Byte>)
    requires Inv(t, w) && Enabled(t, w, PushFrame(m))
    ensures Inv(t, Next(t, w, PushFrame(m)))
  {
    MarksPush(w.frames, w.cut, w.h, m);
    PushKeepsReceiver(t, w, m);
    PushConserves(w.s, w.h, m);
  }

  lemma {:induction false} PushSwitchKeepsInv(t: Table, w: World, m: seq<Byte>)
    requires Inv(t, w) && Enabled(t, w, PushSwitch(m))
    ensures Inv(t, Next(t, w, PushSwitch(m)))
  {
    MarksPush(w.frames, w.cut, w.h, m);
    PushKeepsReceiver(t, w, m);
    SwitchConserves(w.s, w.h, m);
  }

  lemma {:induction false} PushKeepsReceiver(t: Table, w: World, m: seq<Byte>)
    requires Inv(t, w) && IsFrame(t, m)
    ensures w.r.got <= w.frames + [m]
    ensures w.alive ==> Tracks(w.frames + [m], |w.r.got|, w.buf, Seen(w))
  {
    DecideMonotone(t, m, []);
    if w.alive {
      WirePrefix(w);
      SeenOnWire(w.h.relay, w.h.direct, w.relayRead, w.directRead);
      TracksPush(w.frames, |w.r.got|, w.buf, Seen(w), m);
    }
  }

  /** With nothing read from the second connection, or all of the first, what was read is a prefix of both. */
  lemma {:induction false} SeenOnWire(relay: seq<Byte>, direct: seq<Byte>, i: nat, j: nat)
    requires i <= |relay| && j <= |direct| && (j == 0 || i == |relay|)
    ensures relay[..i] + direct[..j] <= relay + direct
  {
  }

  /** Writing appends to one connection; to the relayed one only as long as the receiver still reads it. */
  lemma {:induction false} WriteKeepsInv(t: Table, w: World, res: TlsResult)
    requires Inv(t, w) && Enabled(t, w, Write(res))
    ensures Inv(t, Next(t, w, Write(res)))
  {
    WriteConserves(w.s, w.h, res);
    var w' := Next(t, w, Write(res));
    assert w'.h.relay[..w.relayRead] == w.h.relay[..w.relayRead];
    assert w'.h.direct[..w.directRead] == w.h.direct[..w.directRead];
  }

  predicate AnySwitch(fs: seq<seq<Byte>>, n: nat)
    requires n <= |fs|
  {
    n > 0 && (IsSwitch(fs[0]) || AnySwitch(fs[1..], n - 1))
  }

  lemma {:induction false} DeliverTracks(verdict: nat -> bool, r: Received, fs: seq<seq<Byte>>, n: nat)
    ensures var d := Deliver(Dispatch(verdict), r, fs, n);
            && d.state.got == r.got + fs[..d.done]
            && d.state.switched == (r.switched || AnySwitch(fs, d.done))
            && (!d.ok ==> !verdict(|d.state.got|))
    decreases |fs|
  {
    if fs != [] && |fs[0]| <= n && verdict(|r.got|) {
      var r1 := Received(r.got + [fs[0]], r.switched || IsSwitch(fs[0]));
      DeliverTracks(verdict, r1, fs[1..], n - |fs[0]|);
      var k := Deliver(Dispatch(verdict), r1, fs[1..], n - |fs[0]|).done;
      assert r1.got + fs[1..][..k] == r.got + fs[..k + 1];
    }
  }

  lemma {:induction false} SwitchAtCut(fs: seq<seq<Byte>>, cut: nat, k: nat, n: nat)
    requires k + n <= |fs|
    requires forall i :: 0 <= i < |fs| ==> (IsSwitch(fs[i]) <==> cut == i + 1)
    ensures AnySwitch(fs[k..], n) <==> k < cut <= k + n
    decreases n
  {
    if n > 0 {
      SwitchAtCut(fs, cut, k + 1, n - 1);
      assert fs[k..][1..] == fs[k + 1..];
    }
  }

  /** What a read leaves: more messages dispatched, SWITCH among them if it was next, and the bytes behind them; a
      message is refused only by its handler. */
  ghost predicate Continues(fs: seq<seq<Byte>>, cut: nat, r: Received, seen: seq<Byte>, verdict: nat -> bool,
                            o: Outcome<Received>) {
    && |r.got| <= |o.state.got| && o.state.got <= fs
    && (o.state.switched <==> r.switched || |r.got| < cut <= |o.state.got|)
    && (o.ok ==> Tracks(fs, |o.state.got|, o.rest, seen))
    && (!o.ok ==> !verdict(|o.state.got|))
  }

  /** One read, seen against all the messages ever pushed. */
  lemma {:induction false} TracksRead(t: Table, fs: seq<seq<Byte>>, cut: nat, r: Received, buf: seq<Byte>,
        seen: seq<Byte>, chunk: seq<Byte>, verdict: nat -> bool, o: Outcome<Received>)
    requires Pushable(t, fs, cut)
    requires r.got <= fs && Tracks(fs, |r.got|, buf, seen)
    requires seen + chunk <= Concat(fs)
    requires Leaves(t, Dispatch(verdict), r, buf + chunk, o)
    ensures Continues(fs, cut, r, seen + chunk, verdict, o)
  {
    var k, p := |r.got|, buf + chunk;
    Associate(Concat(fs[..k]), buf, chunk, p);
    Behind(fs, k, p);
    TracksPass(t, fs, cut, r, p, seen + chunk, verdict, o);
  }

  lemma {:induction false} TracksPass(t: Table, fs: seq<seq<Byte>>, cut: nat, r: Received, p: seq<Byte>,
        seen: seq<Byte>, verdict: nat -> bool, o: Outcome<Received>)
    requires Pushable(t, fs, cut) && r.got <= fs && p <= Concat(fs[|r.got|..]) && Concat(fs[..|r.got|]) + p == seen
    requires Leaves(t, Dispatch(verdict), r, p, o)
    ensures Continues(fs, cut, r, seen, verdict, o)
  {
    var d := Deliver(Dispatch(verdict), r, fs[|r.got|..], |p|);
    ReadOutcome(t, fs, cut, r, p, verdict, o, d);
    DeliverAgainst(fs, cut, verdict, r, p, seen, d);
  }

  lemma {:induction false} ReadOutcome(t: Table, fs: seq<seq<Byte>>, cut: nat, r: Received, p: seq<Byte>,
      verdict: nat -> bool, o: Outcome<Received>, d: Delivered<Received>)
    requires Pushable(t, fs, cut) && r.got <= fs && p <= Concat(fs[|r.got|..])
    requires Leaves(t, Dispatch(verdict), r, p, o) && d == Deliver(Dispatch(verdict), r, fs[|r.got|..], |p|)
    ensures d.done <= |fs[|r.got|..]| && Span(fs[|r.got|..], d.done) <= |p|
    ensures o == Outcome(d.state, p[Span(fs[|r.got|..], d.done)..], d.ok)
  {
    var tail := fs[|r.got|..];
    forall i | 0 <= i < |tail|
      ensures IsFrame(t, tail[i])
    {
      assert IsFrame(t, fs[|r.got| + i]);
    }
    DrainFrames(t, Dispatch(verdict), r, tail, p, o);
  }

  lemma {:induction false} DeliverAgainst(fs: seq<seq<Byte>>, cut: nat, verdict: nat -> bool, r: Received, p: seq<Byte>,
      seen: seq<Byte>, d: Delivered<Received>)
    requires r.got <= fs && p <= Concat(fs[|r.got|..]) && Concat(fs[..|r.got|]) + p == seen
    requires forall i :: 0 <= i < |fs| ==> |fs[i]| <= CAP && (IsSwitch(fs[i]) <==> cut == i + 1)
    requires d == Deliver(Dispatch(verdict), r, fs[|r.got|..], |p|)
    ensures var k := |r.got|;
            && |d.state.got| == k + d.done && d.state.got <= fs
            && (d.state.switched <==> r.switched || k < cut <= k + d.done)
            && (d.ok ==> Tracks(fs, k + d.done, p[Span(fs[k..], d.done)..], seen))
            && (!d.ok ==> !verdict(|d.state.got|))
  {
    var k := |r.got|;
    DeliverTracks(verdict, r, fs[k..], |p|);
    assert d.state.got == fs[..k + d.done];
    SwitchAtCut(fs, cut, k, d.done);
    if d.ok {
      DeliveredTracks(fs, k, verdict, r, p, seen, d);
    }
  }

  lemma {:induction false} DeliveredTracks(fs: seq<seq<Byte>>, k: nat, verdict: nat -> bool, r: Received, p: seq<Byte>,
      seen: seq<Byte>, d: Delivered<Received>)
    requires k <= |fs| && p <= Concat(fs[k..]) && Concat(fs[..k]) + p == seen
    requires forall i :: 0 <= i < |fs| ==> |fs[i]| <= CAP
    requires d == Deliver(Dispatch(verdict), r, fs[k..], |p|) && d.ok
    ensures Tracks(fs, k + d.done, p[Span(fs[k..], d.done)..], seen)
  {
    var tail := fs[k..];
    assert forall i :: 0 <= i < |tail| ==> tail[i] == fs[k + i];
    DeliveredRest(Dispatch(verdict), r, tail, p, CAP);
    RestTracks(fs, k, d.done, p, seen);
  }

  lemma {:induction false} RestTracks(fs: seq<seq<Byte>>, k: nat, n: nat, p: seq<Byte>, seen: seq<Byte>)
    requires k + n <= |fs| && Span(fs[k..], n) <= |p|
    requires p == Concat(fs[k..][..n]) + p[Span(fs[k..], n)..]
    requires Concat(fs[..k]) + p == seen
    requires |p| - Span(fs[k..], n) < CAP
    requires k + n < |fs| ==> |p| < Span(fs[k..], n) + |fs[k + n]|
    ensures Tracks(fs, k + n, p[Span(fs[k..], n)..], seen)
  {
    assert fs[..k + n] == fs[..k] + fs[k..][..n];
    ConcatAppend(fs[..k], fs[k..][..n]);
    Associate(Concat(fs[..k]), Concat(fs[k..][..n]), p[Span(fs[k..], n)..], p);
  }

  /** From the relayed connection the receiver reads no message behind SWITCH, and when it has dispatched
      SWITCH there is nothing left on that connection and the sender has left it. */
  lemma {:induction false} RelayCount(t: Table, w: World, k: nat, rest: seq<Byte>, seen: seq<Byte>)
    requires Pushable(t, w.frames, w.cut) && Marks(w.frames, w.cut, w.h) && Conserved(w.s, w.h)
    requires Tracks(w.frames, k, rest, seen) && seen <= w.h.relay
    ensures w.cut > 0 ==> k <= w.cut
    ensures w.cut > 0 && k == w.cut ==> w.s.switched && seen == w.h.relay
  {
    WirePrefix(w);
    if w.cut > 0 && k > w.cut {
      assert IsFrame(t, w.frames[w.cut]);
      DecideMonotone(t, w.frames[w.cut], []);
      Longer(w.frames, w.cut, k);
    }
  }

  lemma {:induction false} RelayContinues(t: Table, fs: seq<seq<Byte>>, cut: nat, r: Received, buf: seq<Byte>,
      relay: seq<Byte>, direct: seq<Byte>, i: nat, n: nat, verdict: nat -> bool, o: Outcome<Received>)
    requires Pushable(t, fs, cut) && r.got <= fs && i + n <= |relay| && relay + direct <= Concat(fs)
    requires Tracks(fs, |r.got|, buf, relay[..i] + direct[..0])
    requires Leaves(t, Dispatch(verdict), r, buf + relay[i..i + n], o)
    ensures Continues(fs, cut, r, relay[..i + n], verdict, o)
  {
    RelayBytes(relay, direct, i, n);
    Transitive(relay[..i + n], relay + direct, Concat(fs));
    TracksRead(t, fs, cut, r, buf, relay[..i], relay[i..i + n], verdict, o);
  }

  lemma {:induction false} RelayReadKeepsInv(t: Table, w: World, n: nat, verdict: nat -> bool, o: Outcome<Received>)
    requires Inv(t, w) && Enabled(t, w, Read(n, verdict)) && !w.r.switched
    requires Leaves(t, Dispatch(verdict), w.r, w.buf + Chunk(w, n), o)
    ensures Inv(t, AfterRead(w, n, o)) && (!o.ok ==> !verdict(|o.state.got|))
  {
    WirePrefix(w);
    RelayContinues(t, w.frames, w.cut, w.r, w.buf, w.h.relay, w.h.direct, w.relayRead, n, verdict, o);
    RelayReadOn(t, w, n, verdict, o);
  }

  lemma {:induction false} Transitive(a: seq<Byte>, b: seq<Byte>, c: seq<Byte>)
    requires a <= b <= c
    ensures a <= c
  {
  }

  lemma {:induction false} RelayBytes(relay: seq<Byte>, direct: seq<Byte>, i: nat, n: nat)
    requires i + n <= |relay|
    ensures relay[..i] + direct[..0] == relay[..i] && relay[..i] + relay[i..i + n] == relay[..i + n]
    ensures relay[..i + n] + direct[..0] == relay[..i + n] && relay[..i + n] <= relay + direct
  {
  }

  /** Whatever the read dispatched, the relayed connection and the receiver still agree. */
  lemma {:induction false} RelayReadOn(t: Table, w: World, n: nat, verdict: nat -> bool, o: Outcome<Received>)
    requires Inv(t, w) && w.alive && !w.r.switched && w.relayRead + n <= |w.h.relay|
    requires Continues(w.frames, w.cut, w.r, w.h.relay[..w.relayRead + n], verdict, o)
    ensures Inv(t, AfterRead(w, n, o))
  {
    var w' := AfterRead(w, n, o);
    RelayBytes(w.h.relay, w.h.direct, w.relayRead, n);
    if o.ok {
      RelayCount(t, w, |o.state.got|, o.rest, w.h.relay[..w.relayRead + n]);
    }
  }

  lemma {:induction false} DirectBytes(relay: seq<Byte>, direct: seq<Byte>, i: nat, j: nat, n: nat)
    requires i == |relay| && j + n <= |direct|
    ensures relay[..i] + direct[..j] + direct[j..j + n] == relay[..i] + direct[..j + n]
  {
  }

  lemma {:induction false} DirectContinues(t: Table, fs: seq<seq<Byte>>, cut: nat, r: Received, buf: seq<Byte>,
      relay: seq<Byte>, direct: seq<Byte>, i: nat, j: nat, n: nat, verdict: nat -> bool, o: Outcome<Received>)
    requires Pushable(t, fs, cut) && r.got <= fs && i == |relay| && j + n <= |direct| && relay + direct <= Concat(fs)
    requires Tracks(fs, |r.got|, buf, relay[..i] + direct[..j])
    requires Leaves(t, Dispatch(verdict), r, buf + direct[j..j + n], o)
    ensures Continues(fs, cut, r, relay[..i] + direct[..j + n], verdict, o)
  {
    DirectBytes(relay, direct, i, j, n);
    SeenOnWire(relay, direct, i, j + n);
    Transitive(relay[..i] + direct[..j + n], relay + direct, Concat(fs));
    TracksRead(t, fs, cut, r, buf, relay[..i] + direct[..j], direct[j..j + n], verdict, o);
  }

  lemma {:induction false} DirectReadKeepsInv(t: Table, w: World, n: nat, verdict: nat -> bool, o: Outcome<Received>)
    requires Inv(t, w) && Enabled(t, w, Read(n, verdict)) && w.r.switched
    requires Leaves(t, Dispatch(verdict), w.r, w.buf + Chunk(w, n), o)
    ensures Inv(t, AfterRead(w, n, o)) && (!o.ok ==> !verdict(|o.state.got|))
  {
    WirePrefix(w);
    DirectContinues(t, w.frames, w.cut, w.r, w.buf, w.h.relay, w.h.direct, w.relayRead, w.directRead, n, verdict, o);
    DirectReadOn(t, w, n, verdict, o);
  }

  lemma {:induction false} DirectReadOn(t: Table, w: World, n: nat, verdict: nat -> bool, o: Outcome<Received>)
    requires Inv(t, w) && w.alive && w.r.switched && w.directRead + n <= |w.h.direct|
    requires Continues(w.frames, w.cut, w.r, w.h.relay[..w.relayRead] + w.h.direct[..w.directRead + n], verdict, o)
    ensures Inv(t, AfterRead(w, n, o))
  {
  }

  lemma {:induction false} StepKeepsInv(t: Table, w: World, step: Step)
    requires Inv(t, w) && Enabled(t, w, step)
    ensures Inv(t, Next(t, w, step))
  {
    match step {
      case PushFrame(m) => PushFrameKeepsInv(t, w, m);
      case PushSwitch(m) => PushSwitchKeepsInv(t, w, m);
      case Write(res) => WriteKeepsInv(t, w, res);
      case Read(n, verdict) =>
        var o := Drain(t, Dispatch(verdict), w.r, w.buf + Chunk(w, n));
        if w.r.switched {
          DirectReadKeepsInv(t, w, n, verdict, o);
        } else {
          RelayReadKeepsInv(t, w, n, verdict, o);
        }
    }
  }

  // ---------------------------------------------------------------------------------------------------
  // Runs
  // ---------------------------------------------------------------------------------------------------

  /** `w` is reached from `start` by these steps. */
  ghost predicate Reaches(t: Table, start: World, steps: seq<Step>, w: World)
    requires ValidTable(t)
    decreases |steps|
  {
    if steps == [] then w == start
    else Enabled(t, start, steps[0]) && Reaches(t, Next(t, start, steps[0]), steps[1..], w)
  }

  lemma {:induction false} RunKeepsInv(t: Table, start: World, steps: seq<Step>, w: World)
    requires Inv(t, start) && Reaches(t, start, steps, w)
    ensures Inv(t, w)
    decreases |steps|
  {
    if steps != [] {
      StepKeepsInv(t, start, steps[0]);
      RunKeepsInv(t, Next(t, start, steps[0]), steps[1..], w);
    }
  }

  /** In every run, whatever the interleaving: the receiver has dispatched a prefix of what was pushed; nothing
      behind the SWITCH message went on the relayed connection and nothing up to it on the direct one; a
      repeated TLS write offers the same bytes on the same connection; the read buffer of a live receiver has
      room; and once sender and connections have nothing left a live receiver has dispatched everything. */
  lemma {:induction false} SwitchIsSeamless(t: Table, steps: seq<Step>, w: World)
    requires ValidTable(t) && Reaches(t, START, steps, w)
    ensures w.r.got <= w.frames
    ensures w.cut <= |w.frames| && w.h.relay <= Concat(if w.cut == 0 then w.frames else w.frames[..w.cut])
    ensures w.h.direct != [] ==> w.cut > 0 && w.h.direct <= Concat(w.frames[w.cut..])
    ensures w.h.blocked.Some? ==> Sound(w.s) && NextOffer(w.s) == w.h.blocked.value
    ensures w.alive ==> |w.buf| < CAP
    ensures w.alive && w.s.buf == [] && w.relayRead == |w.h.relay| && w.directRead == |w.h.direct|
            ==> w.r.got == w.frames
  {
    StartInv(t);
    RunKeepsInv(t, START, steps, w);
    WirePrefix(w);
    if w.alive && w.s.buf == [] && w.relayRead == |w.h.relay| && w.directRead == |w.h.direct| {
      AllRead(t, w);
    }
  }

  /** Every message of the client's writers can be pushed: SWITCH once, any other at any time. */
  lemma {:induction false} WritableIsEnabled(t: Table, w: World, m: C2cCodec.Msg)
    requires C2cCodec.ReadsC2c(t) && C2cCodec.Writable(m)
    ensures var f := C2cCodec.Encode(m);
            if m.Short? && m.id == C2cCodec.SWITCH then w.cut == 0 ==> Enabled(t, w, PushSwitch(f))
            else Enabled(t, w, PushFrame(f))
  {
    C2cCodec.EncodeShape(m);
    C2cCodec.EncodedIsFrame(t, m);
  }

  /** If what was pushed are the encodings of messages ms, then the messages the receiver has dispatched decode to the
      first of them, in order, across the switch. */
  lemma {:induction false} MessagesArrive(t: Table, steps: seq<Step>, w: World, ms: seq<C2cCodec.Msg>)
    requires C2cCodec.ReadsC2c(t) && Reaches(t, START, steps, w)
    requires C2cCodec.AllWritable(ms) && w.frames == C2cCodec.Frames(ms)
    ensures |w.r.got| <= |ms|
    ensures forall i :: 0 <= i < |w.r.got| ==> C2cCodec.Decode(w.r.got[i]) == Some(ms[i])
  {
    SwitchIsSeamless(t, steps, w);
    forall i | 0 <= i < |w.r.got|
      ensures C2cCodec.Decode(w.r.got[i]) == Some(ms[i])
    {
      assert w.r.got[i] == w.frames[i] == C2cCodec.Encode(ms[i]);
      C2cCodec.DecodeEncoded(ms[i]);
    }
  }

  lemma {:induction false} StartInv(t: Table)
    requires ValidTable(t)
    ensures Inv(t, START)
  {
  }

  lemma {:induction false} AllRead(t: Table, w: World)
    requires Inv(t, w)
    requires w.alive && w.s.buf == [] && w.relayRead == |w.h.relay| && w.directRead == |w.h.direct|
    ensures w.r.got == w.frames
  {
    var k := |w.r.got|;
    assert Seen(w) == w.h.relay + w.h.direct;
    SplitAt(w.frames, w.cut);
    assert w.frames[..|w.frames|] == w.frames;
    if w.cut > 0 && !w.r.switched {
      assert w.h.direct[..0] == [];
      Longer(w.frames, k, w.cut);
    } else if k < |w.frames| {
      Longer(w.frames, k, |w.frames|);
    }
  }
}
