/** Message tables and stream framing, after PICA_msgproc.c.

    `MsgGetSize` and `ProcessDataStream` are the program's loops over a byte buffer; `Decide` and `Drain`
    say on plain sequences what they compute.  The main result is that the way the bytes were cut into
    chunks by the network cannot be observed (`ChunkIndependence`). */
module Framing {
  import opened Memory

  const UINT_MAX: nat := 0xFFFF_FFFF

  datatype Layout = FixedSize | VarSize

  /** One row of a message table; `sz` is the whole size of a fixed message, or the number of octets that
      store the length of a variable one. */
  datatype MsgInfo = MsgInfo(msgid: nat, layout: Layout, sz: nat)

  type Table = seq<MsgInfo>

  /** The values the rows may take: the length field has one or two octets (PICA_MSG_VARSIZE_INT8, _INT16),
      and a fixed message holds at least its doubled identifier. */
  predicate ValidTable(t: Table) {
    forall i :: 0 <= i < |t| ==> ValidRow(t[i])
  }

  predicate ValidRow(row: MsgInfo) {
    match row.layout
    case FixedSize => 2 <= row.sz < UINT_MAX
    case VarSize => row.sz == 1 || row.sz == 2
  }

  function LittleEndian(s: seq<Byte>): (n: nat) {
    if s == [] then 0 else s[0] + 256 * LittleEndian(s[1..])
  }

  /** The first row for an identifier; identifiers are compared as octets. */
  function FindRow(t: Table, id: Byte): (row: Option<MsgInfo>)
    ensures row.Some? ==> row.value in t && row.value.msgid % 256 == id
  {
    if t == [] then None
    else if t[0].msgid % 256 == id then Some(t[0])
    else FindRow(t[1..], id)
  }

  /** What the bytes read so far say about the size of the first message. */
  datatype Decision = NeedMore | Malformed | Known(size: nat)

  function Decide(t: Table, s: seq<Byte>): Decision {
    if |s| < 2 then NeedMore
    else if s[0] != s[1] then Malformed
    else
      match FindRow(t, s[0])
      case None => Malformed
      case Some(row) =>
        if row.layout.FixedSize? then Known(row.sz)
        else if |s| < row.sz + 2 then NeedMore
        else Known(2 + row.sz + LittleEndian(s[2..2 + row.sz]))
  }

  /** The unsigned value with which PICA_msggetsize reports a decision. */
  function Code(d: Decision): nat {
    match d
    case NeedMore => UINT_MAX
    case Malformed => 0
    case Known(n) => n
  }

  lemma {:induction false} LittleEndianBound(s: seq<Byte>)
    requires |s| <= 2
    ensures LittleEndian(s) < 65536 && (|s| <= 1 ==> LittleEndian(s) < 256)
  {
    if s != [] {
      LittleEndianBound(s[1..]);
    }
  }

  /** A size that has been decided is positive, never the "need more" sentinel, and stays as it is when
      more bytes arrive; and four bytes are always enough to decide. */
  lemma {:induction false} DecideMonotone(t: Table, s: seq<Byte>, more: seq<Byte>)
    requires ValidTable(t)
    ensures Decide(t, s) != NeedMore ==> Decide(t, s + more) == Decide(t, s)
    ensures Decide(t, s).Known? ==> 2 <= Decide(t, s).size < UINT_MAX
    ensures |s| >= 4 ==> Decide(t, s) != NeedMore
  {
    if |s| >= 2 && s[0] == s[1] && FindRow(t, s[0]).Some? {
      var row := FindRow(t, s[0]).value;
      assert ValidRow(row);
      if row.layout.VarSize? && |s| >= row.sz + 2 {
        assert (s + more)[2..2 + row.sz] == s[2..2 + row.sz];
        LittleEndianBound(s[2..2 + row.sz]);
      }
    }
  }

  /** The octet is the identifier of a row. */
  predicate Identifies(t: Table, i: int, id: Byte) {
    0 <= i < |t| && t[i].msgid % 256 == id
  }

  /** No message begins with these bytes: the identifier is not repeated, or no row has it. */
  ghost predicate Garbage(t: Table, s: seq<Byte>) {
    |s| >= 2 && (s[0] != s[1] || forall i :: 0 <= i < |t| ==> !Identifies(t, i, s[0]))
  }

  /** An identifier has the row found for it, and has none if and only if no row of the table is for it. */
  lemma {:induction false} FoundIsFirst(t: Table, id: Byte)
    ensures FindRow(t, id).None? <==> forall i :: 0 <= i < |t| ==> !Identifies(t, i, id)
    ensures forall i :: Identifies(t, i, id) && (forall j :: 0 <= j < i ==> !Identifies(t, j, id)) ==>
              FindRow(t, id) == Some(t[i])
  {
    if t != [] {
      FoundIsFirst(t[1..], id);
      assert Identifies(t, 0, id) <==> t[0].msgid % 256 == id;
      forall i | 0 < i < |t|
        ensures Identifies(t, i, id) <==> Identifies(t[1..], i - 1, id)
      {
      }
      forall i | 0 <= i < |t[1..]|
        ensures Identifies(t[1..], i, id) <==> Identifies(t, i + 1, id)
      {
      }
    }
  }

  /** The bytes are malformed if and only if no message of the table begins with them. */
  lemma {:induction false} MalformedExactlyWhenGarbage(t: Table, s: seq<Byte>)
    ensures Decide(t, s) == Malformed <==> Garbage(t, s)
  {
    if |s| >= 2 {
      FoundIsFirst(t, s[0]);
    }
  }

  /** Otherwise the first row for the identifier tells the size, as soon as its length field is there. */
  lemma {:induction false} FirstRowDecides(t: Table, s: seq<Byte>, i: nat)
    requires |s| >= 2 && s[0] == s[1] && Identifies(t, i, s[0]) && forall j :: 0 <= j < i ==> !Identifies(t, j, s[0])
    ensures Code(Decide(t, s)) ==
            if t[i].layout.FixedSize? then t[i].sz
            else if |s| < t[i].sz + 2 then UINT_MAX
            else 2 + t[i].sz + LittleEndian(s[2..2 + t[i].sz])
  {
    FoundIsFirst(t, s[0]);
  }

  /** PICA_msggetsize: zero if and only if no message begins so. */
  method MsgGetSize(buf: array<Byte>, nb: nat, t: Table) returns (r: nat)
    requires nb <= buf.Length && ValidTable(t)
    ensures r == Code(Decide(t, buf[..nb]))
    ensures r == 0 <==> Garbage(t, buf[..nb])
  {
    MalformedExactlyWhenGarbage(t, buf[..nb]);
    DecideMonotone(t, buf[..nb], []);
    if nb < 2 {
      return UINT_MAX;
    }
    if buf[0] != buf[1] {
      return 0;
    }
    var i := 0;
    while i < |t|
      invariant i <= |t|
      invariant FindRow(t, buf[0]) == FindRow(t[i..], buf[0])
    {
      if buf[0] == t[i].msgid % 256 {
        assert ValidRow(t[i]);
        if t[i].layout == FixedSize {
          return t[i].sz;
        } else if nb >= t[i].sz + 2 {
          var tailLen := ReadLength(buf, t[i].sz);
          assert buf[..nb][2..2 + t[i].sz] == buf[2..2 + t[i].sz];
          return 2 + t[i].sz + tailLen;
        } else {
          return UINT_MAX;
        }
      }
      i := i + 1;
    }
    return 0;
  }

  /** The inner loop of PICA_msggetsize: octet j of the length field is octet j of the result.  The octets
      are taken from the highest down, the program stores them in place from the lowest up. */
  method ReadLength(buf: array<Byte>, sz: nat) returns (n: nat)
    requires 2 + sz <= buf.Length
    ensures n == LittleEndian(buf[2..2 + sz])
  {
    n := 0;
    for j := sz downto 0
      invariant n == LittleEndian(buf[2 + j..2 + sz])
    {
      assert buf[2 + j..2 + sz][1..] == buf[2 + j + 1..2 + sz];
      n := buf[2 + j] + 256 * n;
    }
  }

  /** A handler reads one message, may change the connection's state, and accepts or refuses. */
  datatype Handled<S> = Handled(state: S, ok: bool)

  type Handler<!S> = (S, seq<Byte>) -> Handled<S>

  /** What one pass over the buffer leaves: the connection's state, the undispatched bytes, the verdict. */
  datatype Outcome<S> = Outcome(state: S, rest: seq<Byte>, ok: bool)

  /** Dispatch every whole message at the front of `b`. */
  function Drain<S>(t: Table, h: Handler<S>, s: S, b: seq<Byte>): (o: Outcome<S>)
    requires ValidTable(t)
    ensures |o.rest| <= |b|
    decreases |b|
  {
    DecideMonotone(t, b, []);
    match Decide(t, b)
    case NeedMore => Outcome(s, b, true)
    case Malformed => Outcome(s, b, false)
    case Known(n) =>
      if n > |b| then Outcome(s, b, true)
      else
        var r := h(s, b[..n]);
        if r.ok then Drain(t, h, r.state, b[n..]) else Outcome(r.state, b, false)
  }

  /** The outcome of draining b.  The trigger keeps a proof that only passes the outcome on from unfolding `Drain`: it
      does so where the decision on b is spoken of. */
  ghost predicate Leaves<S(!new)>(t: Table, h: Handler<S>, s: S, b: seq<Byte>, o: Outcome<S>)
    requires ValidTable(t)
  {
    forall x: seq<Byte> {:trigger Decide(t, x)} :: x == b ==> o == Drain(t, h, s, x)
  }

  /** What the first message does to the outcome. */
  lemma {:induction false} FirstMessage<S(!new)>(t: Table, h: Handler<S>, s: S, b: seq<Byte>, o: Outcome<S>)
    requires ValidTable(t) && Leaves(t, h, s, b, o)
    ensures var d := Decide(t, b);
            && (d.NeedMore? || (d.Known? && d.size > |b|) ==> o == Outcome(s, b, true))
            && (d.Malformed? ==> o == Outcome(s, b, false))
            && (d.Known? && d.size <= |b| ==>
                  var r := h(s, b[..d.size]);
                  if r.ok then Leaves(t, h, r.state, b[d.size..], o) else o == Outcome(r.state, b, false))
  {
    var d := Decide(t, b);
  }

  /** One round of the loop in PICA_processdatastream: the message is dispatched and, if accepted, the bytes behind it
      are moved to the front. */
  method TakeMessage<S(!new)>(buf: array<Byte>, readPos: nat, n: nat, arg: S, t: Table, h: Handler<S>,
                              ghost whole: Outcome<S>)
    returns (pos: nat, state: S, ok: bool)
    requires 0 < n <= readPos <= buf.Length && ValidTable(t) && Decide(t, buf[..readPos]) == Known(n)
    requires Leaves(t, h, arg, buf[..readPos], whole)
    modifies buf
    ensures pos <= readPos && (ok ==> pos < readPos && Leaves(t, h, state, buf[..pos], whole))
    ensures !ok ==> whole == Outcome(state, buf[..pos], false)
  {
    ghost var b := buf[..readPos];
    FirstMessage(t, h, arg, b, whole);
    assert buf[..n] == b[..n];
    var r := h(arg, buf[..n]);
    pos, state, ok := readPos, r.state, r.ok;
    if ok {
      pos := readPos - n;
      MoveDown(buf, n, pos);
      assert buf[..pos] == b[n..];
    }
  }

  /** PICA_processdatastream with PICA_processmsg: the loop shifts the buffer in place after each message,
      and so does what `Drain` does to the bytes that were in it. */
  method ProcessDataStream<S(!new)>(buf: array<Byte>, readPos: nat, arg: S, t: Table, h: Handler<S>)
    returns (pos: nat, state: S, ok: bool)
    requires readPos <= buf.Length < UINT_MAX && ValidTable(t)
    modifies buf
    ensures pos <= readPos
    ensures Outcome(state, buf[..pos], ok) == old(Drain(t, h, arg, buf[..readPos]))
  {
    pos, state := readPos, arg;
    ghost var whole := Drain(t, h, arg, buf[..readPos]);
    while pos > 0
      invariant pos <= readPos && Leaves(t, h, state, buf[..pos], whole)
    {
      DecideMonotone(t, buf[..pos], []);
      FirstMessage(t, h, state, buf[..pos], whole);
      var uret := MsgGetSize(buf, pos, t);
      if uret == 0 {
        return pos, state, false;
      }
      if uret > pos {
        break;
      }
      pos, state, ok := TakeMessage(buf, pos, uret, state, t, h, whole);
      if !ok {
        return pos, state, false;
      }
    }
    FirstMessage(t, h, state, buf[..pos], whole);
    return pos, state, true;
  }

  // ---------------------------------------------------------------------------------------------------
  // Chunk independence
  // ---------------------------------------------------------------------------------------------------

  function Concat(chunks: seq<seq<Byte>>): seq<Byte> {
    if chunks == [] then [] else chunks[0] + Concat(chunks[1..])
  }

  /** The connection reads chunk after chunk behind what the previous passes left, until one is refused. */
  function Feed<S>(t: Table, h: Handler<S>, s: S, rest: seq<Byte>, chunks: seq<seq<Byte>>): Outcome<S>
    requires ValidTable(t)
    decreases |chunks|
  {
    if chunks == [] then Outcome(s, rest, true)
    else
      var o := Drain(t, h, s, rest + chunks[0]);
      if o.ok then Feed(t, h, o.state, o.rest, chunks[1..]) else o
  }

  /** Draining what has arrived and then the rest is draining everything. */
  lemma {:induction false} DrainAppend<S>(t: Table, h: Handler<S>, s: S, b: seq<Byte>, more: seq<Byte>)
    requires ValidTable(t)
    ensures var o := Drain(t, h, s, b);
            Drain(t, h, s, b + more) ==
              if o.ok then Drain(t, h, o.state, o.rest + more) else Outcome(o.state, o.rest + more, false)
    decreases |b|
  {
    DecideMonotone(t, b, more);
    var d := Decide(t, b);
    if d.Known? && d.size <= |b| {
      var n := d.size;
      assert (b + more)[..n] == b[..n];
      assert (b + more)[n..] == b[n..] + more;
      var r := h(s, b[..n]);
      if r.ok {
        DrainAppend(t, h, r.state, b[n..], more);
      }
    }
  }

  /** Reading a stream in any sequence of chunks ends in the same connection state and with the same
      verdict as reading it at once; an accepted stream leaves the same bytes undispatched, and a refused
      one leaves a prefix of them (the chunks after the refusal were never read). */
  lemma {:induction false} ChunkIndependence<S>(t: Table, h: Handler<S>, s: S, chunks: seq<seq<Byte>>)
    requires ValidTable(t)
    ensures var whole := Drain(t, h, s, Concat(chunks));
            var parts := Feed(t, h, s, [], chunks);
            && parts.state == whole.state
            && parts.ok == whole.ok
            && (whole.ok ==> parts.rest == whole.rest)
            && (!whole.ok ==> parts.rest <= whole.rest)
  {
    FeedIsDrain(t, h, s, [], chunks);
    assert [] + Concat(chunks) == Concat(chunks);
  }

  lemma {:induction false} FeedIsDrain<S>(t: Table, h: Handler<S>, s: S, rest: seq<Byte>, chunks: seq<seq<Byte>>)
    requires ValidTable(t)
    requires Drain(t, h, s, rest) == Outcome(s, rest, true)
    ensures var whole := Drain(t, h, s, rest + Concat(chunks));
            var parts := Feed(t, h, s, rest, chunks);
            && parts.state == whole.state
            && parts.ok == whole.ok
            && (whole.ok ==> parts.rest == whole.rest)
            && (!whole.ok ==> parts.rest <= whole.rest)
    decreases |chunks|
  {
    if chunks == [] {
      assert rest + Concat(chunks) == rest;
    } else {
      var b := rest + chunks[0];
      var tail := Concat(chunks[1..]);
      assert rest + Concat(chunks) == b + tail;
      DrainAppend(t, h, s, b, tail);
      var o := Drain(t, h, s, b);
      if o.ok {
        DrainStable(t, h, s, b);
        FeedIsDrain(t, h, o.state, o.rest, chunks[1..]);
      }
    }
  }

  /** Nothing more can be dispatched from what an accepting pass leaves. */
  lemma {:induction false} DrainStable<S>(t: Table, h: Handler<S>, s: S, b: seq<Byte>)
    requires ValidTable(t)
    requires Drain(t, h, s, b).ok
    ensures var o := Drain(t, h, s, b);
            Drain(t, h, o.state, o.rest) == o
    decreases |b|
  {
    DecideMonotone(t, b, []);
    var d := Decide(t, b);
    if d.Known? && d.size <= |b| {
      DrainStable(t, h, h(s, b[..d.size]).state, b[d.size..]);
    }
  }

  /** A read buffer of `cap` bytes is left with no room after an accepted pass exactly when it was full of
      the beginning of one message that declares more than `cap` bytes: the next read then has size zero
      and the connection can make no progress. */
  lemma {:induction false} WedgedExactlyWhenOversized<S>(t: Table, h: Handler<S>, s: S, b: seq<Byte>, cap: nat)
    requires ValidTable(t)
    requires 4 <= cap && |b| <= cap
    requires Drain(t, h, s, b).ok
    ensures |Drain(t, h, s, b).rest| == cap <==>
            |b| == cap && Decide(t, b).Known? && Decide(t, b).size > cap
  {
  }

  // ---------------------------------------------------------------------------------------------------
  // Streams of whole messages
  // ---------------------------------------------------------------------------------------------------

  /** The bytes of exactly one message. */
  predicate IsFrame(t: Table, f: seq<Byte>) {
    Decide(t, f) == Known(|f|)
  }

  predicate AllFrames(t: Table, fs: seq<seq<Byte>>) {
    forall i {:trigger IsFrame(t, fs[i])} :: 0 <= i < |fs| ==> IsFrame(t, fs[i])
  }

  /** The number of bytes of the first k messages. */
  function Span(fs: seq<seq<Byte>>, k: nat): nat
    requires k <= |fs|
  {
    if k == 0 then 0 else |fs[0]| + Span(fs[1..], k - 1)
  }

  /** Handing the messages that lie wholly within the first n bytes of the stream one by one to the handler,
      until it refuses one; `done` were accepted. */
  datatype Delivered<S> = Delivered(state: S, done: nat, ok: bool)

  function Deliver<S>(h: Handler<S>, s: S, fs: seq<seq<Byte>>, n: nat): (d: Delivered<S>)
    ensures d.done <= |fs| && Span(fs, d.done) <= n
    ensures d.ok && d.done < |fs| ==> n < Span(fs, d.done) + |fs[d.done]|
  {
    if fs == [] || n < |fs[0]| then Delivered(s, 0, true)
    else
      var r := h(s, fs[0]);
      if !r.ok then Delivered(r.state, 0, false)
      else
        var d := Deliver(h, r.state, fs[1..], n - |fs[0]|);
        Delivered(d.state, d.done + 1, d.ok)
  }

  /** A receiver that holds a prefix of a stream of messages dispatches the next message if all of it is
      there and waits otherwise: it never takes a part of a message, or two, for one. */
  lemma {:induction false} NextMessage<S(!new)>(t: Table, h: Handler<S>, s: S, f: seq<Byte>, more: seq<Byte>,
        p: seq<Byte>, o: Outcome<S>)
    requires ValidTable(t) && IsFrame(t, f) && p <= f + more && Leaves(t, h, s, p, o)
    ensures |p| < |f| ==> o == Outcome(s, p, true)
    ensures |f| <= |p| ==>
              && p[|f|..] <= more
              && var r := h(s, f);
                 if r.ok then Leaves(t, h, r.state, p[|f|..], o) else o == Outcome(r.state, p, false)
  {
    FirstMessage(t, h, s, p, o);
    if |p| < |f| {
      assert f == p + f[|p|..];
      DecideMonotone(t, p, f[|p|..]);
    } else {
      assert p[..|f|] == (f + more)[..|f|] == f;
      assert p[|f|..] == (f + more)[|f|..|p|] == more[..|p| - |f|];
      DecideMonotone(t, f, p[|f|..]);
      assert p == f + p[|f|..];
    }
  }

  /** Whatever part of a stream of messages has arrived, exactly its whole messages are given to the handler,
      in order, until it refuses one; the bytes behind the accepted ones stay in the buffer. */
  lemma {:induction false} DrainFrames<S(!new)>(t: Table, h: Handler<S>, s: S, fs: seq<seq<Byte>>, p: seq<Byte>,
        o: Outcome<S>)
    requires ValidTable(t) && AllFrames(t, fs) && p <= Concat(fs) && Leaves(t, h, s, p, o)
    ensures var d := Deliver(h, s, fs, |p|);
            o == Outcome(d.state, p[Span(fs, d.done)..], d.ok)
    decreases |fs|
  {
    if fs == [] {
      FirstMessage(t, h, s, p, o);
    } else {
      var f, tail := fs[0], fs[1..];
      assert IsFrame(t, fs[0]);
      OtherFrames(t, fs);
      NextMessage(t, h, s, f, Concat(tail), p, o);
      var r := h(s, f);
      if |f| <= |p| && r.ok {
        var q := p[|f|..];
        DrainFrames(t, h, r.state, tail, q, o);
        DeliverFirst(h, s, fs, |p|);
        DropTwice(p, |f|, Span(tail, Deliver(h, r.state, tail, |q|).done));
      }
    }
  }

  lemma {:induction false} OtherFrames(t: Table, fs: seq<seq<Byte>>)
    requires AllFrames(t, fs) && fs != []
    ensures AllFrames(t, fs[1..])
  {
  }

  /** The first message is delivered and then the others. */
  lemma {:induction false} DeliverFirst<S>(h: Handler<S>, s: S, fs: seq<seq<Byte>>, n: nat)
    requires fs != [] && |fs[0]| <= n && h(s, fs[0]).ok
    ensures var d := Deliver(h, h(s, fs[0]).state, fs[1..], n - |fs[0]|);
            && Deliver(h, s, fs, n) == Delivered(d.state, d.done + 1, d.ok)
            && Span(fs, d.done + 1) == |fs[0]| + Span(fs[1..], d.done)
  {
  }

  lemma {:induction false} DropTwice(p: seq<Byte>, a: nat, b: nat)
    requires a + b <= |p|
    ensures p[a..][b..] == p[a + b..]
  {
  }

  /** A pass stops before a part of a message, or, refusing, before bytes with which no message begins or before a
      message the handler refuses. */
  ghost predicate Stops<S(!new)>(t: Table, h: Handler<S>, s: S, o: Outcome<S>) {
    var d := Decide(t, o.rest);
    || (o.ok && o.state == s && !Garbage(t, o.rest) && (d.Known? ==> d.size > |o.rest|))
    || (!o.ok && o.state == s && Garbage(t, o.rest))
    || (!o.ok && exists n ::
          0 < n <= |o.rest| && IsFrame(t, o.rest[..n]) && h(s, o.rest[..n]) == Handled(o.state, false))
  }

  lemma {:induction false} WholeFrame(t: Table, b: seq<Byte>)
    requires ValidTable(t) && Decide(t, b).Known? && Decide(t, b).size <= |b|
    ensures 0 < Decide(t, b).size && IsFrame(t, b[..Decide(t, b).size])
  {
    var n := Decide(t, b).size;
    DecideMonotone(t, b, []);
    DecideMonotone(t, b[..n], b[n..]);
    assert b == b[..n] + b[n..];
    ShortFrame(t, b, n);
  }

  /** The bytes that decide a size lie within that size. */
  lemma {:induction false} ShortFrame(t: Table, b: seq<Byte>, n: nat)
    requires ValidTable(t) && Decide(t, b) == Known(n) && n <= |b|
    ensures Decide(t, b[..n]) != NeedMore
  {
    var row := FindRow(t, b[0]).value;
    assert ValidRow(row);
  }

  lemma {:induction false} DeliverAll<S>(h: Handler<S>, s: S, f: seq<Byte>, fs: seq<seq<Byte>>)
    requires h(s, f).ok
    requires Deliver(h, h(s, f).state, fs, |Concat(fs)|).ok
    ensures Deliver(h, s, [f] + fs, |Concat([f] + fs)|).ok
    ensures Deliver(h, s, [f] + fs, |Concat([f] + fs)|).state == Deliver(h, h(s, f).state, fs, |Concat(fs)|).state
  {
    assert ([f] + fs)[1..] == fs;
  }

  /** The bytes are the messages fs, all accepted, and what the pass leaves. */
  ghost predicate Apart<S(!new)>(t: Table, h: Handler<S>, s: S, b: seq<Byte>, fs: seq<seq<Byte>>, o: Outcome<S>) {
    && AllFrames(t, fs) && b == Concat(fs) + o.rest
    && var d := Deliver(h, s, fs, |Concat(fs)|);
       d.ok && Stops(t, h, d.state, o)
  }

  lemma {:induction false} ApartFirst<S(!new)>(t: Table, h: Handler<S>, s: S, f: seq<Byte>, b: seq<Byte>,
                                               fs: seq<seq<Byte>>, o: Outcome<S>)
    requires IsFrame(t, f) && h(s, f).ok && Apart(t, h, h(s, f).state, b, fs, o)
    ensures Apart(t, h, s, f + b, [f] + fs, o)
  {
    DeliverAll(h, s, f, fs);
    assert ([f] + fs)[1..] == fs;
    assert f + (Concat(fs) + o.rest) == (f + Concat(fs)) + o.rest;
  }

  lemma {:induction false} StopsAtOnce<S(!new)>(t: Table, h: Handler<S>, s: S, b: seq<Byte>, o: Outcome<S>)
    requires ValidTable(t) && Leaves(t, h, s, b, o)
    requires var d := Decide(t, b); d.Known? && d.size <= |b| ==> !h(s, b[..d.size]).ok
    ensures Apart(t, h, s, b, [], o)
  {
    FirstMessage(t, h, s, b, o);
    MalformedExactlyWhenGarbage(t, b);
    if Decide(t, b).Known? && Decide(t, b).size <= |b| {
      WholeFrame(t, b);
    }
    assert Concat([]) + o.rest == b;
  }

  lemma {:induction false} FirstWhole<S(!new)>(t: Table, h: Handler<S>, s: S, b: seq<Byte>, o: Outcome<S>)
    returns (f: seq<Byte>, rest: seq<Byte>)
    requires ValidTable(t) && Leaves(t, h, s, b, o)
    requires var d := Decide(t, b); d.Known? && d.size <= |b| && h(s, b[..d.size]).ok
    ensures b == f + rest && |rest| < |b| && IsFrame(t, f) && h(s, f).ok && Leaves(t, h, h(s, f).state, rest, o)
  {
    WholeFrame(t, b);
    FirstMessage(t, h, s, b, o);
    f, rest := b[..Decide(t, b).size], b[Decide(t, b).size..];
  }

  /** Whatever bytes a pass is given, it takes whole messages off their front, all accepted by the handler, and stops
      for one of these reasons. */
  lemma {:induction false} TakesWholeMessages<S(!new)>(t: Table, h: Handler<S>, s: S, b: seq<Byte>, o: Outcome<S>)
    returns (fs: seq<seq<Byte>>)
    requires ValidTable(t) && Leaves(t, h, s, b, o)
    ensures Apart(t, h, s, b, fs, o)
    decreases |b|
  {
    var d := Decide(t, b);
    if d.Known? && d.size <= |b| && h(s, b[..d.size]).ok {
      var f, rest := FirstWhole(t, h, s, b, o);
      var tail := TakesWholeMessages(t, h, h(s, f).state, rest, o);
      ApartFirst(t, h, s, f, rest, tail, o);
      fs := [f] + tail;
    } else {
      StopsAtOnce(t, h, s, b, o);
      fs := [];
    }
  }

  /** Accepted messages followed by bytes with which no message begins: the stream is refused there. */
  lemma {:induction false} GarbageIsRefused<S(!new)>(t: Table, h: Handler<S>, s: S, fs: seq<seq<Byte>>, g: seq<Byte>)
    requires ValidTable(t) && AllFrames(t, fs) && Garbage(t, g)
    requires Deliver(h, s, fs, |Concat(fs)|).ok
    ensures Drain(t, h, s, Concat(fs) + g) == Outcome(Deliver(h, s, fs, |Concat(fs)|).state, g, false)
  {
    FramesAreDrained(t, h, s, fs);
    DrainAppend(t, h, s, Concat(fs), g);
    assert [] + g == g;
    MalformedExactlyWhenGarbage(t, g);
  }

  lemma {:induction false} FramesAreDrained<S(!new)>(t: Table, h: Handler<S>, s: S, fs: seq<seq<Byte>>)
    requires ValidTable(t) && AllFrames(t, fs) && Deliver(h, s, fs, |Concat(fs)|).ok
    ensures Drain(t, h, s, Concat(fs)) == Outcome(Deliver(h, s, fs, |Concat(fs)|).state, [], true)
  {
    DrainFrames(t, h, s, fs, Concat(fs), Drain(t, h, s, Concat(fs)));
    AllDelivered(h, s, fs);
  }

  lemma {:induction false} AllDelivered<S>(h: Handler<S>, s: S, fs: seq<seq<Byte>>)
    requires Deliver(h, s, fs, |Concat(fs)|).ok
    ensures Span(fs, Deliver(h, s, fs, |Concat(fs)|).done) == |Concat(fs)|
  {
    var k := Deliver(h, s, fs, |Concat(fs)|).done;
    if k < |fs| {
      ConcatTake(fs, k + 1);
      SpanNext(fs, k);
    } else {
      ConcatTake(fs, k);
      assert fs[..k] == fs;
    }
  }

  lemma {:induction false} ConcatTake(fs: seq<seq<Byte>>, k: nat)
    requires k <= |fs|
    ensures Span(fs, k) <= |Concat(fs)| && Concat(fs[..k]) == Concat(fs)[..Span(fs, k)]
  {
    if k > 0 {
      ConcatTake(fs[1..], k - 1);
      assert fs[..k][1..] == fs[1..][..k - 1];
      assert Concat(fs)[..Span(fs, k)] == fs[0] + Concat(fs[1..])[..Span(fs[1..], k - 1)];
    }
  }

  lemma {:induction false} ConcatAppend(fs: seq<seq<Byte>>, gs: seq<seq<Byte>>)
    ensures Concat(fs + gs) == Concat(fs) + Concat(gs)
  {
    if fs == [] {
      assert fs + gs == gs;
    } else {
      assert (fs + gs)[1..] == fs[1..] + gs;
      ConcatAppend(fs[1..], gs);
    }
  }

  lemma {:induction false} SpanNext(fs: seq<seq<Byte>>, k: nat)
    requires k < |fs|
    ensures Span(fs, k + 1) == Span(fs, k) + |fs[k]|
  {
    if k > 0 {
      SpanNext(fs[1..], k - 1);
    }
  }

  /** The bytes that stay behind accepted messages: less than the next message, hence less than the longest;
      nothing once the whole stream has arrived. */
  lemma {:induction false} DeliveredRest<S>(h: Handler<S>, s: S, fs: seq<seq<Byte>>, p: seq<Byte>, cap: nat)
    requires p <= Concat(fs)
    requires cap > 0 && forall i :: 0 <= i < |fs| ==> |fs[i]| <= cap
    ensures var d := Deliver(h, s, fs, |p|);
            && Span(fs, d.done) <= |p|
            && p == Concat(fs[..d.done]) + p[Span(fs, d.done)..]
            && (d.ok ==> |p| - Span(fs, d.done) < cap)
            && (d.ok && p == Concat(fs) ==> d.done == |fs| && Span(fs, d.done) == |p|)
  {
    var k := Deliver(h, s, fs, |p|).done;
    ConcatTake(fs, k);
    assert Concat(fs)[..Span(fs, k)] == p[..Span(fs, k)];
    if k == |fs| {
      assert fs[..k] == fs;
    } else {
      ConcatTake(fs, k + 1);
      SpanNext(fs, k);
    }
  }
}
