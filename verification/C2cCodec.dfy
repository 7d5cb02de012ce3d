/** The messages two clients exchange over a c2c channel: how the client's writers lay them out
    (PICA_client.c, PICA_proto.h) and how the receiving handlers read them back.  Lengths and sizes are
    stored in the order of a little-endian host. */
module C2cCodec {
  import opened Memory
  import opened Framing

  const MAX_DATA: nat := 65532
  const MAX_FILE_NAME: nat := 255
  const MAX_FRAGMENT: nat := 3 * 16384 - 4
  const CHAN_READ_BUF: nat := 65536

  const MSGUTF8: Byte := 0x30
  const MSGOK: Byte := 0x40
  const SENDFILEREQUEST: Byte := 0x50
  const ACCEPTEDFILE: Byte := 0x51
  const DENIEDFILE: Byte := 0x52
  const FILEFRAGMENT: Byte := 0x53
  const FILECONTROL: Byte := 0x54
  const ADDRLIST: Byte := 0x0B
  const FAILED: Byte := 0x0C
  const SWITCH: Byte := 0x0D
  const C2CCONNREQ: Byte := 0xCC
  const INITRESPOK: Byte := 0x01
  const VERDIFFER: Byte := 0x02
  const DIRECT_IPV4: Byte := 0xA0

  /** c2c_messages, in the order of the program's table */
  const C2C_TABLE: Table := [
    MsgInfo(MSGUTF8, VarSize, 2), MsgInfo(MSGOK, FixedSize, 4), MsgInfo(SENDFILEREQUEST, VarSize, 2),
    MsgInfo(ACCEPTEDFILE, FixedSize, 4), MsgInfo(DENIEDFILE, FixedSize, 4), MsgInfo(FILEFRAGMENT, VarSize, 2),
    MsgInfo(FILECONTROL, FixedSize, 4), MsgInfo(ADDRLIST, VarSize, 2), MsgInfo(FAILED, FixedSize, 4),
    MsgInfo(SWITCH, FixedSize, 4), MsgInfo(C2CCONNREQ, FixedSize, 4), MsgInfo(INITRESPOK, FixedSize, 4),
    MsgInfo(VERDIFFER, FixedSize, 4)]

  /** The messages; `a` and `b` are the two octets behind the identifier of a four-octet message (random
      padding, a version, or the commands of the sending and of the receiving side of a file transfer). */
  datatype Msg =
    | MsgUtf8(text: seq<Byte>)
    | SendFileRequest(fileSize: nat, name: seq<Byte>)
    | FileFragment(data: seq<Byte>)
    | AddrList(ip: seq<Byte>, port: seq<Byte>)
    | Short(id: Byte, a: Byte, b: Byte)

  predicate IsShortId(id: Byte) {
    || id == MSGOK || id == ACCEPTEDFILE || id == DENIEDFILE || id == FILECONTROL || id == FAILED
    || id == SWITCH || id == C2CCONNREQ || id == INITRESPOK || id == VERDIFFER
  }

  predicate IsLongId(id: Byte) {
    id == MSGUTF8 || id == SENDFILEREQUEST || id == FILEFRAGMENT || id == ADDRLIST
  }

  /** What the writers let through: PICA_send_msg and PICA_send_file check the length, a fragment is one
      read of the source file, an address list holds the one IPv4 address of the listener. */
  predicate Writable(m: Msg) {
    match m
    case MsgUtf8(text) => |text| <= MAX_DATA
    case SendFileRequest(size, name) => size < 0x1_0000_0000_0000_0000 && 1 <= |name| <= MAX_FILE_NAME
    case FileFragment(data) => 1 <= |data| <= MAX_FRAGMENT
    case AddrList(ip, port) => |ip| == 4 && |port| == 2
    case Short(id, _, _) => IsShortId(id)
  }

  /** The `width` low octets of n, lowest first. */
  function Octets(n: nat, width: nat): (s: seq<Byte>)
    ensures |s| == width
  {
    if width == 0 then [] else [n % 256] + Octets(n / 256, width - 1)
  }

  function WithLength(id: Byte, body: seq<Byte>): seq<Byte> {
    [id, id] + Octets(|body|, 2) + body
  }

  function Encode(m: Msg): seq<Byte> {
    match m
    case MsgUtf8(text) => WithLength(MSGUTF8, text)
    case SendFileRequest(size, name) => WithLength(SENDFILEREQUEST, Octets(size, 8) + name)
    case FileFragment(data) => WithLength(FILEFRAGMENT, data)
    case AddrList(ip, port) => WithLength(ADDRLIST, [DIRECT_IPV4] + ip + port)
    case Short(id, a, b) => [id, id, a, b]
  }

  /** What the handler of a dispatched frame reads out of it. */
  function Decode(f: seq<Byte>): Option<Msg> {
    if |f| < 4 then None
    else if f[0] == MSGUTF8 then Some(MsgUtf8(f[4..]))
    else if f[0] == SENDFILEREQUEST then
      if |f| < 12 then None else Some(SendFileRequest(LittleEndian(f[4..12]), f[12..]))
    else if f[0] == FILEFRAGMENT then Some(FileFragment(f[4..]))
    else if f[0] == ADDRLIST then
      if |f| == 11 && f[4] == DIRECT_IPV4 then Some(AddrList(f[5..9], f[9..])) else None
    else if |f| == 4 then Some(Short(f[0], f[2], f[3]))
    else None
  }

  function Frames(ms: seq<Msg>): (fs: seq<seq<Byte>>)
    ensures |fs| == |ms| && forall i :: 0 <= i < |ms| ==> fs[i] == Encode(ms[i])
  {
    seq(|ms|, i requires 0 <= i < |ms| => Encode(ms[i]))
  }

  predicate AllWritable(ms: seq<Msg>) {
    forall i :: 0 <= i < |ms| ==> Writable(ms[i])
  }

  // ---------------------------------------------------------------------------------------------------
  // One message
  // ---------------------------------------------------------------------------------------------------

  function Pow256(n: nat): nat {
    if n == 0 then 1 else 256 * Pow256(n - 1)
  }

  lemma {:induction false} OctetsRoundTrip(n: nat, width: nat)
    requires n < Pow256(width)
    ensures LittleEndian(Octets(n, width)) == n
  {
    if width > 0 {
      OctetsRoundTrip(n / 256, width - 1);
      assert Octets(n, width)[1..] == Octets(n / 256, width - 1);
    }
  }

  /** All that the receiver needs to know of its table. */
  ghost predicate ReadsC2c(t: Table) {
    && ValidTable(t)
    && (forall id: Byte :: IsLongId(id) ==> FindRow(t, id) == Some(MsgInfo(id, VarSize, 2)))
    && (forall id: Byte :: IsShortId(id) ==> FindRow(t, id) == Some(MsgInfo(id, FixedSize, 4)))
  }

  lemma {:induction false} RowAt(t: Table, id: Byte, i: nat)
    requires i < |t| && t[i].msgid % 256 == id
    requires forall j :: 0 <= j < i ==> t[j].msgid % 256 != id
    ensures FindRow(t, id) == Some(t[i])
  {
    if i > 0 {
      RowAt(t[1..], id, i - 1);
    }
  }

  lemma {:induction false} LongRows(t: Table)
    requires t == C2C_TABLE
    ensures forall id: Byte :: IsLongId(id) ==> FindRow(t, id) == Some(MsgInfo(id, VarSize, 2))
  {
    forall id: Byte | IsLongId(id)
      ensures FindRow(t, id) == Some(MsgInfo(id, VarSize, 2))
    {
      RowAt(t, id, if id == MSGUTF8 then 0 else if id == SENDFILEREQUEST then 2
            else if id == FILEFRAGMENT then 5 else 7);
    }
  }

  lemma {:induction false} ShortRow(t: Table, id: Byte)
    requires t == C2C_TABLE && IsShortId(id)
    ensures FindRow(t, id) == Some(MsgInfo(id, FixedSize, 4))
  {
    if id == MSGOK || id == ACCEPTEDFILE || id == DENIEDFILE || id == FILECONTROL {
      RowAt(t, id, if id == MSGOK then 1 else if id == ACCEPTEDFILE then 3 else if id == DENIEDFILE then 4 else 6);
    } else {
      RowAt(t, id, if id == FAILED then 8 else if id == SWITCH then 9 else if id == C2CCONNREQ then 10
            else if id == INITRESPOK then 11 else 12);
    }
  }

  lemma {:induction false} ShortRows(t: Table)
    requires t == C2C_TABLE
    ensures forall id: Byte :: IsShortId(id) ==> FindRow(t, id) == Some(MsgInfo(id, FixedSize, 4))
  {
    forall id: Byte | IsShortId(id)
      ensures FindRow(t, id) == Some(MsgInfo(id, FixedSize, 4))
    {
      ShortRow(t, id);
    }
  }

  lemma {:induction false} TableReadsC2c(t: Table)
    requires t == C2C_TABLE
    ensures ReadsC2c(t)
  {
    assert ValidTable(t);
    LongRows(t);
    ShortRows(t);
  }

  lemma {:induction false} EncodeShape(m: Msg)
    requires Writable(m)
    ensures 4 <= |Encode(m)| <= CHAN_READ_BUF
    ensures Encode(m)[0] == Encode(m)[1]
    ensures m.Short? ==> IsShortId(Encode(m)[0]) && |Encode(m)| == 4
    ensures !m.Short? ==>
              && IsLongId(Encode(m)[0])
              && LittleEndian(Encode(m)[2..4]) == |Encode(m)| - 4
  {
    if !m.Short? {
      var body := Encode(m)[4..];
      assert Encode(m) == WithLength(Encode(m)[0], body);
      assert Pow256(2) == 65536;
      OctetsRoundTrip(|body|, 2);
      assert Encode(m)[2..4] == Octets(|body|, 2);
    }
  }

  lemma {:induction false} LengthLayout(m: Msg)
    requires Writable(m) && !m.Short?
    ensures var f := Encode(m);
            |f| >= 4 && f[0] == f[1] && f[2] == (|f| - 4) % 256 && f[3] == (|f| - 4) / 256
  {
    EncodeShape(m);
    var body := Encode(m)[4..];
    assert Encode(m) == WithLength(Encode(m)[0], body);
    assert Octets(|body|, 2) == [|body| % 256, |body| / 256 % 256];
  }

  /** Which octet is where: the identifier twice, the length of the rest in two octets, lowest first, and the fields;
      the size of a file in eight octets, lowest first, before its name. */
  lemma {:induction false} Layout(m: Msg, i: nat)
    requires Writable(m)
    ensures var f := Encode(m);
            && f[0] == f[1]
            && (!m.Short? ==> |f| >= 4 && f[2] == (|f| - 4) % 256 && f[3] == (|f| - 4) / 256)
            && match m
               case MsgUtf8(text) => f[0] == MSGUTF8 && |f| == 4 + |text| && (i < |text| ==> f[4 + i] == text[i])
               case FileFragment(data) =>
                 f[0] == FILEFRAGMENT && |f| == 4 + |data| && (i < |data| ==> f[4 + i] == data[i])
               case SendFileRequest(size, name) =>
                 && f[0] == SENDFILEREQUEST && |f| == 12 + |name| && (i < |name| ==> f[12 + i] == name[i])
                 && LittleEndian(f[4..12]) == size
               case AddrList(ip, port) =>
                 && f[0] == ADDRLIST && |f| == 11 && f[4] == DIRECT_IPV4
                 && (i < 4 ==> f[5 + i] == ip[i]) && (i < 2 ==> f[9 + i] == port[i])
               case Short(id, a, b) => f == [id, id, a, b]
  {
    EncodeShape(m);
    if !m.Short? {
      LengthLayout(m);
    }
    if m.SendFileRequest? {
      OctetsRoundTrip(m.fileSize, 8);
      assert Encode(m)[4..12] == Octets(m.fileSize, 8);
    }
  }

  /** Every message a writer can produce is exactly one frame of the receiver's table. */
  lemma {:induction false} EncodedIsFrame(t: Table, m: Msg)
    requires ReadsC2c(t) && Writable(m)
    ensures IsFrame(t, Encode(m)) && |Encode(m)| <= CHAN_READ_BUF
  {
    EncodeShape(m);
  }

  lemma {:induction false} AllEncodedFrames(t: Table, ms: seq<Msg>)
    requires ReadsC2c(t) && AllWritable(ms)
    ensures AllFrames(t, Frames(ms))
    ensures forall i :: 0 <= i < |ms| ==> |Frames(ms)[i]| <= CHAN_READ_BUF
    ensures Holds(Frames(ms), ms)
  {
    forall i | 0 <= i < |ms|
      ensures IsFrame(t, Frames(ms)[i]) && |Frames(ms)[i]| <= CHAN_READ_BUF && Decode(Frames(ms)[i]) == Some(ms[i])
    {
      EncodedIsFrame(t, ms[i]);
      DecodeEncoded(ms[i]);
    }
  }

  lemma {:induction false} DecodeEncoded(m: Msg)
    requires Writable(m)
    ensures Decode(Encode(m)) == Some(m)
  {
    match m {
      case MsgUtf8(text) =>
        assert Encode(m)[4..] == text;
      case FileFragment(data) =>
        assert Encode(m)[4..] == data;
      case SendFileRequest(size, name) =>
        var f := Encode(m);
        assert f[4..12] == Octets(size, 8) && f[12..] == name;
        assert Pow256(8) == 0x1_0000_0000_0000_0000;
        OctetsRoundTrip(size, 8);
      case AddrList(ip, port) =>
        var f := Encode(m);
        assert f[4] == DIRECT_IPV4 && f[5..9] == ip && f[9..] == port;
      case Short(_, _, _) =>
    }
  }

  // ---------------------------------------------------------------------------------------------------
  // The stream
  // ---------------------------------------------------------------------------------------------------

  /** The handler of a receiver that takes every message it can read, in order. */
  function Record(got: seq<Msg>, f: seq<Byte>): Handled<seq<Msg>> {
    match Decode(f)
    case Some(m) => Handled(got + [m], true)
    case None => Handled(got, false)
  }

  /** The frames hold these messages. */
  predicate Holds(fs: seq<seq<Byte>>, ms: seq<Msg>) {
    |fs| == |ms| && forall i :: 0 <= i < |fs| ==> Decode(fs[i]) == Some(ms[i])
  }

  lemma {:induction false} RecordAll(got: seq<Msg>, fs: seq<seq<Byte>>, ms: seq<Msg>, n: nat)
    requires Holds(fs, ms)
    ensures var d := Deliver(Record, got, fs, n);
            d.ok && d.state == got + ms[..d.done]
    decreases |fs|
  {
    if fs != [] && |fs[0]| <= n {
      var k := Deliver(Record, got + [ms[0]], fs[1..], n - |fs[0]|).done;
      RecordAll(got + [ms[0]], fs[1..], ms[1..], n - |fs[0]|);
      assert got + [ms[0]] + ms[1..][..k] == got + ms[..k + 1];
    }
  }

  lemma {:induction false} StreamOutcome(t: Table, ms: seq<Msg>, p: seq<Byte>, o: Outcome<seq<Msg>>)
    requires ReadsC2c(t) && AllWritable(ms) && p <= Concat(Frames(ms)) && Leaves(t, Record, [], p, o)
    ensures o.ok && o.state <= ms && p == Concat(Frames(o.state)) + o.rest && |o.rest| < CHAN_READ_BUF
    ensures p == Concat(Frames(ms)) ==> o.state == ms && o.rest == []
  {
    var fs := Frames(ms);
    AllEncodedFrames(t, ms);
    DrainFrames(t, Record, [], fs, p, o);
    RecordAll([], fs, ms, |p|);
    var k := Deliver(Record, [], fs, |p|).done;
    DeliveredRest(Record, [], fs, p, CHAN_READ_BUF);
    assert Frames(ms[..k]) == fs[..k];
    assert [] + ms[..k] == ms[..k];
  }

  /** However much of an encoded stream has arrived, it is accepted, exactly its whole messages have been
      read back as they were written, and what is left is less than the read buffer: there is room for the
      next read.  Once everything has arrived, everything has been read. */
  lemma {:induction false} StreamRoundTrip(t: Table, ms: seq<Msg>, p: seq<Byte>)
    requires ReadsC2c(t) && AllWritable(ms) && p <= Concat(Frames(ms))
    ensures var o := Drain(t, Record, [], p);
            && o.ok
            && o.state <= ms
            && p == Concat(Frames(o.state)) + o.rest
            && |o.rest| < CHAN_READ_BUF
            && (p == Concat(Frames(ms)) ==> o.state == ms && o.rest == [])
  {
    StreamOutcome(t, ms, p, Drain(t, Record, [], p));
  }

  /** The table alone promises less than the writers do: a length field may declare up to 65539 octets, and
      a peer that sends such a message fills the read buffer without ever completing it. */
  lemma {:induction false} OversizedFrameWedges(t: Table, body: seq<Byte>)
    requires ReadsC2c(t) && |body| == CHAN_READ_BUF - 4
    ensures var b := [MSGUTF8, MSGUTF8, 255, 255] + body;
            Drain(t, Record, [], b) == Outcome([], b, true) && |b| == CHAN_READ_BUF
  {
    var b := [MSGUTF8, MSGUTF8, 255, 255] + body;
    var len: seq<Byte> := [255, 255];
    assert b[2..4] == len && len[1..] == [255] && len[1..][1..] == [];
    assert LittleEndian(len) == 255 + 256 * LittleEndian(len[1..]);
  }
}
