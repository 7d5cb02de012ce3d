/** The file messages of the transfer protocol as c2c messages on the wire (PICA_client.c, PICA_proto.h): a request also
    carries the name of the file, and an answer two octets of padding. */
module FileWire {
  import opened Memory
  import opened FileTransfer
  import C2cCodec

  /** PICA_PROTO_FILECONTROL_*; the program sends no other octet. */
  function CmdOctet(c: Cmd): Byte {
    match c
    case Void => 0
    case Pause => 1
    case Resume => 2
    case Cancel => 3
    case IoError => 4
    case Unknown => 5
  }

  function CmdOf(b: Byte): Cmd {
    if b == 0 then Void
    else if b == 1 then Pause
    else if b == 2 then Resume
    else if b == 3 then Cancel
    else if b == 4 then IoError
    else Unknown
  }

  /** The c2c message for a file message, with the file's name and the padding. */
  function OnWire(m: Msg, name: seq<Byte>, a: Byte, b: Byte): C2cCodec.Msg {
    match m
    case Request(size) => C2cCodec.SendFileRequest(size, name)
    case Accepted => C2cCodec.Short(C2cCodec.ACCEPTEDFILE, a, b)
    case Denied => C2cCodec.Short(C2cCodec.DENIEDFILE, a, b)
    case Fragment(data) => C2cCodec.FileFragment(data)
    case Control(sender, receiver) => C2cCodec.Short(C2cCodec.FILECONTROL, CmdOctet(sender), CmdOctet(receiver))
  }

  /** What the file handlers make of a c2c message. */
  function OffWire(m: C2cCodec.Msg): Option<Msg> {
    match m
    case SendFileRequest(size, _) => Some(Request(size))
    case FileFragment(data) => Some(Fragment(data))
    case Short(id, a, b) =>
      if id == C2cCodec.ACCEPTEDFILE then Some(Accepted)
      else if id == C2cCodec.DENIEDFILE then Some(Denied)
      else if id == C2cCodec.FILECONTROL then Some(Control(CmdOf(a), CmdOf(b)))
      else None
    case _ => None
  }

  /** What a peer pushes: fragments of the right length and known commands. */
  predicate Pushable(m: Msg) {
    match m
    case Fragment(data) => 1 <= |data| <= C2cCodec.MAX_FRAGMENT
    case Control(sender, receiver) => sender != Unknown && receiver != Unknown
    case _ => true
  }

  lemma {:induction false} PerformPushes(p: Peer, c: Call)
    requires Callable(p, c)
    ensures forall m :: m in Perform(p, c).out ==> Pushable(m)
    ensures forall m :: m in Perform(p, c).out && m.Request? ==> c.SendFile? && m.size == |c.file|
  {
  }

  lemma {:induction false} HandlePushes(p: Peer, m: Msg, a: Answer)
    ensures forall o :: o in Handle(p, m, a).out ==> Pushable(o) && !o.Request?
  {
  }

  lemma {:induction false} WireRoundTrip(m: Msg, name: seq<Byte>, a: Byte, b: Byte)
    requires Pushable(m) && 1 <= |name| <= C2cCodec.MAX_FILE_NAME
    requires m.Request? ==> m.size < 0x1_0000_0000_0000_0000
    ensures C2cCodec.Writable(OnWire(m, name, a, b))
    ensures var d := C2cCodec.Decode(C2cCodec.Encode(OnWire(m, name, a, b)));
            d.Some? && OffWire(d.value) == Some(m)
  {
    C2cCodec.DecodeEncoded(OnWire(m, name, a, b));
  }

  /** Every message that a call or a handler of the protocol pushes can be written by the client's writers, and is read
      back from its frame as the same message; a file has to be shorter than 2^64 octets. */
  lemma {:induction false} PushedReadsBack(p: Peer, step: Step, heard: Msg, name: seq<Byte>, a: Byte, b: Byte, m: Msg)
    requires step.Calls? ==> Callable(p, step.c) && (step.c.SendFile? ==> |step.c.file| < 0x1_0000_0000_0000_0000)
    requires m in (if step.Calls? then Perform(p, step.c).out else Handle(p, heard, step.a).out)
    requires 1 <= |name| <= C2cCodec.MAX_FILE_NAME
    ensures C2cCodec.Writable(OnWire(m, name, a, b))
    ensures var d := C2cCodec.Decode(C2cCodec.Encode(OnWire(m, name, a, b)));
            d.Some? && OffWire(d.value) == Some(m)
  {
    if step.Calls? {
      PerformPushes(p, step.c);
    } else {
      HandlePushes(p, heard, step.a);
    }
    WireRoundTrip(m, name, a, b);
  }
}
