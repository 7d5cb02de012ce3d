/** Node lists (procmsg_NODELISTREQ and procmsg_NODELIST in PICA_node.c, procmsg_CLNODELIST in PICA_client.c).

    A list is a sequence of address items behind a 16-bit length.  A node writes IPv4 items only; the client reads all
    three kinds, a node only IPv4 items. */
module NodeList {
  import opened Memory
  import Framing

  const IPV4: Byte := 0xA0
  const IPV6: Byte := 0xA1
  const DNS: Byte := 0xA2
  const ITEM_IPV4: nat := 7
  const ITEM_IPV6: nat := 19
  const LIMIT: nat := 65532
  const LIST_BUFFER: nat := 65536
  const READ_BUFFER: nat := 65536

  /** Four address octets and two port octets, as on the wire. */
  type Endpoint = s: seq<Byte> | |s| == 6 witness [0, 0, 0, 0, 0, 0]

  /** Sixteen address octets and two port octets. */
  type Endpoint6 = s: seq<Byte> | |s| == 18 witness seq(18, _ => 0)

  type HostName = s: seq<Byte> | |s| < 256 witness []

  type Port = s: seq<Byte> | |s| == 2 witness [0, 0]

  datatype Item = Ip4(end: Endpoint) | Ip6(end6: Endpoint6) | Host(name: HostName, port: Port)

  function Encode(i: Item): seq<Byte> {
    match i
    case Ip4(e) => [IPV4] + e
    case Ip6(e) => [IPV6] + e
    case Host(n, p) => [DNS, |n|] + n + p
  }

  function EncodeAll(items: seq<Item>): seq<Byte> {
    if items == [] then [] else Encode(items[0]) + EncodeAll(items[1..])
  }

  function Wrap(ends: seq<Endpoint>): seq<Item> {
    seq(|ends|, i requires 0 <= i < |ends| => Ip4(ends[i]))
  }

  // ---------------------------------------------------------------------------------------------------
  // Writing a list
  // ---------------------------------------------------------------------------------------------------

  /** A neighbour with an IPv4 address, or with one of another kind, which is passed over. */
  datatype Neighbour = Known4(end: Endpoint) | OtherKind

  /** The neighbours that may be named to this requester. */
  function Eligible(ns: seq<Neighbour>, requester: Option<Endpoint>): seq<Endpoint> {
    if ns == [] then []
    else if ns[0].OtherKind? || requester == Some(ns[0].end) then Eligible(ns[1..], requester)
    else [ns[0].end] + Eligible(ns[1..], requester)
  }

  /** Every neighbour with an IPv4 address may be named, except to itself. */
  lemma {:induction false} EligibleExactly(ns: seq<Neighbour>, requester: Option<Endpoint>)
    ensures forall e :: e in Eligible(ns, requester) <==> Known4(e) in ns && requester != Some(e)
  {
    if ns != [] {
      EligibleExactly(ns[1..], requester);
    }
  }

  /** How many neighbours find room behind the node's own address. */
  const MAX_NEIGHBOURS: nat := 9361

  function Named(own: Endpoint, ns: seq<Neighbour>, requester: Option<Endpoint>): seq<Endpoint> {
    var e := Eligible(ns, requester);
    [own] + if |e| <= MAX_NEIGHBOURS then e else e[..MAX_NEIGHBOURS]
  }

  lemma {:induction false} EncodedLength(ends: seq<Endpoint>)
    ensures |EncodeAll(Wrap(ends))| == ITEM_IPV4 * |ends|
  {
    if ends != [] {
      WrapRest(ends);
      EncodedLength(ends[1..]);
    }
  }

  lemma {:induction false} WrapRest(ends: seq<Endpoint>)
    requires ends != []
    ensures Wrap(ends)[0] == Ip4(ends[0]) && Wrap(ends)[1..] == Wrap(ends[1..])
  {
  }

  lemma {:induction false} EncodeAppend(a: seq<Item>, b: seq<Item>)
    ensures EncodeAll(a + b) == EncodeAll(a) + EncodeAll(b)
  {
    if a == [] {
      assert a + b == b;
    } else {
      assert (a + b)[0] == a[0] && (a + b)[1..] == a[1..] + b;
      EncodeAppend(a[1..], b);
    }
  }

  lemma {:induction false} EncodeOneMore(ends: seq<Endpoint>, e: Endpoint)
    ensures EncodeAll(Wrap(ends + [e])) == EncodeAll(Wrap(ends)) + ([IPV4] + e)
  {
    assert Wrap(ends + [e]) == Wrap(ends) + [Ip4(e)];
    EncodeAppend(Wrap(ends), [Ip4(e)]);
    assert [Ip4(e)][1..] == [];
    assert EncodeAll([Ip4(e)]) == Encode(Ip4(e)) + [];
  }

  /** One item at the end of the list buffer. */
  method Append(buf: array<Byte>, size: nat, e: Endpoint, ghost ends: seq<Endpoint>) returns (size': nat)
    requires size + ITEM_IPV4 <= buf.Length && buf[..size] == EncodeAll(Wrap(ends))
    modifies buf
    ensures size' == size + ITEM_IPV4 && buf[..size'] == EncodeAll(Wrap(ends + [e]))
  {
    var item := [IPV4] + e;
    EncodeOneMore(ends, e);
    CopyBehind(buf, size, item);
    size' := size + ITEM_IPV4;
  }

  lemma {:induction false} EligibleAppend(a: seq<Neighbour>, b: seq<Neighbour>, r: Option<Endpoint>)
    ensures Eligible(a + b, r) == Eligible(a, r) + Eligible(b, r)
  {
    if a == [] {
      assert a + b == b;
    } else {
      assert (a + b)[0] == a[0] && (a + b)[1..] == a[1..] + b;
      EligibleAppend(a[1..], b, r);
    }
  }

  lemma {:induction false} EligibleSplit(ns: seq<Neighbour>, k: nat, r: Option<Endpoint>)
    requires k < |ns|
    ensures Eligible(ns[..k + 1], r) ==
            if ns[k].OtherKind? || r == Some(ns[k].end) then Eligible(ns[..k], r)
            else Eligible(ns[..k], r) + [ns[k].end]
  {
    assert ns[..k + 1] == ns[..k] + [ns[k]];
    EligibleAppend(ns[..k], [ns[k]], r);
    assert [ns[k]][1..] == [];
  }

  /** The loop ends at the end of the neighbours or with the list full. */
  lemma {:induction false} NamedPrefix(own: Endpoint, ns: seq<Neighbour>, r: Option<Endpoint>, k: nat,
        ends: seq<Endpoint>)
    requires k <= |ns| && ends == [own] + Eligible(ns[..k], r)
    requires |ends| <= 1 + MAX_NEIGHBOURS && (k == |ns| || |ends| == 1 + MAX_NEIGHBOURS)
    ensures ends == Named(own, ns, r)
  {
    assert ns == ns[..k] + ns[k..];
    EligibleAppend(ns[..k], ns[k..], r);
  }

  lemma {:induction false} ChosenNext(own: Endpoint, ns: seq<Neighbour>, r: Option<Endpoint>, k: nat,
        ends: seq<Endpoint>)
    requires k < |ns| && ends == [own] + Eligible(ns[..k], r)
    ensures [own] + Eligible(ns[..k + 1], r) ==
            if ns[k].Known4? && r != Some(ns[k].end) then ends + [ns[k].end] else ends
  {
    EligibleSplit(ns, k, r);
  }

  /** The list of procmsg_NODELISTREQ: whatever the number of neighbours, a multiple of 7 octets, at most 65534 of
      them, so that the 16-bit length and the buffer hold it; the bound of 65532 in the program is overrun by 2. */
  method WriteList(own: Endpoint, ns: seq<Neighbour>, requester: Option<Endpoint>) returns (list: seq<Byte>)
    ensures list == EncodeAll(Wrap(Named(own, ns, requester)))
    ensures |list| % ITEM_IPV4 == 0 && ITEM_IPV4 <= |list| <= 65534
  {
    var buf := new Byte[LIST_BUFFER];
    var size := Append(buf, 0, own, []);
    ghost var ends: seq<Endpoint> := [] + [own];
    var k := 0;
    while k < |ns| && size < LIMIT
      invariant k <= |ns| && size == ITEM_IPV4 * |ends| && size <= 65534
      invariant ends == [own] + Eligible(ns[..k], requester)
      invariant buf[..size] == EncodeAll(Wrap(ends))
    {
      ChosenNext(own, ns, requester, k, ends);
      if ns[k].Known4? && requester != Some(ns[k].end) {
        size := Append(buf, size, ns[k].end, ends);
        ends := ends + [ns[k].end];
      }
      k := k + 1;
    }
    NamedPrefix(own, ns, requester, k, ends);
    list := buf[..size];
  }

  // ---------------------------------------------------------------------------------------------------
  // Reading a list in the client
  // ---------------------------------------------------------------------------------------------------

  /** What is found at a position of the read buffer: an item, an unknown kind, or an item that reaches beyond the
      buffer, of which nothing is known. */
  datatype Found = Whole(item: Item) | UnknownKind | Beyond

  function ItemAt(m: seq<Byte>, pos: nat): Found {
    if pos >= |m| then Beyond
    else if m[pos] == IPV4 then (if pos + ITEM_IPV4 > |m| then Beyond else Whole(Ip4(m[pos + 1..pos + 7])))
    else if m[pos] == IPV6 then (if pos + ITEM_IPV6 > |m| then Beyond else Whole(Ip6(m[pos + 1..pos + 19])))
    else if m[pos] == DNS then
      if pos + 1 >= |m| then Beyond
      else
        var end := pos + 2 + m[pos + 1];
        if end + 2 > |m| then Beyond else Whole(Host(m[pos + 2..end], m[end..end + 2]))
    else UnknownKind
  }

  /** How far the loop moves on behind an item. */
  function Size(i: Item): nat {
    match i
    case Ip4(_) => ITEM_IPV4
    case Ip6(_) => ITEM_IPV6
    case Host(n, _) => 4 + |n|
  }

  lemma {:induction false} SizeIsLength(i: Item)
    ensures |Encode(i)| == Size(i) > 0
  {
  }

  datatype Verdict = Accepted | Refused | Overread

  /** The addresses reported and how the loop ended. */
  datatype Report = Report(items: seq<Item>, verdict: Verdict)

  /** What is reported from a position on, behind the items reported so far, of a message of nb octets at the beginning
      of the buffer contents m.  The loop tests its end after an item: a list without items is read as if it had one. */
  function ItemsFrom(items: seq<Item>, m: seq<Byte>, pos: nat, nb: nat): Report
    requires pos <= nb <= |m|
    decreases nb - pos
  {
    match ItemAt(m, pos)
    case Beyond => Report(items, Overread)
    case UnknownKind => Report(items, Refused)
    case Whole(i) =>
      if pos + Size(i) < nb then ItemsFrom(items + [i], m, pos + Size(i), nb) else Report(items + [i], Accepted)
  }

  /** The switch of procmsg_CLNODELIST. */
  method ReadItem(m: seq<Byte>, pos: nat) returns (found: Found, size: nat)
    ensures found == ItemAt(m, pos) && (found.Whole? ==> size == Size(found.item))
  {
    if pos >= |m| {
      return Beyond, 0;
    }
    if m[pos] == IPV4 {
      size := ITEM_IPV4;
    } else if m[pos] == IPV6 {
      size := ITEM_IPV6;
    } else if m[pos] == DNS {
      if pos + 1 >= |m| {
        return Beyond, 0;
      }
      size := m[pos + 1];
      size := 4 + size;
    } else {
      return UnknownKind, 0;
    }
    if pos + size > |m| {
      return Beyond, 0;
    }
    if m[pos] == DNS {
      var end := pos + size - 2;
      return Whole(Host(m[pos + 2..end], m[end..end + 2])), size;
    }
    return Whole(if m[pos] == IPV4 then Ip4(m[pos + 1..pos + 7]) else Ip6(m[pos + 1..pos + 19])), size;
  }

  /** procmsg_CLNODELIST */
  method ReadInClient(m: seq<Byte>, nb: nat) returns (items: seq<Item>, verdict: Verdict)
    requires 4 <= nb <= |m|
    ensures Report(items, verdict) == ItemsFrom([], m, 4, nb)
  {
    var pos: nat := 4;
    items := [];
    while true
      invariant pos <= nb && ItemsFrom(items, m, pos, nb) == ItemsFrom([], m, 4, nb)
      decreases nb - pos
    {
      var found, size := ReadItem(m, pos);
      if !found.Whole? {
        return items, if found.Beyond? then Overread else Refused;
      }
      items := items + [found.item];
      if pos + size >= nb {
        return items, Accepted;
      }
      pos := pos + size;
    }
  }

  lemma {:induction false} ItemReadsBack(m: seq<Byte>, pos: nat, i: Item)
    requires pos + |Encode(i)| <= |m| && m[pos..pos + |Encode(i)|] == Encode(i)
    ensures ItemAt(m, pos) == Whole(i)
  {
    var n := |Encode(i)|;
    assert m[pos] == m[pos..pos + n][0] && m[pos + 1] == m[pos..pos + n][1];
    match i
    case Ip4(x) =>
      Within(m, pos, n, 1, 7);
      assert Encode(i)[1..7] == x;
    case Ip6(x) =>
      Within(m, pos, n, 1, 19);
      assert Encode(i)[1..19] == x;
    case Host(name, p) => HostReadsBack(m, pos, name, p);
  }

  lemma {:induction false} HostReadsBack(m: seq<Byte>, pos: nat, name: HostName, p: Port)
    requires pos + 4 + |name| <= |m| && m[pos..pos + 4 + |name|] == [DNS, |name|] + name + p
    ensures ItemAt(m, pos) == Whole(Host(name, p))
  {
    var n, e := 4 + |name|, [DNS, |name|] + name + p;
    Within(m, pos, n, 0, 2);
    Within(m, pos, n, 2, 2 + |name|);
    Within(m, pos, n, 2 + |name|, n);
    assert e[0..2] == [DNS, |name|] && e[2..2 + |name|] == name && e[2 + |name|..n] == p;
    assert m[pos] == m[pos + 0..pos + 2][0] && m[pos + 1] == m[pos + 0..pos + 2][1];
  }

  lemma {:induction false} Within(m: seq<Byte>, pos: nat, n: nat, a: nat, b: nat)
    requires a <= b <= n && pos + n <= |m|
    ensures m[pos + a..pos + b] == m[pos..pos + n][a..b]
  {
    var x, y := m[pos + a..pos + b], m[pos..pos + n][a..b];
    assert |x| == |y| && forall i :: 0 <= i < |x| ==> x[i] == y[i];
  }

  /** The octets of the message from a position to its end are those of the items. */
  predicate Holds(m: seq<Byte>, pos: nat, nb: nat, items: seq<Item>) {
    nb <= |m| && nb == pos + |EncodeAll(items)| && m[pos..nb] == EncodeAll(items)
  }

  lemma {:induction false} FirstReadsBack(m: seq<Byte>, pos: nat, nb: nat, items: seq<Item>) returns (n: nat)
    requires items != [] && Holds(m, pos, nb, items)
    ensures ItemAt(m, pos) == Whole(items[0]) && n == Size(items[0])
    ensures pos + n <= nb <= |m| && Holds(m, pos + n, nb, items[1..])
    ensures |items| > 1 <==> pos + n < nb
  {
    var e, rest := Encode(items[0]), EncodeAll(items[1..]);
    n := |e|;
    SizeIsLength(items[0]);
    Split(m, pos, nb, e, rest);
    ItemReadsBack(m, pos, items[0]);
    if |items| > 1 {
      NotEmpty(items[1..]);
    }
  }

  lemma {:induction false} StepOver(before: seq<Item>, m: seq<Byte>, pos: nat, nb: nat, i: Item, n: nat)
    requires pos + n <= nb <= |m| && ItemAt(m, pos) == Whole(i) && n == Size(i)
    ensures ItemsFrom(before, m, pos, nb) ==
            if pos + n < nb then ItemsFrom(before + [i], m, pos + n, nb) else Report(before + [i], Accepted)
  {
  }

  /** Whatever follows the message in the buffer, the client reports the items of the list, in order. */
  lemma {:induction false} ClientReadsBack(before: seq<Item>, m: seq<Byte>, pos: nat, nb: nat, items: seq<Item>)
    requires items != [] && Holds(m, pos, nb, items)
    ensures ItemsFrom(before, m, pos, nb) == Report(before + items, Accepted)
  {
    ReadsOn(before, m, pos, nb, items, before + items);
  }

  lemma {:induction false} ReadsOn(before: seq<Item>, m: seq<Byte>, pos: nat, nb: nat, items: seq<Item>,
                                   all: seq<Item>)
    requires items != [] && Holds(m, pos, nb, items) && all == before + items
    ensures ItemsFrom(before, m, pos, nb) == Report(all, Accepted)
    decreases |items|
  {
    var n := FirstReadsBack(m, pos, nb, items);
    StepOver(before, m, pos, nb, items[0], n);
    Regroup(before, items);
    if pos + n < nb {
      ReadsOn(before + [items[0]], m, pos + n, nb, items[1..], all);
    }
  }

  lemma {:induction false} Regroup(before: seq<Item>, items: seq<Item>)
    requires items != []
    ensures before + [items[0]] + items[1..] == before + items
    ensures |items| == 1 ==> before + [items[0]] == before + items
  {
  }

  lemma {:induction false} Split(m: seq<Byte>, pos: nat, nb: nat, a: seq<Byte>, b: seq<Byte>)
    requires pos <= nb <= |m| && m[pos..nb] == a + b
    ensures nb == pos + |a| + |b| && m[pos..pos + |a|] == a && m[pos + |a|..nb] == b
  {
    assert m[pos..nb][..|a|] == a && m[pos..nb][|a|..] == b;
  }

  lemma {:induction false} NotEmpty(items: seq<Item>)
    requires items != []
    ensures EncodeAll(items) != []
  {
  }

  // ---------------------------------------------------------------------------------------------------
  // Reading a list in a node
  // ---------------------------------------------------------------------------------------------------

  /** procmsg_NODELIST comes to the end of the list, meets an item it does not know and never moves on, or reads past
      the end of the list. */
  datatype NodeReport = Done(ends: seq<Endpoint>) | Stuck(ends: seq<Endpoint>) | Overrun(ends: seq<Endpoint>)

  function Before(e: Endpoint, r: NodeReport): NodeReport {
    r.(ends := [e] + r.ends)
  }

  function NodeItems(list: seq<Byte>): NodeReport {
    if list == [] then Done([])
    else if list[0] != IPV4 then Stuck([])
    else if |list| < ITEM_IPV4 then Overrun([])
    else Before(list[1..ITEM_IPV4], NodeItems(list[ITEM_IPV4..]))
  }

  /** What is read before the position and what is still to be read from it make up the whole. */
  ghost predicate ReadSoFar(list: seq<Byte>, at: nat, got: seq<Endpoint>) {
    at <= |list| &&
    var whole, rest := NodeItems(list), NodeItems(list[at..]);
    whole.ends == got + rest.ends && (whole.Done? <==> rest.Done?)
  }

  lemma {:induction false} ReadOne(list: seq<Byte>, at: nat, got: seq<Endpoint>)
    requires ReadSoFar(list, at, got) && at + ITEM_IPV4 <= |list| && list[at] == IPV4
    ensures ReadSoFar(list, at + ITEM_IPV4, got + [list[at + 1..at + ITEM_IPV4]])
  {
    var rest := list[at..];
    assert rest[ITEM_IPV4..] == list[at + ITEM_IPV4..];
    assert rest[1..ITEM_IPV4] == list[at + 1..at + ITEM_IPV4];
  }

  lemma {:induction false} ReadNoMore(list: seq<Byte>, at: nat, got: seq<Endpoint>)
    requires ReadSoFar(list, at, got)
    requires at < |list| ==> list[at] != IPV4 || at + ITEM_IPV4 > |list|
    ensures NodeItems(list).ends == got && (NodeItems(list).Done? <==> at == |list|)
  {
  }

  /** PICA_is_reserved_addr_ipv4: the ranges no node on the Internet is reached at. */
  predicate Reserved(e: Endpoint) {
    || e[0] == 0 || e[0] == 10 || e[0] == 127
    || (e[0] == 169 && e[1] == 254) || (e[0] == 172 && 16 <= e[1] < 32) || (e[0] == 192 && e[1] == 168)
    || e[0] >= 224
  }

  /** The addresses a node saves, in order: with `skip` set (disable_reserved_addrs) those not reserved, else all. */
  function Kept(ends: seq<Endpoint>, skip: bool): (r: seq<Endpoint>)
    ensures forall e :: e in r <==> e in ends && !(skip && Reserved(e))
    ensures !skip ==> r == ends
  {
    if ends == [] then []
    else
      var last := ends[|ends| - 1];
      assert ends == ends[..|ends| - 1] + [last];
      Kept(ends[..|ends| - 1], skip) + if skip && Reserved(last) then [] else [last]
  }

  lemma {:induction false} KeptMore(ends: seq<Endpoint>, e: Endpoint, skip: bool)
    ensures Kept(ends + [e], skip) == Kept(ends, skip) + if skip && Reserved(e) then [] else [e]
  {
    assert (ends + [e])[..|ends|] == ends;
  }

  /** What a node makes of the addresses read: the first is the sender's own, the others are kept. */
  ghost predicate TakenFrom(ends: seq<Endpoint>, skip: bool, sender: Option<Endpoint>, saved: seq<Endpoint>) {
    if ends == [] then sender.None? && saved == []
    else sender == Some(ends[0]) && saved == Kept(ends[1..], skip)
  }

  lemma {:induction false} OneMoreSaved(ends: seq<Endpoint>, e: Endpoint, skip: bool, saved: seq<Endpoint>)
    requires ends != [] && TakenFrom(ends, skip, Some(ends[0]), saved)
    ensures TakenFrom(ends + [e], skip, Some(ends[0]), saved + if skip && Reserved(e) then [] else [e])
  {
    KeptMore(ends[1..], e, skip);
    assert (ends + [e])[1..] == ends[1..] + [e];
  }

  /** procmsg_NODELIST: the first address is the sender's own; the others are saved unless they are to be skipped. */
  method ReadInNode(list: seq<Byte>, skip: bool)
    returns (sender: Option<Endpoint>, saved: seq<Endpoint>, ok: bool)
    ensures ok <==> NodeItems(list).Done?
    ensures TakenFrom(NodeItems(list).ends, skip, sender, saved)
  {
    sender, saved := None, [];
    var left: nat := |list|;
    ghost var got: seq<Endpoint> := [];
    assert list[0..] == list;
    while left > 0
      invariant left <= |list| && ReadSoFar(list, |list| - left, got)
      invariant (got == [] <==> left == |list|) && TakenFrom(got, skip, sender, saved)
    {
      var at := |list| - left;
      if list[at] != IPV4 || left < ITEM_IPV4 {
        ReadNoMore(list, at, got);
        return sender, saved, false;
      }
      var e: Endpoint := list[at + 1..at + ITEM_IPV4];
      ReadOne(list, at, got);
      if left == |list| {
        sender := Some(e);
      } else {
        OneMoreSaved(got, e, skip, saved);
        saved := saved + if skip && Reserved(e) then [] else [e];
      }
      got := got + [e];
      left := left - ITEM_IPV4;
    }
    ReadNoMore(list, |list|, got);
    ok := true;
  }

  lemma {:induction false} NodeReadsBack(ends: seq<Endpoint>)
    ensures NodeItems(EncodeAll(Wrap(ends))) == Done(ends)
  {
    if ends != [] {
      WrapRest(ends);
      var list, rest := EncodeAll(Wrap(ends)), EncodeAll(Wrap(ends[1..]));
      assert list == ([IPV4] + ends[0]) + rest;
      assert list[1..ITEM_IPV4] == ends[0] && list[ITEM_IPV4..] == rest;
      NodeReadsBack(ends[1..]);
      assert [ends[0]] + ends[1..] == ends;
    }
  }

  predicate TaggedAt(list: seq<Byte>, k: nat) {
    ITEM_IPV4 * k < |list| ==> list[ITEM_IPV4 * k] == IPV4
  }

  /** A node comes to the end of a list if and only if it consists of whole IPv4 items. */
  lemma {:induction false} NodeHaltsExactlyOnWholeItems(list: seq<Byte>)
    ensures NodeItems(list).Done? <==> |list| % ITEM_IPV4 == 0 && forall k: nat :: TaggedAt(list, k)
  {
    if list != [] && list[0] == IPV4 && |list| >= ITEM_IPV4 {
      var rest := list[ITEM_IPV4..];
      NodeHaltsExactlyOnWholeItems(rest);
      if forall k: nat :: TaggedAt(rest, k) {
        forall k: nat
          ensures TaggedAt(list, k)
        {
          assert k > 0 ==> TaggedAt(rest, k - 1);
        }
      }
      if forall k: nat :: TaggedAt(list, k) {
        forall k: nat
          ensures TaggedAt(rest, k)
        {
          assert TaggedAt(list, k + 1);
        }
      }
    } else if list != [] && list[0] != IPV4 {
      assert !TaggedAt(list, 0);
    }
  }

  /** A list of one IPv6 item never ends, and one cut short is read past its end. */
  lemma {:induction false} SomeListsDoNotEnd(e: Endpoint6, part: seq<Byte>)
    requires |part| < 6
    ensures NodeItems(Encode(Ip6(e))) == Stuck([]) && NodeItems([IPV4] + part) == Overrun([])
  {
  }

  // ---------------------------------------------------------------------------------------------------
  // From one end to the other
  // ---------------------------------------------------------------------------------------------------

  const CLNODELIST: Byte := 0x0A

  /** The message that carries a list. */
  function Frame(id: Byte, list: seq<Byte>): seq<Byte>
    requires |list| < 65536
  {
    [id, id, |list| % 256, |list| / 256] + list
  }

  lemma {:induction false} NamedLength(own: Endpoint, ns: seq<Neighbour>, r: Option<Endpoint>)
    ensures |Named(own, ns, r)| == 1 + if |Eligible(ns, r)| <= MAX_NEIGHBOURS then |Eligible(ns, r)| else MAX_NEIGHBOURS
  {
  }

  /** Both readers get exactly the addresses the writer named, in order. */
  lemma {:induction false} ListArrives(own: Endpoint, ns: seq<Neighbour>, r: Option<Endpoint>, after: seq<Byte>)
    ensures var ends := Named(own, ns, r);
            var list := EncodeAll(Wrap(ends));
            && |list| < 65536
            && ItemsFrom([], Frame(CLNODELIST, list) + after, 4, 4 + |list|) == Report(Wrap(ends), Accepted)
            && NodeItems(list) == Done(ends)
  {
    var ends := Named(own, ns, r);
    var list := EncodeAll(Wrap(ends));
    NamedLength(own, ns, r);
    EncodedLength(ends);
    NodeReadsBack(ends);
    var m := Frame(CLNODELIST, list) + after;
    assert m[4..4 + |list|] == list;
    ClientReadsBack([], m, 4, 4 + |list|, Wrap(ends));
  }

  lemma {:induction false} TwoOctets(s: seq<Byte>)
    requires |s| == 2
    ensures Framing.LittleEndian(s) == s[0] as int + 256 * s[1] as int
  {
    var tail := s[1..];
    assert tail[1..] == [] && tail[0] == s[1];
    assert Framing.LittleEndian(tail) == s[1];
  }

  /** The declared size of the message is its real size. */
  lemma {:induction false} FrameSize(t: Framing.Table, list: seq<Byte>, b: seq<Byte>)
    requires Framing.FindRow(t, CLNODELIST) == Some(Framing.MsgInfo(CLNODELIST, Framing.VarSize, 2))
    requires |list| < 65536 && 4 <= |b| && b <= Frame(CLNODELIST, list)
    ensures Framing.Decide(t, b) == Framing.Known(4 + |list|)
  {
    var f := Frame(CLNODELIST, list);
    assert b[..4] == f[..4] == [CLNODELIST, CLNODELIST, |list| % 256, |list| / 256];
    assert b[0] == b[..4][0] && b[1] == b[..4][1] && b[2] == b[..4][2] && b[3] == b[..4][3];
    TwoOctets(b[2..4]);
  }

  /** The client's read buffer is wedged by the list if and only if the node had neighbours for a full one: the
      message is then 65538 octets long, two more than the buffer holds. */
  lemma {:induction false} ListWedgesClientExactlyWhenFull<S>(t: Framing.Table, h: Framing.Handler<S>, s: S,
                                           own: Endpoint, ns: seq<Neighbour>, r: Option<Endpoint>, b: seq<Byte>)
    requires Framing.ValidTable(t)
    requires Framing.FindRow(t, CLNODELIST) == Some(Framing.MsgInfo(CLNODELIST, Framing.VarSize, 2))
    requires |EncodeAll(Wrap(Named(own, ns, r)))| < 65536
    requires var f := Frame(CLNODELIST, EncodeAll(Wrap(Named(own, ns, r))));
             b == f[..if |f| <= READ_BUFFER then |f| else READ_BUFFER]
    requires Framing.Drain(t, h, s, b).ok
    ensures |Framing.Drain(t, h, s, b).rest| == READ_BUFFER <==> |Eligible(ns, r)| >= MAX_NEIGHBOURS
  {
    var ends := Named(own, ns, r);
    var list := EncodeAll(Wrap(ends));
    NamedLength(own, ns, r);
    EncodedLength(ends);
    FrameSize(t, list, b);
    Framing.WedgedExactlyWhenOversized(t, h, s, b, READ_BUFFER);
  }
}
