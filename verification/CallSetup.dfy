/** Call setup across any number of nodes: each runs the router of `Router`, and what one pushes to another is
    delivered in order, or lost with the connection.  Each user logs in at one node, its home.

    The log notes when a callee's CONNALLOW was taken, when its CONNID was accepted, and when FOUND was pushed to
    the caller; the result is that these happen in this order for every call there ever was. */
module CallSetup {
  import opened Memory
  import opened Router

  /** `sent[n]` is what node n has pushed and what is still on its way. */
  datatype Net = Net(nodes: map<NodeId, Node>, sent: map<NodeId, seq<Out>>, log: seq<Entry>)

  datatype Step =
    | At(n: NodeId, ev: Event)
    | Deliver(from: NodeId, i: nat)
    | Lose(from: NodeId, i: nat)

  /** The i-th message on its way from a node is the first one for its destination. */
  predicate IsNext(queue: seq<Out>, i: nat) {
    i < |queue| && queue[i].ToNode? && forall j :: 0 <= j < i && queue[j].ToNode? ==> queue[j].n != queue[i].n
  }

  predicate Complete(net: Net) {
    net.sent.Keys == net.nodes.Keys
  }

  ghost predicate Enabled(home: User -> NodeId, net: Net, step: Step) {
    Complete(net) &&
    match step
    case At(n, ev) =>
      && n in net.nodes && Possible(net.nodes[n], ev) && !ev.FromNode?
      && (ev.Login? ==> home(ev.x) == n)
      && (ev.NodeUp? ==> ev.m in net.nodes && ev.m != n)
    case Deliver(from, i) =>
      && from in net.nodes && IsNext(net.sent[from], i)
      && var o := net.sent[from][i];
         o.n in net.nodes && Possible(net.nodes[o.n], FromNode(from, o.nm))
    case Lose(from, i) => from in net.nodes && i < |net.sent[from]|
  }

  function Drop(queue: seq<Out>, i: nat): seq<Out>
    requires i < |queue|
  {
    queue[..i] + queue[i + 1..]
  }

  function Handled(net: Net, n: NodeId, r: Result): Net
    requires n in net.sent
  {
    Net(net.nodes[n := r.node], net.sent[n := net.sent[n] + r.out], net.log + r.log)
  }

  ghost function Next(home: User -> NodeId, net: Net, step: Step): Net
    requires Enabled(home, net, step)
  {
    match step
    case At(n, ev) => Handled(net, n, React(net.nodes[n], ev))
    case Deliver(from, i) =>
      var o := net.sent[from][i];
      Handled(net.(sent := net.sent[from := Drop(net.sent[from], i)]), o.n, React(net.nodes[o.n], FromNode(from, o.nm)))
    case Lose(from, i) => net.(sent := net.sent[from := Drop(net.sent[from], i)])
  }

  // ---------------------------------------------------------------------------------------------------
  // Homes
  // ---------------------------------------------------------------------------------------------------

  /** A call taken from another node came from the caller's home. */
  ghost predicate LinkHome(home: User -> NodeId, id: NodeId, l: Link) {
    FamilyOf(l.state) == CalleeHere ==> l.callerNode == Some(home(l.caller)) && home(l.caller) != id
  }

  ghost predicate NodeHome(home: User -> NodeId, id: NodeId, n: Node) {
    && n.me == id && !n.fault
    && (forall x :: x in n.users ==> home(x) == id)
    && id !in n.peers
    && (forall i :: 0 <= i < |n.links| ==> LinkHome(home, id, n.links[i]))
  }

  /** What a message between nodes says about the homes of its users. */
  ghost predicate MsgHome(home: User -> NodeId, from: NodeId, to: NodeId, m: NodeMsg) {
    from != to &&
    match m
    case N2NConnReq(x, _) => home(x) == from
    case N2NAllow(x, y) => home(x) == to && home(y) == from
    case N2NNotFound(x, _) => home(x) == to
    case _ => true
  }

  ghost predicate OutHome(home: User -> NodeId, from: NodeId, o: Out) {
    o.ToNode? ==> MsgHome(home, from, o.n, o.nm)
  }

  ghost predicate EventHome(home: User -> NodeId, id: NodeId, ev: Event) {
    && (ev.Login? ==> home(ev.x) == id)
    && (ev.NodeUp? ==> ev.m != id)
    && (ev.FromNode? ==> MsgHome(home, ev.from, id, ev.nm))
  }

  /** The record that a message from another node finds for a caller of this node has a local caller: it is a call
      to another node, and its client is there to be told. */
  lemma {:induction false} FindsOwnCall(home: User -> NodeId, id: NodeId, n: Node, x: User, y: User)
    requires NodeInv(n) && NodeHome(home, id, n) && home(x) == id && Find(n.links, x, y) < |n.links|
    ensures var l := n.links[Find(n.links, x, y)];
            l.p1.Some? && (home(y) != id ==> FamilyOf(l.state) == CallerHere)
  {
  }

  lemma {:induction false} BroadcastSearches(peers: seq<NodeId>, y: User)
    ensures forall o :: o in Broadcast(peers, y) ==> o.ToNode? && o.nm.Search? && o.n in peers
  {
    if peers != [] {
      BroadcastSearches(peers[1..], y);
    }
  }

  /** A request goes to the node that answered, for a caller whose record waits. */
  lemma {:induction false} RequestsOnly(links: seq<Link>, y: User, from: NodeId)
    ensures forall o :: o in Requests(links, y, from) ==>
              && o.ToNode? && o.n == from && o.nm.N2NConnReq?
              && exists i :: 0 <= i < |links| && WaitsFor(links[i], y) && links[i].caller == o.nm.x
  {
    if links != [] {
      RequestsOnly(links[1..], y, from);
      forall o | o in Requests(links[1..], y, from)
        ensures exists i :: 0 <= i < |links| && WaitsFor(links[i], y) && links[i].caller == o.nm.x
      {
        var i :| 0 <= i < |links[1..]| && WaitsFor(links[1..][i], y) && links[1..][i].caller == o.nm.x;
        assert links[i + 1] == links[1..][i];
      }
    }
  }

  lemma {:induction false} SubsetHome(home: User -> NodeId, id: NodeId, links: seq<Link>, kept: seq<Link>)
    requires forall i :: 0 <= i < |links| ==> LinkHome(home, id, links[i])
    requires forall l :: l in kept ==> l in links
    ensures forall i :: 0 <= i < |kept| ==> LinkHome(home, id, kept[i])
  {
    forall i | 0 <= i < |kept|
      ensures LinkHome(home, id, kept[i])
    {
      assert kept[i] in kept;
    }
  }

  ghost predicate ResultHome(home: User -> NodeId, id: NodeId, r: Result) {
    NodeHome(home, id, r.node) && forall o :: o in r.out ==> OutHome(home, id, o)
  }

  lemma {:induction false} ReqOutgHome(home: User -> NodeId, id: NodeId, n: Node, x: User, y: User)
    requires NodeInv(n) && NodeHome(home, id, n) && x in n.users
    ensures ResultHome(home, id, OnConnReqOutg(n, x, y))
  {
    BroadcastSearches(n.peers, y);
  }

  lemma {:induction false} DenyHome(home: User -> NodeId, id: NodeId, n: Node, x: User, y: User)
    requires NodeInv(n) && NodeHome(home, id, n)
    ensures ResultHome(home, id, OnConnDeny(n, x, y))
  {
    var i := Find(n.links, x, y);
    if i < |n.links| {
      assert LinkInv(n, n.links[i]) && LinkHome(home, id, n.links[i]);
    }
  }

  lemma {:induction false} ShutdownHome(home: User -> NodeId, id: NodeId, n: Node, i: nat)
    requires NodeInv(n) && NodeHome(home, id, n) && i < |n.links|
    ensures ResultHome(home, id, OnShutdown(n, i))
  {
    assert LinkInv(n, n.links[i]) && LinkHome(home, id, n.links[i]);
  }

  lemma {:induction false} ProgressHome(home: User -> NodeId, id: NodeId, n: Node, x: User, y: User, ipOk: bool)
    requires NodeInv(n) && NodeHome(home, id, n)
    ensures ResultHome(home, id, OnConnAllow(n, x, y)) && ResultHome(home, id, OnConnId(n, x, y, ipOk))
  {
    var i := Find(n.links, x, y);
    if i < |n.links| {
      assert LinkHome(home, id, n.links[i]);
    }
  }

  lemma {:induction false} FoundHome(home: User -> NodeId, id: NodeId, n: Node, from: NodeId, y: User)
    requires NodeInv(n) && NodeHome(home, id, n) && from != id
    ensures ResultHome(home, id, OnNodeMsg(n, from, N2NFound(y)))
  {
    forall i | 0 <= i < |n.links| && WaitsFor(n.links[i], y)
      ensures home(n.links[i].caller) == id
    {
      assert LinkInv(n, n.links[i]);
    }
    RequestsOnly(n.links, y, from);
    forall i | 0 <= i < |n.links|
      ensures LinkHome(home, id, Attach(n.links, y, from)[i])
    {
      assert LinkHome(home, id, n.links[i]);
    }
  }

  lemma {:induction false} AnswerHome(home: User -> NodeId, id: NodeId, n: Node, from: NodeId, m: NodeMsg)
    requires NodeInv(n) && NodeHome(home, id, n) && MsgHome(home, from, id, m) && (m.N2NAllow? || m.N2NNotFound?)
    ensures ResultHome(home, id, OnNodeMsg(n, from, m))
  {
    var i := Find(n.links, m.x, m.y);
    if i < |n.links| {
      FindsOwnCall(home, id, n, m.x, m.y);
      assert LinkHome(home, id, n.links[i]);
    }
  }

  lemma {:induction false} NodeMsgHome(home: User -> NodeId, id: NodeId, n: Node, from: NodeId, m: NodeMsg)
    requires NodeInv(n) && NodeHome(home, id, n) && MsgHome(home, from, id, m)
    ensures ResultHome(home, id, OnNodeMsg(n, from, m))
  {
    match m {
      case Search(_) =>
      case N2NFound(y) => FoundHome(home, id, n, from, y);
      case N2NConnReq(_, _) =>
      case N2NAllow(_, _) => AnswerHome(home, id, n, from, m);
      case N2NNotFound(_, _) => AnswerHome(home, id, n, from, m);
    }
  }

  lemma {:induction false} EventKeepsHome(home: User -> NodeId, id: NodeId, n: Node, ev: Event)
    requires NodeInv(n) && NodeHome(home, id, n) && Possible(n, ev) && EventHome(home, id, ev)
    ensures ResultHome(home, id, React(n, ev))
  {
    match ev {
      case FromNode(from, m) => NodeMsgHome(home, id, n, from, m);
      case Logout(x, heir) =>
        KeepMembers(n.links, NotOfClient(n.users[x]));
        SubsetHome(home, id, n.links, React(n, ev).node.links);
      case NodeDown(m) =>
        KeepMembers(n.links, NotOfNode(m));
        SubsetHome(home, id, n.links, React(n, ev).node.links);
      case Tick(now) =>
        KeepMembers(n.links, InTimeAt(now));
        SubsetHome(home, id, n.links, React(n, ev).node.links);
      case ConnReqOutg(x, y) => ReqOutgHome(home, id, n, x, y);
      case ConnAllow(x, y) => ProgressHome(home, id, n, x, y, true);
      case ConnId(x, y, ipOk) => ProgressHome(home, id, n, x, y, ipOk);
      case ConnDeny(x, y) => DenyHome(home, id, n, x, y);
      case Shutdown(i) => ShutdownHome(home, id, n, i);
      case DropLink(i) =>
      case Login(_, _) =>
      case NodeUp(_) =>
    }
  }

  // ---------------------------------------------------------------------------------------------------
  // Counting: at a node, for a caller x and a callee y
  // ---------------------------------------------------------------------------------------------------

  /** 1: the callee has allowed the call and its connection is awaited; 2: its connection has been accepted and
      the caller not been told. */
  function Phase(s: LinkState): nat {
    if s == LOCAL_WAITCONNCLE || s == CLE_WAITCONNCLE then 1
    else if s == LOCAL_CLE_SHUTDOWN || s == CLE_SHUTDOWN then 2
    else 0
  }

  predicate Counts(l: Link, x: User, y: User, ph: nat) {
    Between(l, x, y) && Phase(l.state) == ph
  }

  function InPhase(links: seq<Link>, x: User, y: User, ph: nat): nat {
    if links == [] then 0 else (if Counts(links[0], x, y, ph) then 1 else 0) + InPhase(links[1..], x, y, ph)
  }

  function One(b: bool): nat {
    if b then 1 else 0
  }

  lemma {:induction false} InPhaseAppend(a: seq<Link>, b: seq<Link>, x: User, y: User, ph: nat)
    ensures InPhase(a + b, x, y, ph) == InPhase(a, x, y, ph) + InPhase(b, x, y, ph)
  {
    if a == [] {
      assert a + b == b;
    } else {
      assert (a + b)[1..] == a[1..] + b;
      InPhaseAppend(a[1..], b, x, y, ph);
    }
  }

  lemma {:induction false} InPhaseAt(links: seq<Link>, i: nat, x: User, y: User, ph: nat)
    requires i < |links|
    ensures InPhase(links, x, y, ph) ==
              InPhase(links[..i], x, y, ph) + One(Counts(links[i], x, y, ph)) + InPhase(links[i + 1..], x, y, ph)
  {
    assert links == links[..i] + ([links[i]] + links[i + 1..]);
    InPhaseAppend(links[..i], [links[i]] + links[i + 1..], x, y, ph);
    InPhaseAppend([links[i]], links[i + 1..], x, y, ph);
    assert [links[i]][1..] == [];
  }

  lemma {:induction false} InPhaseSet(links: seq<Link>, i: nat, l: Link, x: User, y: User, ph: nat)
    requires i < |links|
    ensures InPhase(links[i := l], x, y, ph) + One(Counts(links[i], x, y, ph)) ==
              InPhase(links, x, y, ph) + One(Counts(l, x, y, ph))
  {
    InPhaseAt(links, i, x, y, ph);
    InPhaseAt(links[i := l], i, x, y, ph);
    assert links[i := l][..i] == links[..i] && links[i := l][i + 1..] == links[i + 1..];
  }

  lemma {:induction false} InPhaseWithout(links: seq<Link>, i: nat, x: User, y: User, ph: nat)
    requires i < |links|
    ensures InPhase(Without(links, i), x, y, ph) <= InPhase(links, x, y, ph)
  {
    InPhaseAt(links, i, x, y, ph);
    InPhaseAppend(links[..i], links[i + 1..], x, y, ph);
  }

  lemma {:induction false} InPhaseKeep(links: seq<Link>, keep: Link -> bool, x: User, y: User, ph: nat)
    ensures InPhase(Keep(links, keep), x, y, ph) <= InPhase(links, x, y, ph)
  {
    if links != [] {
      InPhaseKeep(links[1..], keep, x, y, ph);
      InPhaseAppend(if keep(links[0]) then [links[0]] else [], Keep(links[1..], keep), x, y, ph);
    }
  }

  lemma {:induction false} InPhaseAttach(links: seq<Link>, z: User, from: NodeId, x: User, y: User, ph: nat)
    requires ph > 0
    ensures InPhase(Attach(links, z, from), x, y, ph) == InPhase(links, x, y, ph)
  {
    if links != [] {
      InPhaseAttach(links[1..], z, from, x, y, ph);
      assert Attach(links, z, from)[1..] == Attach(links[1..], z, from);
    }
  }

  /** What one reaction of node n changes: more calls in the first phase only by as many permissions, more calls in
      the second, told to the caller here or passed on to the caller's node `to`, only by as many connections. */
  ghost predicate Balanced(n: Node, r: Result, to: NodeId, x: User, y: User) {
    var log, out := multiset(r.log), multiset(r.out);
    && InPhase(r.node.links, x, y, 1) + log[Joined(n.me, x, y)] <= InPhase(n.links, x, y, 1) + log[Allowed(n.me, x, y)]
    && InPhase(r.node.links, x, y, 2) + log[Reported(n.me, x, y)] + out[ToNode(to, N2NAllow(x, y))]
         <= InPhase(n.links, x, y, 2) + log[Joined(n.me, x, y)]
  }

  lemma {:induction false} SetBalances(n: Node, i: nat, l: Link, x: User, y: User)
    requires i < |n.links|
    ensures forall ph :: ph == 1 || ph == 2 ==>
              InPhase(SetLink(n, i, l).links, x, y, ph) + One(Counts(n.links[i], x, y, ph)) ==
              InPhase(n.links, x, y, ph) + One(Counts(l, x, y, ph))
  {
    InPhaseSet(n.links, i, l, x, y, 1);
    InPhaseSet(n.links, i, l, x, y, 2);
  }

  lemma {:induction false} NothingBalances(n: Node, r: Result, to: NodeId, x: User, y: User)
    requires r.log == [] && ToNode(to, N2NAllow(x, y)) !in r.out
    requires forall ph :: ph == 1 || ph == 2 ==> InPhase(r.node.links, x, y, ph) <= InPhase(n.links, x, y, ph)
    ensures Balanced(n, r, to, x, y)
  {
  }

  /** One record moves, with at most one log entry and at most one message. */
  lemma {:induction false} MoveBalances(n: Node, i: nat, l: Link, log: seq<Entry>, out: seq<Out>, to: NodeId, x: User,
        y: User)
    requires i < |n.links| && |log| <= 1 && |out| <= 1
    requires One(Counts(l, x, y, 1)) + One(log == [Joined(n.me, x, y)]) <=
             One(Counts(n.links[i], x, y, 1)) + One(log == [Allowed(n.me, x, y)])
    requires One(Counts(l, x, y, 2)) + One(log == [Reported(n.me, x, y)]) + One(out == [ToNode(to, N2NAllow(x, y))]) <=
             One(Counts(n.links[i], x, y, 2)) + One(log == [Joined(n.me, x, y)])
    ensures Balanced(n, Result(SetLink(n, i, l), out, log), to, x, y)
  {
    SetBalances(n, i, l, x, y);
    Singleton(log, Joined(n.me, x, y));
    Singleton(log, Allowed(n.me, x, y));
    Singleton(log, Reported(n.me, x, y));
    Singleton(out, ToNode(to, N2NAllow(x, y)));
  }

  lemma {:induction false} Singleton<T>(s: seq<T>, e: T)
    requires |s| <= 1
    ensures multiset(s)[e] == One(s == [e])
  {
  }

  lemma {:induction false} AllowBalances(n: Node, x1: User, y1: User, to: NodeId, x: User, y: User)
    ensures Balanced(n, OnConnAllow(n, x1, y1), to, x, y)
  {
    var i := Find(n.links, x1, y1);
    var r := OnConnAllow(n, x1, y1);
    if r == Quiet(n) {
      NothingBalances(n, r, to, x, y);
    } else {
      MoveBalances(n, i, SetWaitConn(n.links[i]), r.log, r.out, to, x, y);
    }
  }

  lemma {:induction false} ConnIdBalances(n: Node, x1: User, y1: User, ipOk: bool, to: NodeId, x: User, y: User)
    ensures Balanced(n, OnConnId(n, x1, y1, ipOk), to, x, y)
  {
    var i := Find(n.links, x1, y1);
    if i < |n.links| && ipOk {
      var l := n.links[i];
      var joined := [Joined(n.me, x1, y1)];
      if l.state == LOCAL_WAITCONNCLE {
        MoveBalances(n, i, l.(state := LOCAL_CLE_SHUTDOWN, sck2 := true), joined, [], to, x, y);
      } else if l.state == LOCAL_WAITCONNCLR {
        MoveBalances(n, i, l.(state := LOCAL_CLR_SHUTDOWN, sck1 := true, bufs := true), [], [], to, x, y);
      } else if l.state == CLR_WAITCONNCLR {
        MoveBalances(n, i, l.(state := CLR_SHUTDOWN, sck1 := true, bufs := true), [], [], to, x, y);
      } else if l.state == CLE_WAITCONNCLE {
        MoveBalances(n, i, l.(state := CLE_SHUTDOWN, sck2 := true, bufs := true), joined, [], to, x, y);
      } else {
        NothingBalances(n, Quiet(n), to, x, y);
      }
    } else {
      NothingBalances(n, Quiet(n), to, x, y);
    }
  }

  lemma {:induction false} ShutdownBalances(n: Node, i: nat, to: NodeId, x: User, y: User)
    requires i < |n.links|
    ensures Balanced(n, OnShutdown(n, i), to, x, y)
  {
    var l := n.links[i];
    if l.state == LOCAL_CLE_SHUTDOWN && l.p1.Some? {
      MoveBalances(n, i, l.(state := LOCAL_WAITCONNCLR), [Reported(n.me, l.caller, l.callee)],
                   [ToClient(l.p1.value, Found(l.callee))], to, x, y);
    } else if l.state == LOCAL_CLR_SHUTDOWN {
      MoveBalances(n, i, l.(state := LOCAL_ACTIVE), [], [], to, x, y);
    } else if l.state == CLR_SHUTDOWN {
      MoveBalances(n, i, l.(state := CLR_ACTIVE), [], [], to, x, y);
    } else if l.state == CLE_SHUTDOWN && l.callerNode.Some? {
      MoveBalances(n, i, l.(state := CLE_ACTIVE), [],
                   [ToNode(l.callerNode.value, N2NAllow(l.caller, l.callee))], to, x, y);
    } else {
      NothingBalances(n, Quiet(n), to, x, y);
    }
  }

  lemma {:induction false} AddBalances(n: Node, l: Link, out: seq<Out>, to: NodeId, x: User, y: User)
    requires Phase(l.state) == 0 && ToNode(to, N2NAllow(x, y)) !in out
    ensures Balanced(n, Result(Add(n, l), out, []), to, x, y)
  {
    InPhaseAppend(n.links, [l], x, y, 1);
    InPhaseAppend(n.links, [l], x, y, 2);
    NothingBalances(n, Result(Add(n, l), out, []), to, x, y);
  }

  lemma {:induction false} ReqOutgBalances(n: Node, x1: User, y1: User, to: NodeId, x: User, y: User)
    requires x1 in n.users
    ensures Balanced(n, OnConnReqOutg(n, x1, y1), to, x, y)
  {
    var r := OnConnReqOutg(n, x1, y1);
    BroadcastSearches(n.peers, y1);
    if r.node == n {
      NothingBalances(n, r, to, x, y);
    } else {
      AddBalances(n, r.node.links[|n.links|], r.out, to, x, y);
    }
  }

  lemma {:induction false} DeletionBalances(n: Node, i: nat, out: seq<Out>, to: NodeId, x: User, y: User)
    requires i < |n.links| && ToNode(to, N2NAllow(x, y)) !in out
    ensures Balanced(n, Result(n.(links := Without(n.links, i)), out, []), to, x, y)
  {
    InPhaseWithout(n.links, i, x, y, 1);
    InPhaseWithout(n.links, i, x, y, 2);
    NothingBalances(n, Result(n.(links := Without(n.links, i)), out, []), to, x, y);
  }

  lemma {:induction false} KeepBalances(n: Node, n': Node, keep: Link -> bool, to: NodeId, x: User, y: User)
    requires n'.links == Keep(n.links, keep)
    ensures Balanced(n, Quiet(n'), to, x, y)
  {
    InPhaseKeep(n.links, keep, x, y, 1);
    InPhaseKeep(n.links, keep, x, y, 2);
    NothingBalances(n, Quiet(n'), to, x, y);
  }

  lemma {:induction false} DenyBalances(n: Node, x1: User, y1: User, to: NodeId, x: User, y: User)
    ensures Balanced(n, OnConnDeny(n, x1, y1), to, x, y)
  {
    var i := Find(n.links, x1, y1);
    if i < |n.links| {
      DeletionBalances(n, i, OnConnDeny(n, x1, y1).out, to, x, y);
    } else {
      NothingBalances(n, Quiet(n), to, x, y);
    }
  }

  /** A permission passed on by the callee's node reaches a call to another node, which is in no phase; the caller
      is told on that node's word and not on this one's. */
  lemma {:induction false} PassedOnBalances(home: User -> NodeId, n: Node, from: NodeId, x1: User, y1: User,
        to: NodeId, x: User, y: User)
    requires NodeInv(n) && NodeHome(home, n.me, n) && MsgHome(home, from, n.me, N2NAllow(x1, y1))
    ensures Balanced(n, OnNodeMsg(n, from, N2NAllow(x1, y1)), to, x, y)
  {
    var i := Find(n.links, x1, y1);
    if i < |n.links| {
      FindsOwnCall(home, n.me, n, x1, y1);
      var l := n.links[i];
      assert Phase(l.state) == 0 && Phase(SetWaitConn(l).state) == 0;
      MoveBalances(n, i, SetWaitConn(l), [Reported(from, x1, y1)], [ToClient(l.p1.value, Found(y1))], to, x, y);
    } else {
      NothingBalances(n, Quiet(n), to, x, y);
    }
  }

  lemma {:induction false} NotFoundBalances(home: User -> NodeId, n: Node, from: NodeId, x1: User, y1: User,
        to: NodeId, x: User, y: User)
    requires NodeInv(n) && NodeHome(home, n.me, n) && MsgHome(home, from, n.me, N2NNotFound(x1, y1))
    ensures Balanced(n, OnNodeMsg(n, from, N2NNotFound(x1, y1)), to, x, y)
  {
    var i := Find(n.links, x1, y1);
    if i < |n.links| {
      FindsOwnCall(home, n.me, n, x1, y1);
      DeletionBalances(n, i, [ToClient(n.links[i].p1.value, NotFound(y1))], to, x, y);
    } else {
      NothingBalances(n, Quiet(n), to, x, y);
    }
  }

  lemma {:induction false} FoundBalances(n: Node, from: NodeId, z: User, to: NodeId, x: User, y: User)
    ensures Balanced(n, OnNodeMsg(n, from, N2NFound(z)), to, x, y)
  {
    InPhaseAttach(n.links, z, from, x, y, 1);
    InPhaseAttach(n.links, z, from, x, y, 2);
    RequestsOnly(n.links, z, from);
    NothingBalances(n, OnNodeMsg(n, from, N2NFound(z)), to, x, y);
  }

  lemma {:induction false} NodeMsgBalances(home: User -> NodeId, n: Node, from: NodeId, m: NodeMsg, to: NodeId,
        x: User, y: User)
    requires NodeInv(n) && NodeHome(home, n.me, n) && MsgHome(home, from, n.me, m)
    ensures Balanced(n, OnNodeMsg(n, from, m), to, x, y)
  {
    match m {
      case Search(_) => NothingBalances(n, OnNodeMsg(n, from, m), to, x, y);
      case N2NFound(z) => FoundBalances(n, from, z, to, x, y);
      case N2NConnReq(x1, y1) =>
        var r := OnNodeMsg(n, from, m);
        if y1 in n.users {
          AddBalances(n, r.node.links[|n.links|], r.out, to, x, y);
        } else {
          NothingBalances(n, r, to, x, y);
        }
      case N2NAllow(x1, y1) => PassedOnBalances(home, n, from, x1, y1, to, x, y);
      case N2NNotFound(x1, y1) => NotFoundBalances(home, n, from, x1, y1, to, x, y);
    }
  }

  lemma {:induction false} EventBalances(home: User -> NodeId, n: Node, ev: Event, to: NodeId, x: User, y: User)
    requires NodeInv(n) && NodeHome(home, n.me, n) && Possible(n, ev) && EventHome(home, n.me, ev)
    ensures Balanced(n, React(n, ev), to, x, y)
  {
    match ev {
      case ConnReqOutg(x1, y1) => ReqOutgBalances(n, x1, y1, to, x, y);
      case ConnAllow(x1, y1) => AllowBalances(n, x1, y1, to, x, y);
      case ConnDeny(x1, y1) => DenyBalances(n, x1, y1, to, x, y);
      case ConnId(x1, y1, ipOk) => ConnIdBalances(n, x1, y1, ipOk, to, x, y);
      case Shutdown(i) => ShutdownBalances(n, i, to, x, y);
      case DropLink(i) => DeletionBalances(n, i, [], to, x, y);
      case FromNode(from, m) => NodeMsgBalances(home, n, from, m, to, x, y);
      case Login(_, _) => NothingBalances(n, React(n, ev), to, x, y);
      case Logout(z, heir) => KeepBalances(n, React(n, ev).node, NotOfClient(n.users[z]), to, x, y);
      case NodeUp(_) => NothingBalances(n, React(n, ev), to, x, y);
      case NodeDown(m) => KeepBalances(n, React(n, ev).node, NotOfNode(m), to, x, y);
      case Tick(now) => KeepBalances(n, React(n, ev).node, InTimeAt(now), to, x, y);
    }
  }

  // ---------------------------------------------------------------------------------------------------
  // The invariant of the network
  // ---------------------------------------------------------------------------------------------------

  ghost predicate NodeOk(home: User -> NodeId, net: Net, n: NodeId)
    requires Complete(net) && n in net.nodes
  {
    && NodeInv(net.nodes[n]) && NodeHome(home, n, net.nodes[n])
    && forall o :: o in net.sent[n] ==> OutHome(home, n, o)
  }

  /** At node n, for caller x and callee y, so far: every permission, connection and report is accounted for. */
  ghost predicate Accounted(home: User -> NodeId, net: Net, n: NodeId, x: User, y: User)
    requires Complete(net) && n in net.nodes
  {
    var log, links := multiset(net.log), net.nodes[n].links;
    && log[Joined(n, x, y)] + InPhase(links, x, y, 1) <= log[Allowed(n, x, y)]
    && log[Reported(n, x, y)] + InPhase(links, x, y, 2) + multiset(net.sent[n])[ToNode(home(x), N2NAllow(x, y))]
         <= log[Joined(n, x, y)]
  }

  ghost predicate InOrder(log: seq<Entry>, nodes: set<NodeId>) {
    forall n, x, y :: n in nodes ==>
      multiset(log)[Reported(n, x, y)] <= multiset(log)[Joined(n, x, y)] <= multiset(log)[Allowed(n, x, y)]
  }

  ghost predicate LogInv(log: seq<Entry>, nodes: set<NodeId>) {
    && (forall k :: 0 <= k <= |log| ==> InOrder(log[..k], nodes))
    && (forall k :: 0 <= k < |log| && log[k].Reported? ==> log[k].via in nodes)
  }

  ghost predicate Inv(home: User -> NodeId, net: Net) {
    && Complete(net)
    && (forall n :: n in net.nodes ==> NodeOk(home, net, n))
    && (forall n, x, y :: n in net.nodes ==> Accounted(home, net, n, x, y))
    && LogInv(net.log, net.nodes.Keys)
  }

  /** The queue of a node without its i-th message, or with more at its end. */
  lemma {:induction false} DropCounts(queue: seq<Out>, i: nat, o: Out)
    requires i < |queue|
    ensures multiset(Drop(queue, i))[o] + One(queue[i] == o) == multiset(queue)[o]
    ensures forall p :: p in Drop(queue, i) ==> p in queue
  {
    assert queue == queue[..i] + [queue[i]] + queue[i + 1..];
  }

  lemma {:induction false} LoseKeepsInv(home: User -> NodeId, net: Net, from: NodeId, i: nat)
    requires Inv(home, net) && Enabled(home, net, Lose(from, i))
    ensures Inv(home, Next(home, net, Lose(from, i)))
  {
    var net' := Next(home, net, Lose(from, i));
    DropCounts(net.sent[from], i, net.sent[from][i]);
    forall n | n in net'.nodes
      ensures NodeOk(home, net', n)
    {
      assert NodeOk(home, net, n);
    }
    forall n, x, y | n in net'.nodes
      ensures Accounted(home, net', n, x, y)
    {
      assert Accounted(home, net, n, x, y);
      DropCounts(net.sent[from], i, ToNode(home(x), N2NAllow(x, y)));
    }
  }

  /** Node `at` reacts; its new log entries and messages are appended. */
  lemma {:induction false} ReactionKeepsNodes(home: User -> NodeId, net: Net, at: NodeId, ev: Event)
    requires Complete(net) && at in net.nodes && Possible(net.nodes[at], ev) && EventHome(home, at, ev)
    requires forall n :: n in net.nodes ==> NodeOk(home, net, n)
    ensures var net' := Handled(net, at, React(net.nodes[at], ev));
            Complete(net') && forall n :: n in net'.nodes ==> NodeOk(home, net', n)
  {
    var r := React(net.nodes[at], ev);
    var net' := Handled(net, at, r);
    assert NodeOk(home, net, at);
    EventKeeps(net.nodes[at], ev);
    EventKeepsHome(home, at, net.nodes[at], ev);
    forall n | n in net'.nodes
      ensures NodeOk(home, net', n)
    {
      assert NodeOk(home, net, n);
    }
  }

  /** The accounts after node `at` reacted with `r`: its own change by a balanced amount, and those of another node
      only by a report on its word, for which there must have been room. */
  lemma {:induction false} ReactionAccounted(home: User -> NodeId, net: Net, at: NodeId, r: Result, n: NodeId,
        x: User, y: User)
    requires Complete(net) && at in net.nodes && n in net.nodes && net.nodes[at].me == at
    requires Accounted(home, net, n, x, y)
    requires n == at ==> Balanced(net.nodes[at], r, home(x), x, y)
    requires n != at ==>
      && Allowed(n, x, y) !in r.log && Joined(n, x, y) !in r.log
      && multiset(net.log)[Reported(n, x, y)] + InPhase(net.nodes[n].links, x, y, 2)
           + multiset(net.sent[n])[ToNode(home(x), N2NAllow(x, y))] + multiset(r.log)[Reported(n, x, y)]
           <= multiset(net.log)[Joined(n, x, y)]
    ensures var net' := Handled(net, at, r);
            Complete(net') && Accounted(home, net', n, x, y)
  {
  }

  /** At most one entry: of the node itself, or a report on the word of the node a permission came from. */
  predicate OwnLog(me: NodeId, log: seq<Entry>, told: seq<Entry>) {
    log == told ||
    (|log| <= 1 && forall e :: e in log ==>
        e == Allowed(me, e.x, e.y) || e == Joined(me, e.x, e.y) || e == Reported(me, e.x, e.y))
  }

  function Told(ev: Event): seq<Entry> {
    if ev.FromNode? && ev.nm.N2NAllow? then [Reported(ev.from, ev.nm.x, ev.nm.y)] else []
  }

  lemma {:induction false} LogEntries(n: Node, ev: Event)
    requires Possible(n, ev)
    ensures OwnLog(n.me, React(n, ev).log, Told(ev))
    ensures forall e :: e in React(n, ev).log ==>
              (e.Allowed? ==> ev == ConnAllow(e.x, e.y)) && (e.Joined? ==> ev == ConnId(e.x, e.y, true))
  {
  }

  /** With every pair accounted for after it, a log with one more entry is in order in all its prefixes. */
  lemma {:induction false} LogStaysInOrder(home: User -> NodeId, net: Net, log: seq<Entry>, nodes: set<NodeId>)
    requires Complete(net) && net.nodes.Keys == nodes
    requires forall n, x, y :: n in net.nodes ==> Accounted(home, net, n, x, y)
    requires LogInv(log, nodes) && log <= net.log && |net.log| <= |log| + 1
    requires |net.log| > |log| && net.log[|log|].Reported? ==> net.log[|log|].via in nodes
    ensures LogInv(net.log, nodes)
  {
    assert InOrder(net.log, nodes) by {
      forall n, x, y | n in nodes
        ensures multiset(net.log)[Reported(n, x, y)] <= multiset(net.log)[Joined(n, x, y)]
                  <= multiset(net.log)[Allowed(n, x, y)]
      {
        assert Accounted(home, net, n, x, y);
      }
    }
    forall k | 0 <= k <= |net.log|
      ensures InOrder(net.log[..k], nodes)
    {
      if k <= |log| {
        assert net.log[..k] == log[..k];
      } else {
        assert net.log[..k] == net.log;
      }
    }
  }

  /** What such a log says about another node. */
  lemma {:induction false} OthersLog(me: NodeId, log: seq<Entry>, told: seq<Entry>, n: NodeId, x: User, y: User)
    requires OwnLog(me, log, told) && n != me
    requires told == [] || (|told| == 1 && told[0].Reported?)
    ensures Allowed(n, x, y) !in log && Joined(n, x, y) !in log
    ensures multiset(log)[Reported(n, x, y)] <= One(told == [Reported(n, x, y)])
  {
  }

  /** The accounts before a reaction of node `at` that may report `told`: everything accounted for, and room for
      that report. */
  ghost predicate Room(home: User -> NodeId, net: Net, at: NodeId, told: seq<Entry>, n: NodeId, x: User, y: User)
    requires Complete(net) && n in net.nodes
  {
    && Accounted(home, net, n, x, y)
    && (n != at ==>
          multiset(net.log)[Reported(n, x, y)] + InPhase(net.nodes[n].links, x, y, 2)
            + multiset(net.sent[n])[ToNode(home(x), N2NAllow(x, y))] + One(told == [Reported(n, x, y)])
            <= multiset(net.log)[Joined(n, x, y)])
  }

  lemma {:induction false} ReactionKeepsAccounts(home: User -> NodeId, net: Net, at: NodeId, r: Result,
        told: seq<Entry>, n: NodeId, x: User, y: User)
    requires Complete(net) && at in net.nodes && n in net.nodes && net.nodes[at].me == at
    requires OwnLog(at, r.log, told) && (told == [] || (|told| == 1 && told[0].Reported?))
    requires Balanced(net.nodes[at], r, home(x), x, y)
    requires Room(home, net, at, told, n, x, y)
    ensures Complete(Handled(net, at, r)) && Accounted(home, Handled(net, at, r), n, x, y)
  {
    if n != at {
      OthersLog(at, r.log, told, n, x, y);
    }
    ReactionAccounted(home, net, at, r, n, x, y);
  }

  lemma {:induction false} ReactionKeepsInv(home: User -> NodeId, net: Net, at: NodeId, r: Result, told: seq<Entry>)
    requires Complete(net) && at in net.nodes && net.nodes[at].me == at && Complete(Handled(net, at, r))
    requires forall n :: n in net.nodes ==> NodeOk(home, Handled(net, at, r), n)
    requires OwnLog(at, r.log, told) && (told == [] || (|told| == 1 && told[0].Reported? && told[0].via in net.nodes))
    requires forall x, y :: Balanced(net.nodes[at], r, home(x), x, y)
    requires forall n, x, y :: n in net.nodes ==> Room(home, net, at, told, n, x, y)
    requires LogInv(net.log, net.nodes.Keys)
    ensures Inv(home, Handled(net, at, r))
  {
    var net' := Handled(net, at, r);
    forall n, x, y | n in net'.nodes
      ensures Accounted(home, net', n, x, y)
    {
      assert Room(home, net, at, told, n, x, y) && Balanced(net.nodes[at], r, home(x), x, y);
      ReactionKeepsAccounts(home, net, at, r, told, n, x, y);
    }
    assert net'.nodes.Keys == net.nodes.Keys;
    assert r.log != [] && r.log[0].Reported? ==> r.log[0] in r.log;
    LogStaysInOrder(home, net', net.log, net.nodes.Keys);
  }

  lemma {:induction false} AtKeepsInv(home: User -> NodeId, net: Net, at: NodeId, ev: Event)
    requires Inv(home, net) && Enabled(home, net, At(at, ev))
    ensures Inv(home, Next(home, net, At(at, ev)))
  {
    var r := React(net.nodes[at], ev);
    assert NodeOk(home, net, at);
    ReactionKeepsNodes(home, net, at, ev);
    LogEntries(net.nodes[at], ev);
    forall x, y
      ensures Balanced(net.nodes[at], r, home(x), x, y)
    {
      EventBalances(home, net.nodes[at], ev, home(x), x, y);
    }
    forall n, x, y | n in net.nodes
      ensures Room(home, net, at, [], n, x, y)
    {
      assert Accounted(home, net, n, x, y);
    }
    ReactionKeepsInv(home, net, at, r, []);
  }

  /** When the i-th message of a node has left its queue: if it was a permission, there is now room for one more
      report on that node's word. */
  lemma {:induction false} TakenOff(home: User -> NodeId, net: Net, from: NodeId, i: nat, n: NodeId, x: User, y: User)
    requires Inv(home, net) && from in net.nodes && n in net.nodes && i < |net.sent[from]|
    requires net.sent[from][i].ToNode? && MsgHome(home, from, net.sent[from][i].n, net.sent[from][i].nm)
    ensures var o := net.sent[from][i];
            Room(home, net.(sent := net.sent[from := Drop(net.sent[from], i)]), o.n,
                 Told(FromNode(from, o.nm)), n, x, y)
  {
    assert Accounted(home, net, n, x, y);
    DropCounts(net.sent[from], i, ToNode(home(x), N2NAllow(x, y)));
  }

  lemma {:induction false} DeliverKeepsInv(home: User -> NodeId, net: Net, from: NodeId, i: nat)
    requires Inv(home, net) && Enabled(home, net, Deliver(from, i))
    ensures Inv(home, Next(home, net, Deliver(from, i)))
  {
    var o := net.sent[from][i];
    var at, ev := o.n, FromNode(from, o.nm);
    var net1 := net.(sent := net.sent[from := Drop(net.sent[from], i)]);
    assert net1 == Next(home, net, Lose(from, i));
    LoseKeepsInv(home, net, from, i);
    assert NodeOk(home, net, from) && o in net.sent[from] && OutHome(home, from, o);
    assert NodeOk(home, net, at);
    var r := React(net.nodes[at], ev);
    ReactionKeepsNodes(home, net1, at, ev);
    LogEntries(net.nodes[at], ev);
    forall x, y
      ensures Balanced(net.nodes[at], r, home(x), x, y)
    {
      EventBalances(home, net.nodes[at], ev, home(x), x, y);
    }
    forall n, x, y | n in net.nodes
      ensures Room(home, net1, at, Told(ev), n, x, y)
    {
      TakenOff(home, net, from, i, n, x, y);
    }
    ReactionKeepsInv(home, net1, at, r, Told(ev));
  }

  // ---------------------------------------------------------------------------------------------------
  // Runs
  // ---------------------------------------------------------------------------------------------------

  ghost predicate Starts(net: Net) {
    && Complete(net) && net.log == []
    && forall n :: n in net.nodes ==> net.nodes[n] == Fresh(n) && net.sent[n] == []
  }

  ghost predicate Reaches(home: User -> NodeId, net: Net, steps: seq<Step>, net': Net)
    decreases |steps|
  {
    if steps == [] then net' == net
    else Enabled(home, net, steps[0]) && Reaches(home, Next(home, net, steps[0]), steps[1..], net')
  }

  lemma {:induction false} RunKeepsInv(home: User -> NodeId, net: Net, steps: seq<Step>, net': Net)
    requires Inv(home, net) && Reaches(home, net, steps, net')
    ensures Inv(home, net')
    decreases |steps|
  {
    if steps != [] {
      match steps[0] {
        case At(n, ev) => AtKeepsInv(home, net, n, ev);
        case Deliver(from, i) => DeliverKeepsInv(home, net, from, i);
        case Lose(from, i) => LoseKeepsInv(home, net, from, i);
      }
      RunKeepsInv(home, Next(home, net, steps[0]), steps[1..], net');
    }
  }

  lemma {:induction false} StartInv(home: User -> NodeId, net: Net)
    requires Starts(net)
    ensures Inv(home, net)
  {
    forall n | n in net.nodes
      ensures NodeOk(home, net, n)
    {
      assert net.nodes[n] == Fresh(n);
    }
    forall n, x, y | n in net.nodes
      ensures Accounted(home, net, n, x, y)
    {
      assert net.nodes[n] == Fresh(n);
    }
    forall k | 0 <= k <= |net.log|
      ensures InOrder(net.log[..k], net.nodes.Keys)
    {
      assert net.log[..k] == [];
    }
  }

  /** In every run of any number of nodes, at every moment, for every caller x, callee y and node n: FOUND has been
      pushed on the word of n no more often than n had accepted the callee's CONNID, and that no more often than
      n had taken the callee's CONNALLOW; and no node pushed to a client it does not have. */
  lemma {:induction false} NoReportWithoutPermission(home: User -> NodeId, start: Net, steps: seq<Step>, net: Net)
    requires Starts(start) && Reaches(home, start, steps, net)
    ensures forall k :: 0 <= k <= |net.log| ==> InOrder(net.log[..k], net.nodes.Keys)
    ensures forall n :: n in net.nodes ==> !net.nodes[n].fault && NodeInv(net.nodes[n])
  {
    StartInv(home, start);
    RunKeepsInv(home, start, steps, net);
    forall n | n in net.nodes
      ensures !net.nodes[n].fault && NodeInv(net.nodes[n])
    {
      assert NodeOk(home, net, n);
    }
  }

  lemma {:induction false} Occurs(log: seq<Entry>, e: Entry) returns (i: nat)
    requires multiset(log)[e] > 0
    ensures i < |log| && log[i] == e
  {
    assert e in log;
    i :| 0 <= i < |log| && log[i] == e;
  }

  /** The node of an entry is the one that hosts the callee. */
  ghost predicate EntryHome(home: User -> NodeId, e: Entry) {
    match e
    case Allowed(at, _, y) => at == home(y)
    case Joined(at, _, y) => at == home(y)
    case Reported(via, _, y) => via == home(y)
  }

  lemma {:induction false} EntriesAtHome(home: User -> NodeId, id: NodeId, n: Node, ev: Event)
    requires NodeInv(n) && NodeHome(home, id, n) && Possible(n, ev) && EventHome(home, id, ev)
    ensures forall e :: e in React(n, ev).log ==> EntryHome(home, e)
  {
    match ev {
      case ConnAllow(x, y) => CalleesEntries(home, id, n, x, y, true);
      case ConnId(x, y, ipOk) => CalleesEntries(home, id, n, x, y, ipOk);
      case Shutdown(i) => CalleeAtHome(home, id, n, i);
      case FromNode(from, m) => NodesEntries(home, id, n, from, m);
      case _ =>
    }
  }

  lemma {:induction false} CalleesEntries(home: User -> NodeId, id: NodeId, n: Node, x: User, y: User, ipOk: bool)
    requires NodeInv(n) && NodeHome(home, id, n)
    ensures forall e :: e in OnConnAllow(n, x, y).log ==> EntryHome(home, e)
    ensures forall e :: e in OnConnId(n, x, y, ipOk).log ==> EntryHome(home, e)
  {
    CalleeAtHome(home, id, n, Find(n.links, x, y));
  }

  lemma {:induction false} NodesEntries(home: User -> NodeId, id: NodeId, n: Node, from: NodeId, m: NodeMsg)
    requires MsgHome(home, from, id, m)
    ensures forall e :: e in OnNodeMsg(n, from, m).log ==> EntryHome(home, e)
  {
  }

  lemma {:induction false} CalleeAtHome(home: User -> NodeId, id: NodeId, n: Node, i: nat)
    requires NodeInv(n) && NodeHome(home, id, n)
    ensures i < |n.links| && FamilyOf(n.links[i].state) != CallerHere ==> home(n.links[i].callee) == id
  {
    assert i < |n.links| ==> LinkInv(n, n.links[i]);
  }

  lemma {:induction false} RunLogsAtHome(home: User -> NodeId, net: Net, steps: seq<Step>, net': Net)
    requires Inv(home, net) && Reaches(home, net, steps, net') && forall e :: e in net.log ==> EntryHome(home, e)
    ensures forall e :: e in net'.log ==> EntryHome(home, e)
    decreases |steps|
  {
    if steps != [] {
      var next := Next(home, net, steps[0]);
      assert Reaches(home, net, steps[..1], next) by {
        assert steps[..1][0] == steps[0] && steps[..1][1..] == [];
      }
      RunKeepsInv(home, net, steps[..1], next);
      match steps[0] {
        case At(n, ev) =>
          assert NodeOk(home, net, n);
          EntriesAtHome(home, n, net.nodes[n], ev);
        case Deliver(from, i) =>
          var o := net.sent[from][i];
          assert NodeOk(home, net, from) && o in net.sent[from] && OutHome(home, from, o);
          assert NodeOk(home, net, o.n);
          EntriesAtHome(home, o.n, net.nodes[o.n], FromNode(from, o.nm));
        case Lose(_, _) =>
      }
      RunLogsAtHome(home, next, steps[1..], net');
    }
  }

  /** Every report noted in the log is preceded by an accepted CONNID of y for this call at the node that hosts y, and
      that by CONNALLOW(x) from y at the same node. */
  lemma {:induction false} ReportIsPreceded(home: User -> NodeId, start: Net, steps: seq<Step>, net: Net, k: nat)
    returns (i: nat, j: nat)
    requires Starts(start) && Reaches(home, start, steps, net)
    requires k < |net.log| && net.log[k].Reported?
    ensures net.log[k].via == home(net.log[k].y) && i < j < k
    ensures net.log[i] == Allowed(home(net.log[k].y), net.log[k].x, net.log[k].y)
    ensures net.log[j] == Joined(home(net.log[k].y), net.log[k].x, net.log[k].y)
  {
    StartInv(home, start);
    RunKeepsInv(home, start, steps, net);
    RunLogsAtHome(home, start, steps, net);
    assert net.log[k] in net.log;
    i, j := Precedence(net.log, net.nodes.Keys, k);
  }

  // ---------------------------------------------------------------------------------------------------
  // From the log to the messages
  // ---------------------------------------------------------------------------------------------------

  /** A FOUND(y) pushed to a client is a report to a user whose client this is, and the log has it. */
  lemma {:induction false} FoundIsLogged(n: Node, ev: Event, c: Client, y: User) returns (e: Entry)
    requires NodeInv(n) && Possible(n, ev) && ToClient(c, Found(y)) in React(n, ev).out
    ensures React(n, ev).log == [e] && e.Reported? && e.y == y && e.x in n.users && n.users[e.x] == c
  {
    match ev {
      case Shutdown(i) =>
        assert LinkInv(n, n.links[i]);
        e := React(n, ev).log[0];
      case FromNode(from, m) => e := NodeFoundIsLogged(n, from, m, c, y);
      case ConnReqOutg(x, z) =>
        BroadcastSearches(n.peers, z);
        assert false;
      case _ => assert false;
    }
  }

  lemma {:induction false} NodeFoundIsLogged(n: Node, from: NodeId, m: NodeMsg, c: Client, y: User) returns (e: Entry)
    requires NodeInv(n) && ToClient(c, Found(y)) in OnNodeMsg(n, from, m).out
    ensures OnNodeMsg(n, from, m).log == [e] && e.Reported? && e.y == y && e.x in n.users && n.users[e.x] == c
  {
    if m.N2NFound? {
      RequestsOnly(n.links, m.y, from);
    }
    assert m.N2NAllow?;
    var l := n.links[Find(n.links, m.x, m.y)];
    assert LinkInv(n, l);
    e := Reported(from, m.x, m.y);
  }

  /** The node that reacts in a step, and to what. */
  function Where(net: Net, step: Step): NodeId
    requires step.Deliver? ==>
             step.from in net.sent && step.i < |net.sent[step.from]| && net.sent[step.from][step.i].ToNode?
    requires !step.Lose?
  {
    if step.At? then step.n else net.sent[step.from][step.i].n
  }

  function What(net: Net, step: Step): Event
    requires step.Deliver? ==>
             step.from in net.sent && step.i < |net.sent[step.from]| && net.sent[step.from][step.i].ToNode?
    requires !step.Lose?
  {
    if step.At? then step.ev else FromNode(step.from, net.sent[step.from][step.i].nm)
  }

  /** What makes a node log a permission or a connection: the callee's own message to it. */
  predicate Causes(step: Step, e: Entry) {
    && (e.Allowed? ==> step == At(e.at, ConnAllow(e.x, e.y)))
    && (e.Joined? ==> step == At(e.at, ConnId(e.x, e.y, true)))
  }

  /** The log after a step: the same, or with one entry more, which the step causes. */
  predicate LogStep(a: seq<Entry>, b: seq<Entry>, step: Step) {
    b == a || (|b| == |a| + 1 && b[..|a|] == a && Causes(step, b[|a|]))
  }

  /** Every node knows its own name. */
  predicate Named(net: Net) {
    forall n :: n in net.nodes ==> net.nodes[n].me == n
  }

  lemma {:induction false} ReactionLogs(n: Node, ev: Event, log: seq<Entry>)
    requires Possible(n, ev)
    ensures React(n, ev).node.me == n.me
    ensures LogStep(log, log + React(n, ev).log, At(n.me, ev))
  {
    LogEntries(n, ev);
    NameStays(n, ev);
    OneEntry(log, React(n, ev).log, At(n.me, ev));
  }

  lemma {:induction false} NameStays(n: Node, ev: Event)
    requires Possible(n, ev)
    ensures React(n, ev).node.me == n.me
  {
  }

  lemma {:induction false} OneEntry(log: seq<Entry>, more: seq<Entry>, step: Step)
    requires |more| <= 1 && forall e :: e in more ==> Causes(step, e)
    ensures LogStep(log, log + more, step)
  {
  }

  lemma {:induction false} StepLogs(home: User -> NodeId, net: Net, step: Step)
    requires Named(net) && Enabled(home, net, step)
    ensures Named(Next(home, net, step)) && LogStep(net.log, Next(home, net, step).log, step)
  {
    match step {
      case At(n, ev) => ReactionLogs(net.nodes[n], ev, net.log);
      case Deliver(from, i) =>
        var o := net.sent[from][i];
        ReactionLogs(net.nodes[o.n], FromNode(from, o.nm), net.log);
      case Lose(_, _) =>
    }
  }

  /** The logs before, between and after the steps of a run. */
  predicate Trace(logs: seq<seq<Entry>>, steps: seq<Step>) {
    |logs| == |steps| + 1 && forall p :: 0 <= p < |steps| ==> LogStep(logs[p], logs[p + 1], steps[p])
  }

  lemma {:induction false} TraceOf(home: User -> NodeId, net: Net, steps: seq<Step>, net': Net)
    returns (logs: seq<seq<Entry>>)
    requires Named(net) && Reaches(home, net, steps, net')
    ensures Trace(logs, steps) && logs[0] == net.log && logs[|steps|] == net'.log
    decreases |steps|
  {
    if steps == [] {
      logs := [net.log];
    } else {
      StepLogs(home, net, steps[0]);
      var rest := TraceOf(home, Next(home, net, steps[0]), steps[1..], net');
      TraceBefore(net.log, rest, steps);
      logs := [net.log] + rest;
    }
  }

  lemma {:induction false} TraceBefore(log: seq<Entry>, rest: seq<seq<Entry>>, steps: seq<Step>)
    requires steps != [] && Trace(rest, steps[1..]) && LogStep(log, rest[0], steps[0])
    ensures Trace([log] + rest, steps)
  {
    var logs := [log] + rest;
    forall p | 0 <= p < |steps|
      ensures LogStep(logs[p], logs[p + 1], steps[p])
    {
      assert p > 0 ==> LogStep(rest[p - 1], rest[p], steps[1..][p - 1]);
    }
  }

  /** The step that logged the i-th entry. */
  lemma {:induction false} LoggedBy(logs: seq<seq<Entry>>, steps: seq<Step>, n: nat, i: nat) returns (p: nat)
    requires Trace(logs, steps) && n <= |steps| && |logs[0]| <= i < |logs[n]|
    ensures p < n && |logs[p]| == i < |logs[p + 1]| && Causes(steps[p], logs[n][i])
  {
    assert n > 0 && LogStep(logs[n - 1], logs[n], steps[n - 1]);
    if i < |logs[n - 1]| {
      p := LoggedBy(logs, steps, n - 1, i);
      assert logs[n][i] == logs[n - 1][i];
    } else {
      p := n - 1;
    }
  }

  lemma {:induction false} LogGrows(logs: seq<seq<Entry>>, steps: seq<Step>, p: nat, q: nat)
    requires Trace(logs, steps) && p <= q <= |steps|
    ensures |logs[p]| <= |logs[q]|
    decreases q - p
  {
    if p < q {
      assert LogStep(logs[q - 1], logs[q], steps[q - 1]);
      LogGrows(logs, steps, p, q - 1);
    }
  }

  /** Entries were logged by steps, in the same order. */
  lemma {:induction false} LoggedInOrder(home: User -> NodeId, start: Net, steps: seq<Step>, net: Net, i: nat, j: nat)
    returns (p: nat, q: nat)
    requires Starts(start) && Reaches(home, start, steps, net) && i < j < |net.log|
    ensures p < q < |steps| && Causes(steps[p], net.log[i]) && Causes(steps[q], net.log[j])
  {
    var logs := TraceOf(home, start, steps, net);
    p := LoggedBy(logs, steps, |steps|, i);
    q := LoggedBy(logs, steps, |steps|, j);
    if q <= p {
      LogGrows(logs, steps, q, p);
      assert false;
    }
  }

  lemma {:induction false} ReachesAppend(home: User -> NodeId, start: Net, steps: seq<Step>, net: Net, step: Step)
    requires Reaches(home, start, steps, net) && Enabled(home, net, step)
    ensures Reaches(home, start, steps + [step], Next(home, net, step))
    decreases |steps|
  {
    if steps == [] {
      assert steps + [step] == [step] && [step][1..] == [];
    } else {
      assert (steps + [step])[0] == steps[0] && (steps + [step])[1..] == steps[1..] + [step];
      ReachesAppend(home, Next(home, start, steps[0]), steps[1..], net, step);
    }
  }

  /** In every run, whenever a node pushes FOUND(y) to a client: this is the client of a user x at home there, and
      before that the node that hosts y had received, and taken, CONNALLOW(x) from y and then CONNID(x, y). */
  lemma {:induction false} FoundIsPreceded(home: User -> NodeId, start: Net, steps: seq<Step>, net: Net, step: Step,
                                           c: Client, y: User) returns (x: User, p: nat, q: nat)
    requires Starts(start) && Reaches(home, start, steps, net) && Enabled(home, net, step) && !step.Lose?
    requires ToClient(c, Found(y)) in React(net.nodes[Where(net, step)], What(net, step)).out
    ensures var n := Where(net, step);
            home(x) == n && x in net.nodes[n].users && net.nodes[n].users[x] == c
    ensures p < q < |steps| && steps[p] == At(home(y), ConnAllow(x, y)) && steps[q] == At(home(y), ConnId(x, y, true))
    ensures Allowed(home(y), x, y) in net.log && Joined(home(y), x, y) in net.log
  {
    var n, ev := Where(net, step), What(net, step);
    StartInv(home, start);
    RunKeepsInv(home, start, steps, net);
    assert NodeOk(home, net, n);
    var e := FoundIsLogged(net.nodes[n], ev, c, y);
    var net' := Next(home, net, step);
    assert net'.log == net.log + [e];
    ReachesAppend(home, start, steps, net, step);
    var i, j := ReportIsPreceded(home, start, steps + [step], net', |net.log|);
    x := e.x;
    assert net.log[i] == net'.log[i] && net.log[j] == net'.log[j];
    p, q := LoggedInOrder(home, start, steps, net, i, j);
  }

  lemma {:induction false} Precedence(log: seq<Entry>, nodes: set<NodeId>, k: nat) returns (i: nat, j: nat)
    requires forall m :: 0 <= m <= |log| ==> InOrder(log[..m], nodes)
    requires k < |log| && log[k].Reported? && log[k].via in nodes
    ensures i < j < k
    ensures log[i] == Allowed(log[k].via, log[k].x, log[k].y)
    ensures log[j] == Joined(log[k].via, log[k].x, log[k].y)
  {
    var n, x, y := log[k].via, log[k].x, log[k].y;
    assert log[..k + 1] == log[..k] + [log[k]];
    assert InOrder(log[..k + 1], nodes);
    j := Occurs(log[..k + 1], Joined(n, x, y));
    assert log[..j + 1] == log[..j] + [log[j]];
    assert InOrder(log[..j + 1], nodes);
    i := Occurs(log[..j + 1], Allowed(n, x, y));
  }
}
