/** A call between users of two connected nodes comes about: a run of the whole network of `CallSetup`, in which the
    nodes hear what they push to each other, after which both have an active record of the call. */
module NetRuns {
  import opened Memory
  import opened Router
  import opened CallRuns
  import CallSetup

  type Net = CallSetup.Net

  type Step = CallSetup.Step

  /** The two nodes of a call and what they have pushed; the rest of the network does not matter. */
  ghost predicate Two(net: Net, a: NodeId, na: Node, qa: seq<Out>, b: NodeId, nb: Node, qb: seq<Out>) {
    && CallSetup.Complete(net) && a != b && a in net.nodes && b in net.nodes
    && net.nodes[a] == na && net.sent[a] == qa && net.nodes[b] == nb && net.sent[b] == qb
  }

  /** Nothing is on its way to a node. */
  predicate NoneTo(q: seq<Out>, m: NodeId) {
    forall i :: 0 <= i < |q| && q[i].ToNode? ==> q[i].n != m
  }

  // ---------------------------------------------------------------------------------------------------
  // Steps of the network
  // ---------------------------------------------------------------------------------------------------

  /** Something happens at the first node. */
  lemma {:induction false} Happens(home: User -> NodeId, net: Net, a: NodeId, na: Node, qa: seq<Out>, b: NodeId,
                                   nb: Node, qb: seq<Out>, ev: Event, u: Node, out: seq<Out>)
    requires Two(net, a, na, qa, b, nb, qb) && Possible(na, ev) && !ev.FromNode? && !ev.Login? && !ev.NodeUp?
    requires React(na, ev).node == u && React(na, ev).out == out
    ensures CallSetup.Enabled(home, net, CallSetup.At(a, ev))
    ensures Two(CallSetup.Next(home, net, CallSetup.At(a, ev)), a, u, qa + out, b, nb, qb)
  {
  }

  /** A message of the first node arrives at the second. */
  lemma {:induction false} Arrives(home: User -> NodeId, net: Net, a: NodeId, na: Node, qa: seq<Out>, b: NodeId,
                                   nb: Node, qb: seq<Out>, i: nat, m: NodeMsg, u: Node, out: seq<Out>)
    requires Two(net, a, na, qa, b, nb, qb) && CallSetup.IsNext(qa, i) && qa[i] == ToNode(b, m)
    requires Possible(nb, FromNode(a, m)) && React(nb, FromNode(a, m)).node == u && React(nb, FromNode(a, m)).out == out
    ensures CallSetup.Enabled(home, net, CallSetup.Deliver(a, i))
    ensures Two(CallSetup.Next(home, net, CallSetup.Deliver(a, i)), a, na, CallSetup.Drop(qa, i), b, u, qb + out)
  {
  }

  /** The second node and the first. */
  lemma {:induction false} Swapped(net: Net, a: NodeId, na: Node, qa: seq<Out>, b: NodeId, nb: Node, qb: seq<Out>)
    requires Two(net, a, na, qa, b, nb, qb)
    ensures Two(net, b, nb, qb, a, na, qa)
  {
  }

  lemma {:induction false} LastIsNext(q: seq<Out>, m: NodeId, nm: NodeMsg)
    requires NoneTo(q, m)
    ensures CallSetup.IsNext(q + [ToNode(m, nm)], |q|) && CallSetup.Drop(q + [ToNode(m, nm)], |q|) == q
  {
  }

  /** The search that is broadcast reaches a node it goes to once. */
  lemma {:induction false} SearchIsNext(q: seq<Out>, peers: seq<NodeId>, b: NodeId, y: User) returns (i: nat)
    requires NoneTo(q, b) && multiset(peers)[b] == 1
    ensures var s := q + Broadcast(peers, y);
            CallSetup.IsNext(s, i) && s[i] == ToNode(b, Search(y)) && NoneTo(CallSetup.Drop(s, i), b)
    decreases |peers|
  {
    var s, first := q + Broadcast(peers, y), ToNode(peers[0], Search(y));
    assert peers == [peers[0]] + peers[1..];
    if peers[0] == b {
      i := |q|;
      NoneBroadcast(peers[1..], b, y);
      assert s == q + ([first] + Broadcast(peers[1..], y));
      assert CallSetup.Drop(s, i) == q + Broadcast(peers[1..], y);
    } else {
      assert s == (q + [first]) + Broadcast(peers[1..], y);
      i := SearchIsNext(q + [first], peers[1..], b, y);
    }
  }

  lemma {:induction false} NoneBroadcast(peers: seq<NodeId>, b: NodeId, y: User)
    requires b !in peers
    ensures NoneTo(Broadcast(peers, y), b)
  {
    if peers != [] {
      NoneBroadcast(peers[1..], b, y);
      assert Broadcast(peers, y)[1..] == Broadcast(peers[1..], y);
      forall i | 0 <= i < |Broadcast(peers, y)| && Broadcast(peers, y)[i].ToNode?
        ensures Broadcast(peers, y)[i].n != b
      {
        assert i > 0 ==> Broadcast(peers, y)[i] == Broadcast(peers[1..], y)[i - 1];
      }
    }
  }

  // ---------------------------------------------------------------------------------------------------
  // Runs
  // ---------------------------------------------------------------------------------------------------

  /** The network gets from one state to another in some run. */
  ghost predicate Leads(home: User -> NodeId, net: Net, net': Net) {
    exists steps: seq<Step> :: CallSetup.Reaches(home, net, steps, net')
  }

  lemma {:induction false} LeadsBy(home: User -> NodeId, start: Net, net: Net, step: Step)
    requires Leads(home, start, net) && CallSetup.Enabled(home, net, step)
    ensures Leads(home, start, CallSetup.Next(home, net, step))
  {
    var steps: seq<Step> :| CallSetup.Reaches(home, start, steps, net);
    CallSetup.ReachesAppend(home, start, steps, net, step);
  }

  /** A state of the two nodes that the network can get to. */
  ghost predicate Comes(home: User -> NodeId, start: Net, a: NodeId, na: Node, qa: seq<Out>, b: NodeId, nb: Node,
                        qb: seq<Out>) {
    exists net: Net :: Leads(home, start, net) && Two(net, a, na, qa, b, nb, qb)
  }

  lemma {:induction false} Turns(home: User -> NodeId, start: Net, a: NodeId, na: Node, qa: seq<Out>, b: NodeId,
                                 nb: Node, qb: seq<Out>)
    requires Comes(home, start, a, na, qa, b, nb, qb)
    ensures Comes(home, start, b, nb, qb, a, na, qa)
  {
    var net: Net :| Leads(home, start, net) && Two(net, a, na, qa, b, nb, qb);
    Swapped(net, a, na, qa, b, nb, qb);
  }

  lemma {:induction false} ComesBy(home: User -> NodeId, start: Net, a: NodeId, na: Node, qa: seq<Out>, b: NodeId,
                                   nb: Node, qb: seq<Out>, ev: Event, u: Node, out: seq<Out>)
    requires Comes(home, start, a, na, qa, b, nb, qb) && Possible(na, ev) && !ev.FromNode? && !ev.Login? && !ev.NodeUp?
    requires React(na, ev).node == u && React(na, ev).out == out
    ensures Comes(home, start, a, u, qa + out, b, nb, qb)
  {
    var net: Net :| Leads(home, start, net) && Two(net, a, na, qa, b, nb, qb);
    Happens(home, net, a, na, qa, b, nb, qb, ev, u, out);
    LeadsBy(home, start, net, CallSetup.At(a, ev));
  }

  lemma {:induction false} ComesByMessage(home: User -> NodeId, start: Net, a: NodeId, na: Node, qa: seq<Out>,
                                          b: NodeId, nb: Node, qb: seq<Out>, i: nat, m: NodeMsg, u: Node, out: seq<Out>)
    requires Comes(home, start, a, na, qa, b, nb, qb) && CallSetup.IsNext(qa, i) && qa[i] == ToNode(b, m)
    requires Possible(nb, FromNode(a, m)) && React(nb, FromNode(a, m)).node == u && React(nb, FromNode(a, m)).out == out
    ensures Comes(home, start, a, na, CallSetup.Drop(qa, i), b, u, qb + out)
  {
    var net: Net :| Leads(home, start, net) && Two(net, a, na, qa, b, nb, qb);
    Arrives(home, net, a, na, qa, b, nb, qb, i, m, u, out);
    LeadsBy(home, start, net, CallSetup.Deliver(a, i));
  }

  /** The last message that the first node has pushed arrives at the second. */
  lemma {:induction false} ComesByLast(home: User -> NodeId, start: Net, a: NodeId, na: Node, qa: seq<Out>, b: NodeId,
                                       nb: Node, qb: seq<Out>, m: NodeMsg, u: Node, out: seq<Out>)
    requires NoneTo(qa, b) && Comes(home, start, a, na, qa + [ToNode(b, m)], b, nb, qb)
    requires Possible(nb, FromNode(a, m)) && React(nb, FromNode(a, m)).node == u && React(nb, FromNode(a, m)).out == out
    ensures Comes(home, start, a, na, qa, b, u, qb + out)
  {
    LastIsNext(qa, b, m);
    ComesByMessage(home, start, a, na, qa + [ToNode(b, m)], b, nb, qb, |qa|, m, u, out);
  }

  // ---------------------------------------------------------------------------------------------------
  // The call
  // ---------------------------------------------------------------------------------------------------

  /** The nodes of x and y are connected, nothing is on its way between them, and neither has a call of x to y. */
  ghost predicate CanCall(na: Node, qa: seq<Out>, nb: Node, qb: seq<Out>, a: NodeId, b: NodeId, x: User, y: User) {
    && x in na.users && y !in na.users && y in nb.users
    && multiset(na.peers)[b] == 1 && a in nb.peers && NoneTo(qa, b) && NoneTo(qb, a)
    && !Searching(na.links, y) && Find(na.links, x, y) == |na.links| && Find(nb.links, x, y) == |nb.links|
  }

  function Waits(n: Node, x: User, y: User): Link
    requires x in n.users
  {
    Link(n.nextUid, CLR_WAITSEARCH, Some(n.users[x]), None, x, y, None, None, false, false, false, n.now)
  }

  function Rings(n: Node, from: NodeId, x: User, y: User): Link
    requires y in n.users
  {
    Link(n.nextUid, CLE_WAITREP, None, Some(n.users[y]), x, y, Some(from), None, false, false, false, n.now)
  }

  function Noted(n: Node): Node {
    n.(asked := n.asked + multiset{n.nextUid})
  }

  function Attached(n: Node, b: NodeId, x: User, y: User): Link
    requires x in n.users
  {
    Waits(n, x, y).(state := CLR_WAITREP, calleeNode := Some(b))
  }

  /** The callee is found and its client told of the call. */
  lemma {:induction false} CalleeIsFound(home: User -> NodeId, net: Net, a: NodeId, na: Node, qa: seq<Out>, b: NodeId,
                                         nb: Node, qb: seq<Out>, x: User, y: User) returns (qa': seq<Out>)
    requires Two(net, a, na, qa, b, nb, qb) && CanCall(na, qa, nb, qb, a, b, x, y)
    ensures Comes(home, net, a, Add(Noted(na), Attached(na, b, x, y)), qa', b, Add(nb, Rings(nb, a, x, y)),
                  qb + [ToClient(nb.users[y], ConnReqInc(x))])
    ensures NoneTo(qa', b)
  {
    var n1 := Add(na, Waits(na, x, y));
    assert CallSetup.Reaches(home, net, [], net);
    assert na.peers != [];
    ComesBy(home, net, a, na, qa, b, nb, qb, ConnReqOutg(x, y), n1, Broadcast(na.peers, y));
    var i := SearchIsNext(qa, na.peers, b, y);
    qa' := CallSetup.Drop(qa + Broadcast(na.peers, y), i);
    ComesByMessage(home, net, a, n1, qa + Broadcast(na.peers, y), b, nb, qb, i, Search(y), nb,
                   [ToNode(a, N2NFound(y))]);
    Turns(home, net, a, n1, qa', b, nb, qb + [ToNode(a, N2NFound(y))]);
    SearchIsAnswered(na, Waits(na, x, y), b);
    var n2 := Add(Noted(na), Attached(na, b, x, y));
    ComesByLast(home, net, b, nb, qb, a, n1, qa', N2NFound(y), n2, [ToNode(b, N2NConnReq(x, y))]);
    Turns(home, net, b, nb, qb, a, n2, qa' + [ToNode(b, N2NConnReq(x, y))]);
    ComesByLast(home, net, a, n2, qa', b, nb, qb, N2NConnReq(x, y), Add(nb, Rings(nb, a, x, y)),
                [ToClient(nb.users[y], ConnReqInc(x))]);
  }

  function Answered(l: Link): Link {
    l.(state := CLE_ACTIVE, sck2 := true, bufs := true)
  }

  /** The callee allows the call and connects, and its node says so. */
  lemma {:induction false} CalleeAnswers(home: User -> NodeId, net: Net, a: NodeId, na: Node, qa: seq<Out>, b: NodeId,
                                         nb: Node, qb: seq<Out>, l: Link)
    requires Comes(home, net, a, na, qa, b, Add(nb, l), qb)
    requires Alone(nb, l) && l.state == CLE_WAITREP && l.callee in nb.users && l.callerNode == Some(a)
    ensures Comes(home, net, b, Add(nb, Answered(l)), qb + [ToNode(a, N2NAllow(l.caller, l.callee))], a, na, qa)
  {
    var l1 := l.(state := CLE_WAITCONNCLE);
    var l2 := l1.(state := CLE_SHUTDOWN, sck2 := true, bufs := true);
    Turns(home, net, a, na, qa, b, Add(nb, l), qb);
    AllowMoves(nb, l);
    assert qb + [] == qb;
    ComesBy(home, net, b, Add(nb, l), qb, a, na, qa, ConnAllow(l.caller, l.callee), Add(nb, l1), []);
    ConnIdMoves(nb, l1);
    ComesBy(home, net, b, Add(nb, l1), qb, a, na, qa, ConnId(l.caller, l.callee, true), Add(nb, l2), []);
    ShutdownMoves(nb, l2);
    ComesBy(home, net, b, Add(nb, l2), qb, a, na, qa, Shutdown(|nb.links|), Add(nb, Answered(l)),
            [ToNode(a, N2NAllow(l.caller, l.callee))]);
  }

  function Joined(l: Link): Link {
    l.(state := CLR_ACTIVE, sck1 := true, bufs := true)
  }

  /** The caller's client is told, and connects. */
  lemma {:induction false} CallerJoins(home: User -> NodeId, net: Net, a: NodeId, na: Node, qa: seq<Out>, b: NodeId,
                                       nb: Node, qb: seq<Out>, l: Link)
    requires NoneTo(qb, a) && Comes(home, net, b, nb, qb + [ToNode(a, N2NAllow(l.caller, l.callee))], a, Add(na, l), qa)
    requires Alone(na, l) && l.state == CLR_WAITREP && l.p1.Some? && b in na.peers
    ensures Comes(home, net, a, Add(na, Joined(l)), qa + [ToClient(l.p1.value, Found(l.callee))], b, nb, qb)
  {
    var found := [ToClient(l.p1.value, Found(l.callee))];
    var l1 := l.(state := CLR_WAITCONNCLR);
    var l2 := l1.(state := CLR_SHUTDOWN, sck1 := true, bufs := true);
    AllowArrives(na, l, b);
    ComesByLast(home, net, b, nb, qb, a, Add(na, l), qa, N2NAllow(l.caller, l.callee), Add(na, l1), found);
    Turns(home, net, b, nb, qb, a, Add(na, l1), qa + found);
    assert qa + found + [] == qa + found;
    ConnIdMoves(na, l1);
    ComesBy(home, net, a, Add(na, l1), qa + found, b, nb, qb, ConnId(l.caller, l.callee, true), Add(na, l2), []);
    ShutdownMoves(na, l2);
    ComesBy(home, net, a, Add(na, l2), qa + found, b, nb, qb, Shutdown(|na.links|), Add(na, Joined(l)), []);
  }

  /** From any state of the network in which the nodes of x and y are connected, nothing is on its way between them and
      neither has a call from x to y, a run leads to a state in which both nodes have an active record of the call, the
      callee's client has been told of the caller, and the caller's client that the callee was found. */
  lemma {:induction false} CallComesAbout(home: User -> NodeId, net: Net, a: NodeId, na: Node, qa: seq<Out>, b: NodeId,
                                          nb: Node, qb: seq<Out>, x: User, y: User)
    returns (steps: seq<Step>, net': Net)
    requires Two(net, a, na, qa, b, nb, qb) && CanCall(na, qa, nb, qb, a, b, x, y)
    ensures CallSetup.Reaches(home, net, steps, net') && a in net'.nodes && b in net'.nodes
    ensures net'.nodes[a].links == na.links + [Joined(Attached(na, b, x, y))]
    ensures net'.nodes[b].links == nb.links + [Answered(Rings(nb, a, x, y))]
    ensures CallSetup.Complete(net') && ToClient(na.users[x], Found(y)) in net'.sent[a]
    ensures ToClient(nb.users[y], ConnReqInc(x)) in net'.sent[b]
  {
    var qa' := CalleeIsFound(home, net, a, na, qa, b, nb, qb, x, y);
    var l, r := Attached(na, b, x, y), Rings(nb, a, x, y);
    var qb' := qb + [ToClient(nb.users[y], ConnReqInc(x))];
    CalleeAnswers(home, net, a, Add(Noted(na), l), qa', b, nb, qb', r);
    assert b in na.peers;
    CallerJoins(home, net, a, Noted(na), qa', b, Add(nb, Answered(r)), qb', l);
    var found := ToClient(na.users[x], Found(y));
    net' :| Leads(home, net, net')
            && Two(net', a, Add(Noted(na), Joined(l)), qa' + [found], b, Add(nb, Answered(r)), qb');
    steps :| CallSetup.Reaches(home, net, steps, net');
    assert (qa' + [found])[|qa'|] == found && qb'[|qb|] == ToClient(nb.users[y], ConnReqInc(x));
  }
}
