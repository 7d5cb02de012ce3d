/** A call between two users of one node that nobody refuses comes about (PICA_node.c): its events, what they make of
    its record and what the node pushes; and the events of a call to a user of another node. */
module CallRuns {
  import opened Memory
  import opened Router
  import opened RouterPushes

  /** The records before it are not for the same pair. */
  predicate Alone(n: Node, l: Link) {
    Find(n.links, l.caller, l.callee) == |n.links|
  }

  lemma {:induction false} FoundBehind(links: seq<Link>, l: Link)
    requires Find(links, l.caller, l.callee) == |links|
    ensures Find(links + [l], l.caller, l.callee) == |links|
  {
    if links == [] {
      assert links + [l] == [l];
    } else {
      assert (links + [l])[0] == links[0] && (links + [l])[1..] == links[1..] + [l];
      FoundBehind(links[1..], l);
    }
  }

  /** Changing the new record changes nothing else. */
  lemma {:induction false} Changed(n: Node, l: Link, l': Link)
    requires Alone(n, l)
    ensures Find(Add(n, l).links, l.caller, l.callee) == |n.links| && Add(n, l).links[|n.links|] == l
    ensures SetLink(Add(n, l), |n.links|, l') == Add(n, l')
  {
    FoundBehind(n.links, l);
    assert (n.links + [l])[|n.links| := l'] == n.links + [l'];
  }

  /** The reaction changes the new record to this one and pushes these messages. */
  ghost predicate Moves(n: Node, l: Link, ev: Event, l': Link, out: seq<Out>) {
    && Possible(Add(n, l), ev)
    && React(Add(n, l), ev).node == Add(n, l') && React(Add(n, l), ev).out == out
  }

  lemma {:induction false} AllowMoves(n: Node, l: Link)
    requires Alone(n, l) && l.callee in n.users && (l.state == LOCAL_WAITREP || l.state == CLE_WAITREP)
    ensures Moves(n, l, ConnAllow(l.caller, l.callee), l.(state := l.state + 1), [])
  {
    Changed(n, l, l.(state := l.state + 1));
  }

  /** The connection of the callee, and of the caller, is taken over. */
  lemma {:induction false} ConnIdMoves(n: Node, l: Link)
    requires Alone(n, l)
    ensures l.state == LOCAL_WAITCONNCLE ==>
              Moves(n, l, ConnId(l.caller, l.callee, true), l.(state := LOCAL_CLE_SHUTDOWN, sck2 := true), [])
    ensures l.state == LOCAL_WAITCONNCLR ==>
              Moves(n, l, ConnId(l.caller, l.callee, true), l.(state := LOCAL_CLR_SHUTDOWN, sck1 := true, bufs := true),
                    [])
    ensures l.state == CLR_WAITCONNCLR ==>
              Moves(n, l, ConnId(l.caller, l.callee, true), l.(state := CLR_SHUTDOWN, sck1 := true, bufs := true), [])
    ensures l.state == CLE_WAITCONNCLE ==>
              Moves(n, l, ConnId(l.caller, l.callee, true), l.(state := CLE_SHUTDOWN, sck2 := true, bufs := true), [])
  {
    Changed(n, l, l.(state := LOCAL_CLE_SHUTDOWN, sck2 := true));
    Changed(n, l, l.(state := LOCAL_CLR_SHUTDOWN, sck1 := true, bufs := true));
    Changed(n, l, l.(state := CLR_SHUTDOWN, sck1 := true, bufs := true));
    Changed(n, l, l.(state := CLE_SHUTDOWN, sck2 := true, bufs := true));
  }

  lemma {:induction false} ShutdownMoves(n: Node, l: Link)
    requires Alone(n, l)
    ensures l.state == LOCAL_CLE_SHUTDOWN && l.p1.Some? ==>
              Moves(n, l, Shutdown(|n.links|), l.(state := LOCAL_WAITCONNCLR), [ToClient(l.p1.value, Found(l.callee))])
    ensures l.state == LOCAL_CLR_SHUTDOWN ==> Moves(n, l, Shutdown(|n.links|), l.(state := LOCAL_ACTIVE), [])
    ensures l.state == CLR_SHUTDOWN ==> Moves(n, l, Shutdown(|n.links|), l.(state := CLR_ACTIVE), [])
    ensures l.state == CLE_SHUTDOWN && l.callerNode.Some? ==>
              Moves(n, l, Shutdown(|n.links|), l.(state := CLE_ACTIVE),
                    [ToNode(l.callerNode.value, N2NAllow(l.caller, l.callee))])
  {
    Changed(n, l, l.(state := LOCAL_WAITCONNCLR));
    Changed(n, l, l.(state := LOCAL_ACTIVE));
    Changed(n, l, l.(state := CLR_ACTIVE));
    Changed(n, l, l.(state := CLE_ACTIVE));
  }

  // ---------------------------------------------------------------------------------------------------
  // Runs
  // ---------------------------------------------------------------------------------------------------

  /** A run of a node, where it leads and what it pushes. */
  ghost predicate Goes(n: Node, evs: seq<Event>, n': Node, out: seq<Out>) {
    Runnable(n, evs) && Runs(n, evs, n') && Pushed(n, evs) == out
  }

  lemma {:induction false} GoesOn(n: Node, ev: Event, u: Node, a: seq<Out>, evs: seq<Event>, n': Node, b: seq<Out>)
    requires Possible(n, ev) && React(n, ev).node == u && React(n, ev).out == a && Goes(u, evs, n', b)
    ensures Goes(n, [ev] + evs, n', a + b)
  {
    assert ([ev] + evs)[1..] == evs;
  }

  lemma {:induction false} MovesOn(n: Node, l: Link, ev: Event, u: Link, a: seq<Out>, evs: seq<Event>, l': Link,
                                   b: seq<Out>)
    requires Moves(n, l, ev, u, a) && Goes(Add(n, u), evs, Add(n, l'), b)
    ensures Goes(Add(n, l), [ev] + evs, Add(n, l'), a + b)
  {
    GoesOn(Add(n, l), ev, Add(n, u), a, evs, Add(n, l'), b);
  }

  /** From the caller's turn on. */
  lemma {:induction false} CallerConnects(n: Node, l: Link)
    requires Alone(n, l) && (l.state == LOCAL_WAITCONNCLR || l.state == CLR_WAITCONNCLR)
    ensures Goes(Add(n, l), [ConnId(l.caller, l.callee, true), Shutdown(|n.links|)],
                 Add(n, l.(state := l.state + 2, sck1 := true, bufs := true)), [])
  {
    var l1 := l.(state := l.state + 1, sck1 := true, bufs := true);
    var l2 := l1.(state := l.state + 2);
    ConnIdMoves(n, l);
    ShutdownMoves(n, l1);
    assert Goes(Add(n, l2), [], Add(n, l2), []);
    MovesOn(n, l1, Shutdown(|n.links|), l2, [], [], l2, []);
    assert [Shutdown(|n.links|)] + [] == [Shutdown(|n.links|)];
    MovesOn(n, l, ConnId(l.caller, l.callee, true), l1, [], [Shutdown(|n.links|)], l2, []);
    assert [ConnId(l.caller, l.callee, true)] + [Shutdown(|n.links|)]
        == [ConnId(l.caller, l.callee, true), Shutdown(|n.links|)];
  }

  /** The callee allows the call and connects, up to the word to the caller's side. */
  lemma {:induction false} CalleeConnects(n: Node, l: Link, l3: Link, out: seq<Out>, evs: seq<Event>, l': Link,
                                          b: seq<Out>)
    requires Alone(n, l) && l.callee in n.users && (l.state == LOCAL_WAITREP || l.state == CLE_WAITREP)
    requires var l2 := l.(state := l.state + 2, sck2 := true, bufs := l.bufs || l.state == CLE_WAITREP);
             Moves(n, l2, Shutdown(|n.links|), l3, out)
    requires Goes(Add(n, l3), evs, Add(n, l'), b)
    ensures Goes(Add(n, l),
                 [ConnAllow(l.caller, l.callee), ConnId(l.caller, l.callee, true), Shutdown(|n.links|)] + evs,
                 Add(n, l'), out + b)
  {
    var l1 := l.(state := l.state + 1);
    var l2 := l.(state := l.state + 2, sck2 := true, bufs := l.bufs || l.state == CLE_WAITREP);
    AllowMoves(n, l);
    ConnIdMoves(n, l1);
    var e1, e2, e3 := ConnAllow(l.caller, l.callee), ConnId(l.caller, l.callee, true), Shutdown(|n.links|);
    MovesOn(n, l2, e3, l3, out, evs, l', b);
    MovesOn(n, l1, e2, l2, [], [e3] + evs, l', out + b);
    MovesOn(n, l, e1, l1, [], [e2] + ([e3] + evs), l', [] + (out + b));
    assert [e1] + ([e2] + ([e3] + evs)) == [e1, e2, e3] + evs;
    assert [] + ([] + (out + b)) == out + b;
  }

  /** The events of a call between two users of a node. */
  function LocalCall(n: Node, x: User, y: User): seq<Event> {
    [ConnReqOutg(x, y)]
      + ([ConnAllow(x, y), ConnId(x, y, true), Shutdown(|n.links|)] + [ConnId(x, y, true), Shutdown(|n.links|)])
  }

  /** A call between two users of a node that is allowed, and to which both connect, is active afterwards, with both
      sockets and the relay buffers; the callee's client has been told the caller, then the caller's client the callee,
      and nobody anything else. */
  lemma {:induction false} LocalCallComesAbout(n: Node, x: User, y: User)
    requires x in n.users && y in n.users && x != y && Find(n.links, x, y) == |n.links|
    ensures Goes(n, LocalCall(n, x, y),
                 Add(n, Link(n.nextUid, LOCAL_ACTIVE, Some(n.users[x]), Some(n.users[y]), x, y, None, None, true, true,
                             true, n.now)),
                 [ToClient(n.users[y], ConnReqInc(x)), ToClient(n.users[x], Found(y))])
  {
    var l := Link(n.nextUid, LOCAL_WAITREP, Some(n.users[x]), Some(n.users[y]), x, y, None, None, false, false, false,
                  n.now);
    var l2 := l.(state := LOCAL_CLE_SHUTDOWN, sck2 := true);
    var l3 := l2.(state := LOCAL_WAITCONNCLR);
    var l' := l3.(state := LOCAL_ACTIVE, sck1 := true, bufs := true);
    var told, found := [ToClient(n.users[y], ConnReqInc(x))], [ToClient(n.users[x], Found(y))];
    var evs := [ConnId(x, y, true), Shutdown(|n.links|)];
    ShutdownMoves(n, l2);
    CallerConnects(n, l3);
    CalleeConnects(n, l, l3, found, evs, l', []);
    assert found + [] == found;
    GoesOn(n, ConnReqOutg(x, y), Add(n, l), told,
           [ConnAllow(x, y), ConnId(x, y, true), Shutdown(|n.links|)] + evs, Add(n, l'), found);
    assert told + found == [ToClient(n.users[y], ConnReqInc(x)), ToClient(n.users[x], Found(y))];
  }

  // ---------------------------------------------------------------------------------------------------
  // Two nodes
  // ---------------------------------------------------------------------------------------------------

  lemma {:induction false} OnlyNewWaits(links: seq<Link>, l: Link, y: User, from: NodeId)
    requires !Searching(links, y) && WaitsFor(l, y)
    ensures Attach(links + [l], y, from) == links + [l.(state := CLR_WAITREP, calleeNode := Some(from))]
    ensures Requests(links + [l], y, from) == [ToNode(from, N2NConnReq(l.caller, y))]
    ensures Waiting(links + [l], y) == multiset{l.uid}
  {
    if links == [] {
      assert links + [l] == [l] && [l][1..] == [];
    } else {
      assert (links + [l])[0] == links[0] && (links + [l])[1..] == links[1..] + [l];
      assert !Searching(links[1..], y) by {
        assert forall i :: 0 <= i < |links[1..]| ==> links[1..][i] == links[i + 1];
      }
      assert !WaitsFor(links[0], y);
      OnlyNewWaits(links[1..], l, y, from);
      assert Attach(links + [l], y, from) == [links[0]] + Attach(links[1..] + [l], y, from);
    }
  }

  lemma {:induction false} SearchIsAnswered(n: Node, l: Link, b: NodeId)
    requires Alone(n, l) && l.state == CLR_WAITSEARCH && !Searching(n.links, l.callee) && b in n.peers
    ensures var u := n.(asked := n.asked + multiset{l.uid});
            && Possible(Add(n, l), FromNode(b, N2NFound(l.callee)))
            && var r := React(Add(n, l), FromNode(b, N2NFound(l.callee)));
               && r.node == Add(u, l.(state := CLR_WAITREP, calleeNode := Some(b)))
               && r.out == [ToNode(b, N2NConnReq(l.caller, l.callee))]
  {
    OnlyNewWaits(n.links, l, l.callee, b);
  }

  lemma {:induction false} AllowArrives(n: Node, l: Link, b: NodeId)
    requires Alone(n, l) && l.state == CLR_WAITREP && l.p1.Some? && b in n.peers
    ensures Moves(n, l, FromNode(b, N2NAllow(l.caller, l.callee)), l.(state := CLR_WAITCONNCLR),
                  [ToClient(l.p1.value, Found(l.callee))])
  {
    Changed(n, l, l.(state := CLR_WAITCONNCLR));
  }
}
