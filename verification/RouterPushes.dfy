/** Which messages a node pushes (PICA_node.c), told from the side of the message: for every event and every message,
    how often it is pushed; and over runs, that a call request goes out exactly once for every record created of a call
    whose callee is here, to the callee's client and with the caller's identifier. */
module RouterPushes {
  import opened Memory
  import opened Router

  function One(b: bool): nat {
    if b then 1 else 0
  }

  // ---------------------------------------------------------------------------------------------------
  // What is due
  // ---------------------------------------------------------------------------------------------------

  /** The first record for the pair, if there is one, is in this state and has this caller's client. */
  predicate FirstIs(n: Node, x: User, y: User, state: LinkState) {
    var i := Find(n.links, x, y);
    i < |n.links| && n.links[i].state == state
  }

  predicate FirstHasCaller(n: Node, x: User, y: User, c: Client) {
    var i := Find(n.links, x, y);
    i < |n.links| && n.links[i].p1 == Some(c)
  }

  predicate FirstComesFrom(n: Node, x: User, y: User, m: NodeId) {
    var i := Find(n.links, x, y);
    i < |n.links| && n.links[i].callerNode == Some(m)
  }

  /** A user of this node calls another one, and has no call to it yet. */
  predicate CallsHere(n: Node, ev: Event, x: User, y: User) {
    ev == ConnReqOutg(x, y) && y in n.users && x != y && Find(n.links, x, y) == |n.links|
  }

  /** A user of this node calls one that is not here, and no search for it is under way. */
  predicate CallsAway(n: Node, ev: Event, y: User) {
    ev.ConnReqOutg? && ev.y == y && y !in n.users && !Searching(n.links, y)
  }

  /** How often an event makes a node push a message. */
  function Due(n: Node, ev: Event, o: Out): nat
    requires Possible(n, ev)
  {
    match o
    case ToClient(c, ConnReqInc(x)) =>
      One(|| (ev.ConnReqOutg? && CallsHere(n, ev, x, ev.y) && n.users[ev.y] == c)
          || (ev.FromNode? && ev.nm.N2NConnReq? && ev.nm.x == x && ev.nm.y in n.users && n.users[ev.nm.y] == c))
    case ToClient(c, Found(y)) =>
      One(|| (ev.Shutdown? && var l := n.links[ev.i]; l.state == LOCAL_CLE_SHUTDOWN && l.callee == y && l.p1 == Some(c))
          || (ev.FromNode? && ev.nm.N2NAllow? && ev.nm.y == y && FirstHasCaller(n, ev.nm.x, y, c)))
    case ToClient(c, NotFound(y)) =>
      One(|| (CallsAway(n, ev, y) && n.peers == [] && n.users[ev.x] == c)
          || (ev.ConnDeny? && ev.y == y && FirstIs(n, ev.x, y, LOCAL_WAITREP) && FirstHasCaller(n, ev.x, y, c))
          || (ev.FromNode? && ev.nm.N2NNotFound? && ev.nm.y == y && FirstHasCaller(n, ev.nm.x, y, c)))
    case ToNode(m, Search(y)) => if CallsAway(n, ev, y) then multiset(n.peers)[m] else 0
    case ToNode(m, N2NFound(y)) => One(ev == FromNode(m, Search(y)) && y in n.users)
    case ToNode(m, N2NConnReq(x, y)) => if ev == FromNode(m, N2NFound(y)) then WaitingOf(n.links, x, y) else 0
    case ToNode(m, N2NAllow(x, y)) =>
      One(ev.Shutdown? && var l := n.links[ev.i];
          l.state == CLE_SHUTDOWN && Between(l, x, y) && l.callerNode == Some(m))
    case ToNode(m, N2NNotFound(x, y)) =>
      One(|| (ev == FromNode(m, N2NConnReq(x, y)) && y !in n.users)
          || (ev == ConnDeny(x, y) && FirstIs(n, x, y, CLE_WAITREP) && FirstComesFrom(n, x, y, m)))
  }

  lemma {:induction false} BroadcastCounts(peers: seq<NodeId>, y: User, o: Out)
    ensures multiset(Broadcast(peers, y))[o] == if o.ToNode? && o.nm == Search(y) then multiset(peers)[o.n] else 0
  {
    if peers != [] {
      BroadcastCounts(peers[1..], y, o);
      assert peers == [peers[0]] + peers[1..];
      assert Broadcast(peers, y) == [ToNode(peers[0], Search(y))] + Broadcast(peers[1..], y);
    }
  }

  lemma {:induction false} RequestsCount(links: seq<Link>, y: User, from: NodeId, o: Out)
    ensures multiset(Requests(links, y, from))[o] ==
            if o.ToNode? && o.n == from && o.nm.N2NConnReq? && o.nm.y == y then WaitingOf(links, o.nm.x, y) else 0
  {
    if links != [] {
      RequestsCount(links[1..], y, from, o);
      var head := if WaitsFor(links[0], y) then [ToNode(from, N2NConnReq(links[0].caller, y))] else [];
      assert Requests(links, y, from) == head + Requests(links[1..], y, from);
    }
  }

  lemma {:induction false} OneOf(a: Out, o: Out)
    ensures multiset([a])[o] == One(a == o)
  {
  }

  lemma {:induction false} ReqOutgDue(n: Node, x: User, y: User, o: Out)
    requires x in n.users
    ensures multiset(OnConnReqOutg(n, x, y).out)[o] == Due(n, ConnReqOutg(x, y), o)
  {
    if y in n.users {
      CalledHereDue(n, x, y, o);
    } else {
      CalledAwayDue(n, x, y, o);
    }
  }

  lemma {:induction false} CalledHereDue(n: Node, x: User, y: User, o: Out)
    requires x in n.users && y in n.users
    ensures multiset(OnConnReqOutg(n, x, y).out)[o] == Due(n, ConnReqOutg(x, y), o)
  {
    var out := OnConnReqOutg(n, x, y).out;
    if CallsHere(n, ConnReqOutg(x, y), x, y) {
      assert out == [ToClient(n.users[y], ConnReqInc(x))];
      OneOf(out[0], o);
    } else {
      assert out == [];
    }
  }

  lemma {:induction false} CalledAwayDue(n: Node, x: User, y: User, o: Out)
    requires x in n.users && y !in n.users
    ensures multiset(OnConnReqOutg(n, x, y).out)[o] == Due(n, ConnReqOutg(x, y), o)
  {
    var out := OnConnReqOutg(n, x, y).out;
    var away := CallsAway(n, ConnReqOutg(x, y), y);
    DueAway(n, x, y, o);
    if !away {
      assert out == [];
    } else if n.peers == [] {
      assert out == [ToClient(n.users[x], NotFound(y))];
      OneOf(out[0], o);
    } else {
      assert out == Broadcast(n.peers, y);
      BroadcastCounts(n.peers, y, o);
    }
  }

  lemma {:induction false} DueAway(n: Node, x: User, y: User, o: Out)
    requires x in n.users && y !in n.users
    ensures Due(n, ConnReqOutg(x, y), o) ==
            if !CallsAway(n, ConnReqOutg(x, y), y) then 0
            else if n.peers == [] then One(o == ToClient(n.users[x], NotFound(y)))
            else if o.ToNode? && o.nm == Search(y) then multiset(n.peers)[o.n]
            else 0
  {
    assert n.peers == [] ==> multiset(n.peers) == multiset{};
  }

  lemma {:induction false} DenyDue(n: Node, x: User, y: User, o: Out)
    requires y in n.users
    ensures multiset(OnConnDeny(n, x, y).out)[o] == Due(n, ConnDeny(x, y), o)
  {
    var out := OnConnDeny(n, x, y).out;
    if out != [] {
      assert out == [out[0]];
      OneOf(out[0], o);
    }
  }

  lemma {:induction false} ShutdownDue(n: Node, i: nat, o: Out)
    requires i < |n.links|
    ensures multiset(OnShutdown(n, i).out)[o] == Due(n, Shutdown(i), o)
  {
    var out := OnShutdown(n, i).out;
    if out != [] {
      assert out == [out[0]];
      OneOf(out[0], o);
    }
  }

  lemma {:induction false} NodeMsgDue(n: Node, from: NodeId, m: NodeMsg, o: Out)
    requires from in n.peers
    ensures multiset(OnNodeMsg(n, from, m).out)[o] == Due(n, FromNode(from, m), o)
  {
    if m.N2NFound? {
      RequestsCount(n.links, m.y, from, o);
    } else if m.N2NAllow? || m.N2NNotFound? {
      AnswerDue(n, from, m, o);
    } else {
      AskedDue(n, from, m, o);
    }
  }

  lemma {:induction false} AskedDue(n: Node, from: NodeId, m: NodeMsg, o: Out)
    requires from in n.peers && (m.Search? || m.N2NConnReq?)
    ensures multiset(OnNodeMsg(n, from, m).out)[o] == Due(n, FromNode(from, m), o)
  {
    var out := OnNodeMsg(n, from, m).out;
    if out != [] {
      assert out == [out[0]];
      OneOf(out[0], o);
    }
  }

  lemma {:induction false} AnswerDue(n: Node, from: NodeId, m: NodeMsg, o: Out)
    requires from in n.peers && (m.N2NAllow? || m.N2NNotFound?)
    ensures multiset(OnNodeMsg(n, from, m).out)[o] == Due(n, FromNode(from, m), o)
  {
    var out := OnNodeMsg(n, from, m).out;
    if out != [] {
      assert out == [out[0]];
      OneOf(out[0], o);
    }
  }

  /** Every event makes a node push each message exactly as often as it is due, and no other. */
  lemma {:induction false} PushesWhatIsDue(n: Node, ev: Event, o: Out)
    requires Possible(n, ev)
    ensures multiset(React(n, ev).out)[o] == Due(n, ev, o)
  {
    match ev {
      case ConnReqOutg(x, y) => ReqOutgDue(n, x, y, o);
      case ConnDeny(x, y) => DenyDue(n, x, y, o);
      case Shutdown(i) => ShutdownDue(n, i, o);
      case FromNode(from, m) => NodeMsgDue(n, from, m, o);
      case _ =>
    }
  }

  // ---------------------------------------------------------------------------------------------------
  // Runs
  // ---------------------------------------------------------------------------------------------------

  ghost predicate Runnable(n: Node, evs: seq<Event>)
    decreases |evs|
  {
    evs == [] || (Possible(n, evs[0]) && Runnable(React(n, evs[0]).node, evs[1..]))
  }

  /** Everything pushed in a run. */
  ghost function Pushed(n: Node, evs: seq<Event>): seq<Out>
    requires Runnable(n, evs)
    decreases |evs|
  {
    if evs == [] then [] else React(n, evs[0]).out + Pushed(React(n, evs[0]).node, evs[1..])
  }

  ghost function DueIn(n: Node, evs: seq<Event>, o: Out): nat
    requires Runnable(n, evs)
    decreases |evs|
  {
    if evs == [] then 0 else Due(n, evs[0], o) + DueIn(React(n, evs[0]).node, evs[1..], o)
  }

  lemma {:induction false} RunPushesWhatIsDue(n: Node, evs: seq<Event>, o: Out)
    requires Runnable(n, evs)
    ensures multiset(Pushed(n, evs))[o] == DueIn(n, evs, o)
    decreases |evs|
  {
    if evs != [] {
      PushesWhatIsDue(n, evs[0], o);
      RunPushesWhatIsDue(React(n, evs[0]).node, evs[1..], o);
    }
  }

  // ---------------------------------------------------------------------------------------------------
  // Call requests and call records
  // ---------------------------------------------------------------------------------------------------

  /** The call requests among messages, in order. */
  function CallRequests(out: seq<Out>): seq<Out> {
    if out == [] then []
    else (if out[0].ToClient? && out[0].cm.ConnReqInc? then [out[0]] else []) + CallRequests(out[1..])
  }

  /** What tells a callee of this node of a call: its own client is told the caller. */
  ghost function Announcement(users: map<User, Client>, l: Link): seq<Out> {
    if l.callee in users then [ToClient(users[l.callee], ConnReqInc(l.caller))] else []
  }

  /** The announcements of the records that are new, of calls whose callee is here. */
  ghost function Announcements(users: map<User, Client>, links: seq<Link>, uid: nat): seq<Out> {
    if links == [] then []
    else (if links[0].uid >= uid && FamilyOf(links[0].state) != CallerHere then Announcement(users, links[0]) else [])
         + Announcements(users, links[1..], uid)
  }

  lemma {:induction false} NoneNew(users: map<User, Client>, links: seq<Link>, uid: nat)
    requires forall i :: 0 <= i < |links| ==> links[i].uid < uid
    ensures Announcements(users, links, uid) == []
  {
    if links != [] {
      NoneNew(users, links[1..], uid);
    }
  }

  lemma {:induction false} OneNew(users: map<User, Client>, links: seq<Link>, l: Link, uid: nat)
    requires (forall i :: 0 <= i < |links| ==> links[i].uid < uid) && l.uid >= uid
    ensures Announcements(users, links + [l], uid) ==
            if FamilyOf(l.state) != CallerHere then Announcement(users, l) else []
  {
    if links == [] {
      assert links + [l] == [l] && [l][1..] == [];
    } else {
      assert (links + [l])[0] == links[0] && (links + [l])[1..] == links[1..] + [l];
      OneNew(users, links[1..], l, uid);
    }
  }

  lemma {:induction false} NoCallRequests(out: seq<Out>)
    requires forall i :: 0 <= i < |out| ==> !(out[i].ToClient? && out[i].cm.ConnReqInc?)
    ensures CallRequests(out) == []
  {
    if out != [] {
      NoCallRequests(out[1..]);
    }
  }

  /** A reaction tells exactly the callees of the records it creates. */
  ghost predicate Tells(n: Node, r: Result) {
    CallRequests(r.out) == Announcements(n.users, r.node.links, n.nextUid)
  }

  lemma {:induction false} TellsNobody(n: Node, r: Result)
    requires forall i :: 0 <= i < |r.out| ==> !(r.out[i].ToClient? && r.out[i].cm.ConnReqInc?)
    requires forall i :: 0 <= i < |r.node.links| ==> r.node.links[i].uid < n.nextUid
    ensures Tells(n, r)
  {
    NoCallRequests(r.out);
    NoneNew(n.users, r.node.links, n.nextUid);
  }

  lemma {:induction false} TellsCallee(n: Node, l: Link, out: seq<Out>)
    requires AllLinks(n) && l.uid == n.nextUid
    requires CallRequests(out) == if FamilyOf(l.state) != CallerHere then Announcement(n.users, l) else []
    ensures Tells(n, Result(Add(n, l), out, []))
  {
    forall i | 0 <= i < |n.links|
      ensures n.links[i].uid < n.nextUid
    {
      assert LinkInv(n, n.links[i]);
    }
    OneNew(n.users, n.links, l, n.nextUid);
  }

  lemma {:induction false} Searches(peers: seq<NodeId>, y: User)
    ensures CallRequests(Broadcast(peers, y)) == []
  {
    if peers != [] {
      Searches(peers[1..], y);
      assert Broadcast(peers, y)[1..] == Broadcast(peers[1..], y);
    }
  }

  lemma {:induction false} ReqOutgTells(n: Node, x: User, y: User)
    requires NodeInv(n) && x in n.users
    ensures Tells(n, OnConnReqOutg(n, x, y))
  {
    var r := OnConnReqOutg(n, x, y);
    if r.node == n {
      OldLinks(n);
      TellsNobody(n, r);
    } else {
      var l := r.node.links[|n.links|];
      Searches(n.peers, y);
      if y in n.users {
        assert r.out[1..] == [];
      }
      TellsCallee(n, l, r.out);
    }
  }

  lemma {:induction false} OldLinks(n: Node)
    requires NodeInv(n)
    ensures forall i :: 0 <= i < |n.links| ==> n.links[i].uid < n.nextUid
  {
    forall i | 0 <= i < |n.links|
      ensures n.links[i].uid < n.nextUid
    {
      assert LinkInv(n, n.links[i]);
    }
  }

  lemma {:induction false} ConnReqTells(n: Node, from: NodeId, x: User, y: User)
    requires NodeInv(n)
    ensures Tells(n, OnNodeMsg(n, from, N2NConnReq(x, y)))
  {
    var r := OnNodeMsg(n, from, N2NConnReq(x, y));
    if y in n.users {
      assert r.out[1..] == [];
      TellsCallee(n, r.node.links[|n.links|], r.out);
    } else {
      OldLinks(n);
      TellsNobody(n, r);
    }
  }

  /** The other events create no record. */
  lemma {:induction false} OthersCreateNothing(n: Node, ev: Event)
    requires NodeInv(n) && Possible(n, ev) && !ev.ConnReqOutg? && !(ev.FromNode? && ev.nm.N2NConnReq?)
    ensures forall i :: 0 <= i < |React(n, ev).node.links| ==> React(n, ev).node.links[i].uid < n.nextUid
  {
    EventKeeps(n, ev);
    OldLinks(React(n, ev).node);
    assert React(n, ev).node.nextUid == n.nextUid;
  }

  lemma {:induction false} OthersAskNobody(n: Node, ev: Event)
    requires Possible(n, ev) && !ev.ConnReqOutg? && !(ev.FromNode? && ev.nm.N2NConnReq?)
    ensures forall i :: 0 <= i < |React(n, ev).out| ==>
              !(React(n, ev).out[i].ToClient? && React(n, ev).out[i].cm.ConnReqInc?)
  {
    var out := React(n, ev).out;
    forall i | 0 <= i < |out|
      ensures !(out[i].ToClient? && out[i].cm.ConnReqInc?)
    {
      PushesWhatIsDue(n, ev, out[i]);
      assert out[i] in out;
    }
  }

  lemma {:induction false} EventTells(n: Node, ev: Event)
    requires NodeInv(n) && Possible(n, ev)
    ensures Tells(n, React(n, ev))
  {
    if ev.ConnReqOutg? {
      ReqOutgTells(n, ev.x, ev.y);
    } else if ev.FromNode? && ev.nm.N2NConnReq? {
      ConnReqTells(n, ev.from, ev.nm.x, ev.nm.y);
    } else {
      OthersCreateNothing(n, ev);
      OthersAskNobody(n, ev);
      TellsNobody(n, React(n, ev));
    }
  }

  /** The announcements of all records created in a run. */
  ghost function AnnouncedIn(n: Node, evs: seq<Event>): seq<Out>
    requires Runnable(n, evs)
    decreases |evs|
  {
    if evs == [] then []
    else
      var n' := React(n, evs[0]).node;
      Announcements(n.users, n'.links, n.nextUid) + AnnouncedIn(n', evs[1..])
  }

  lemma {:induction false} CallRequestsAppend(a: seq<Out>, b: seq<Out>)
    ensures CallRequests(a + b) == CallRequests(a) + CallRequests(b)
  {
    if a == [] {
      assert a + b == b;
    } else {
      assert (a + b)[0] == a[0] && (a + b)[1..] == a[1..] + b;
      CallRequestsAppend(a[1..], b);
    }
  }

  lemma {:induction false} RunTells(n: Node, evs: seq<Event>)
    requires NodeInv(n) && Runnable(n, evs)
    ensures CallRequests(Pushed(n, evs)) == AnnouncedIn(n, evs)
    decreases |evs|
  {
    if evs != [] {
      var n' := React(n, evs[0]).node;
      EventKeeps(n, evs[0]);
      EventTells(n, evs[0]);
      RunTells(n', evs[1..]);
      CallRequestsAppend(React(n, evs[0]).out, Pushed(n', evs[1..]));
    }
  }

  /** In every run of a node, the call requests pushed are exactly one for each record created of a call whose callee is
      here, in the order in which they were created, to the callee's client and with the caller's identifier; every
      other message is pushed exactly as often as it was due. */
  lemma {:induction false} CalleesAreTold(me: NodeId, evs: seq<Event>)
    requires Runnable(Fresh(me), evs)
    ensures CallRequests(Pushed(Fresh(me), evs)) == AnnouncedIn(Fresh(me), evs)
    ensures forall o :: multiset(Pushed(Fresh(me), evs))[o] == DueIn(Fresh(me), evs, o)
  {
    assert NodeInv(Fresh(me));
    RunTells(Fresh(me), evs);
    forall o
      ensures multiset(Pushed(Fresh(me), evs))[o] == DueIn(Fresh(me), evs, o)
    {
      RunPushesWhatIsDue(Fresh(me), evs, o);
    }
  }
}
