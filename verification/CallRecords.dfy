/** What becomes of each call record (PICA_node.c), told from the side of the record: which events delete it, and which
    move it to its next state. */
module CallRecords {
  import opened Memory
  import opened Router

  /** The event deletes the i-th record. */
  predicate Deletes(n: Node, ev: Event, i: nat)
    requires Possible(n, ev) && i < |n.links|
  {
    var l := n.links[i];
    match ev
    case ConnDeny(x, y) => i == Find(n.links, x, y)
    case FromNode(_, m) => m.N2NNotFound? && i == Find(n.links, m.x, m.y) && l.p1.Some?
    case DropLink(j) => i == j
    case Logout(x, _) => l.p1 == Some(n.users[x]) || l.p2 == Some(n.users[x])
    case NodeDown(m) => l.callerNode == Some(m) || l.calleeNode == Some(m)
    case Tick(now) => !IsActive(l.state) && now - l.tmst > TMO_WAITACTIVE
    case _ => false
  }

  /** The event moves the i-th record to its next state. */
  predicate Promotes(n: Node, ev: Event, i: nat)
    requires Possible(n, ev) && i < |n.links|
  {
    var l := n.links[i];
    match ev
    case ConnAllow(x, y) => i == Find(n.links, x, y) && (l.state == LOCAL_WAITREP || l.state == CLE_WAITREP)
    case ConnId(x, y, ipOk) =>
      && i == Find(n.links, x, y) && ipOk
      && (l.state == LOCAL_WAITCONNCLE || l.state == LOCAL_WAITCONNCLR || l.state == CLR_WAITCONNCLR
          || l.state == CLE_WAITCONNCLE)
    case Shutdown(j) =>
      && i == j
      && (l.state == LOCAL_CLE_SHUTDOWN || l.state == LOCAL_CLR_SHUTDOWN || l.state == CLR_SHUTDOWN
          || l.state == CLE_SHUTDOWN)
    case FromNode(_, N2NFound(y)) => WaitsFor(l, y)
    case FromNode(_, N2NAllow(x, y)) =>
      i == Find(n.links, x, y) && (l.state == LOCAL_WAITREP || l.state == CLR_WAITREP)
    case _ => false
  }

  /** The record has a successor, one state further or not. */
  ghost predicate LivesOn(n: Node, i: nat, n': Node, promoted: bool)
    requires i < |n.links|
  {
    exists j :: 0 <= j < |n'.links| && Successor(n.links[i], n'.links[j])
      && n'.links[j].state == n.links[i].state + if promoted then 1 else 0
  }

  ghost predicate IsGone(n: Node, i: nat, n': Node)
    requires i < |n.links|
  {
    forall j :: 0 <= j < |n'.links| ==> n'.links[j].uid != n.links[i].uid
  }

  ghost predicate Fate(n: Node, ev: Event, i: nat)
    requires Possible(n, ev) && i < |n.links|
  {
    var n' := React(n, ev).node;
    if Deletes(n, ev, i) then IsGone(n, i, n') else LivesOn(n, i, n', Promotes(n, ev, i))
  }

  // ---------------------------------------------------------------------------------------------------
  // Ways to change the table
  // ---------------------------------------------------------------------------------------------------

  /** The records stay in their places. */
  lemma {:induction false} StaysAt(n: Node, i: nat, n': Node, promoted: bool)
    requires i < |n.links| && i < |n'.links| && Successor(n.links[i], n'.links[i])
    requires n'.links[i].state == n.links[i].state + if promoted then 1 else 0
    ensures LivesOn(n, i, n', promoted)
  {
  }

  lemma {:induction false} TakenOut(n: Node, i: nat, k: nat)
    requires NodeInv(n) && i < |n.links| && k < |n.links|
    ensures var n' := n.(links := Without(n.links, k));
            if i == k then IsGone(n, i, n') else LivesOn(n, i, n', false)
  {
    var n' := n.(links := Without(n.links, k));
    if i == k {
      forall j | 0 <= j < |n'.links|
        ensures n'.links[j].uid != n.links[k].uid
      {
        assert n'.links[j] == n.links[if j < k then j else j + 1];
        assert if j < k then Compatible(n.links[j], n.links[k]) else Compatible(n.links[k], n.links[j + 1]);
      }
    } else {
      var j := if i < k then i else i - 1;
      assert n'.links[j] == n.links[i];
    }
  }

  lemma {:induction false} KeptOrNot(n: Node, i: nat, keep: Link -> bool, n': Node)
    requires NodeInv(n) && i < |n.links| && n'.links == Keep(n.links, keep)
    ensures if keep(n.links[i]) then LivesOn(n, i, n', false) else IsGone(n, i, n')
  {
    KeepMembers(n.links, keep);
    var l := n.links[i];
    if keep(l) {
      assert l in n'.links;
      var j :| 0 <= j < |n'.links| && n'.links[j] == l;
      assert Successor(l, n'.links[j]);
    } else {
      forall j | 0 <= j < |n'.links|
        ensures n'.links[j].uid != l.uid
      {
        assert n'.links[j] in n'.links;
        var k :| 0 <= k < |n.links| && n.links[k] == n'.links[j];
        assert k != i;
        assert if k < i then Compatible(n.links[k], l) else Compatible(l, n.links[k]);
      }
    }
  }

  // ---------------------------------------------------------------------------------------------------
  // Every event
  // ---------------------------------------------------------------------------------------------------

  lemma {:induction false} PermissionFate(n: Node, x: User, y: User, i: nat)
    requires y in n.users && i < |n.links|
    ensures Fate(n, ConnAllow(x, y), i)
  {
    var ev := ConnAllow(x, y);
    StaysAt(n, i, React(n, ev).node, Promotes(n, ev, i));
  }

  lemma {:induction false} ConnIdFate(n: Node, x: User, y: User, ipOk: bool, i: nat)
    requires i < |n.links|
    ensures Fate(n, ConnId(x, y, ipOk), i)
  {
    var ev := ConnId(x, y, ipOk);
    StaysAt(n, i, React(n, ev).node, Promotes(n, ev, i));
  }

  lemma {:induction false} ShutdownFate(n: Node, k: nat, i: nat)
    requires NodeInv(n) && k < |n.links| && i < |n.links|
    ensures Fate(n, Shutdown(k), i)
  {
    var ev := Shutdown(k);
    assert LinkInv(n, n.links[k]);
    StaysAt(n, i, React(n, ev).node, Promotes(n, ev, i));
  }

  lemma {:induction false} NodeMsgFate(n: Node, from: NodeId, m: NodeMsg, i: nat)
    requires NodeInv(n) && from in n.peers && i < |n.links|
    ensures Fate(n, FromNode(from, m), i)
  {
    var ev := FromNode(from, m);
    match m {
      case N2NNotFound(x, y) =>
        var k := Find(n.links, x, y);
        if k < |n.links| && n.links[k].p1.Some? {
          TakenOut(n, i, k);
        } else {
          StaysAt(n, i, React(n, ev).node, false);
        }
      case N2NAllow(x, y) => AllowFate(n, from, x, y, i);
      case _ => StaysAt(n, i, React(n, ev).node, Promotes(n, ev, i));
    }
  }

  lemma {:induction false} AllowFate(n: Node, from: NodeId, x: User, y: User, i: nat)
    requires NodeInv(n) && from in n.peers && i < |n.links|
    ensures Fate(n, FromNode(from, N2NAllow(x, y)), i)
  {
    var ev, k := FromNode(from, N2NAllow(x, y)), Find(n.links, x, y);
    assert k < |n.links| ==> LinkInv(n, n.links[k]);
    StaysAt(n, i, React(n, ev).node, Promotes(n, ev, i));
  }

  lemma {:induction false} DenyFate(n: Node, x: User, y: User, i: nat)
    requires NodeInv(n) && y in n.users && i < |n.links|
    ensures Fate(n, ConnDeny(x, y), i)
  {
    var k := Find(n.links, x, y);
    if k < |n.links| {
      TakenOut(n, i, k);
    } else {
      StaysAt(n, i, n, false);
    }
  }

  /** In every state a node can be in, every event deletes exactly the records it is to delete, and of the others moves
      exactly those it is to move to their next state, and leaves the rest in theirs. */
  lemma {:induction false} EveryRecordHasItsFate(n: Node, ev: Event, i: nat)
    requires NodeInv(n) && Possible(n, ev) && i < |n.links|
    ensures Fate(n, ev, i)
  {
    match ev {
      case ConnReqOutg(_, _) => StaysAt(n, i, React(n, ev).node, false);
      case ConnAllow(x, y) => PermissionFate(n, x, y, i);
      case ConnDeny(x, y) => DenyFate(n, x, y, i);
      case ConnId(x, y, ipOk) => ConnIdFate(n, x, y, ipOk, i);
      case Shutdown(k) => ShutdownFate(n, k, i);
      case DropLink(k) => TakenOut(n, i, k);
      case FromNode(from, m) => NodeMsgFate(n, from, m, i);
      case Logout(x, heir) => KeptOrNot(n, i, NotOfClient(n.users[x]), React(n, ev).node);
      case NodeDown(m) => KeptOrNot(n, i, NotOfNode(m), React(n, ev).node);
      case Tick(now) => KeptOrNot(n, i, InTimeAt(now), React(n, ev).node);
      case _ => StaysAt(n, i, React(n, ev).node, false);
    }
  }

  // ---------------------------------------------------------------------------------------------------
  // Who is here
  // ---------------------------------------------------------------------------------------------------

  /** The users with their clients, the connected nodes and the clock, as the events say. */
  datatype Present = Present(users: map<User, Client>, peers: set<NodeId>, now: int)

  function AfterEvent(p: Present, ev: Event): Present {
    match ev
    case Login(x, c) => p.(users := p.users[x := c])
    case Logout(x, heir) => p.(users := if heir.Some? then p.users[x := heir.value] else p.users - {x})
    case NodeUp(m) => p.(peers := p.peers + {m})
    case NodeDown(m) => p.(peers := p.peers - {m})
    case Tick(now) => p.(now := now)
    case _ => p
  }

  function AfterEvents(p: Present, evs: seq<Event>): Present
    decreases |evs|
  {
    if evs == [] then p else AfterEvents(AfterEvent(p, evs[0]), evs[1..])
  }

  ghost function PresentAt(n: Node): Present {
    Present(n.users, (set m | m in n.peers), n.now)
  }

  lemma {:induction false} EventChangesPresence(n: Node, ev: Event)
    requires Possible(n, ev)
    ensures PresentAt(React(n, ev).node) == AfterEvent(PresentAt(n), ev)
  {
    var n' := React(n, ev).node;
    if ev.NodeUp? || ev.NodeDown? {
      assert (set m | m in n'.peers) == AfterEvent(PresentAt(n), ev).peers;
    } else {
      OthersLeavePeers(n, ev);
    }
  }

  lemma {:induction false} OthersLeavePeers(n: Node, ev: Event)
    requires Possible(n, ev) && !ev.NodeUp? && !ev.NodeDown?
    ensures var n' := React(n, ev).node;
            n'.peers == n.peers && n'.users == AfterEvent(PresentAt(n), ev).users
            && n'.now == AfterEvent(PresentAt(n), ev).now
  {
    if ev.FromNode? {
      MessagesLeavePeers(n, ev.from, ev.nm);
    }
  }

  lemma {:induction false} MessagesLeavePeers(n: Node, from: NodeId, m: NodeMsg)
    ensures var n' := OnNodeMsg(n, from, m).node;
            n'.peers == n.peers && n'.users == n.users && n'.now == n.now
  {
  }

  lemma {:induction false} RunChangesPresence(n: Node, evs: seq<Event>, n': Node)
    requires Runs(n, evs, n')
    ensures PresentAt(n') == AfterEvents(PresentAt(n), evs)
    decreases |evs|
  {
    if evs != [] {
      EventChangesPresence(n, evs[0]);
      RunChangesPresence(React(n, evs[0]).node, evs[1..], n');
    }
  }

  /** In every run: users, nodes and clock are as the events say, and every record has its fate. */
  lemma {:induction false} FatesInRun(me: NodeId, evs: seq<Event>, n: Node, ev: Event, i: nat)
    requires Runs(Fresh(me), evs, n) && Possible(n, ev)
    ensures PresentAt(n) == AfterEvents(Present(map[], {}, 0), evs)
    ensures i < |n.links| ==> Fate(n, ev, i)
  {
    assert NodeInv(Fresh(me));
    RunKeeps(Fresh(me), evs, n);
    assert PresentAt(Fresh(me)) == Present(map[], {}, 0);
    RunChangesPresence(Fresh(me), evs, n);
    if i < |n.links| {
      EveryRecordHasItsFate(n, ev, i);
    }
  }
}
