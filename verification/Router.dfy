/** One node's table of calls: the `cclink` records, their fifteen states in three families, and the handlers
    and timers that create, advance and delete them (PICA_node.c).

    Each handler is a function from the node to the node, the messages it pushes, and what it notes in the log.
    The node is driven by arbitrary events in arbitrary order; a handler that makes the program close a client
    or a node connection is followed, some time later, by the corresponding `Logout` or `NodeDown`. */
module Router {
  import opened Memory

  type User = nat
  type Client = nat
  type NodeId = nat

  /** PICA_CCLINK_*: both clients here (1-6), the caller here (7-11), the callee here (12-15) */
  type LinkState = s: int | 1 <= s <= 15 witness 1

  const LOCAL_WAITREP: LinkState := 1
  const LOCAL_WAITCONNCLE: LinkState := 2
  const LOCAL_CLE_SHUTDOWN: LinkState := 3
  const LOCAL_WAITCONNCLR: LinkState := 4
  const LOCAL_CLR_SHUTDOWN: LinkState := 5
  const LOCAL_ACTIVE: LinkState := 6
  const CLR_WAITSEARCH: LinkState := 7
  const CLR_WAITREP: LinkState := 8
  const CLR_WAITCONNCLR: LinkState := 9
  const CLR_SHUTDOWN: LinkState := 10
  const CLR_ACTIVE: LinkState := 11
  const CLE_WAITREP: LinkState := 12
  const CLE_WAITCONNCLE: LinkState := 13
  const CLE_SHUTDOWN: LinkState := 14
  const CLE_ACTIVE: LinkState := 15

  const TMO_WAITACTIVE: int := 15

  datatype Family = Local | CallerHere | CalleeHere

  function FamilyOf(s: LinkState): Family {
    if s <= LOCAL_ACTIVE then Local else if s <= CLR_ACTIVE then CallerHere else CalleeHere
  }

  predicate IsActive(s: LinkState) {
    s == LOCAL_ACTIVE || s == CLR_ACTIVE || s == CLE_ACTIVE
  }

  /** A call record; `uid` tells records apart that agree in everything else. */
  datatype Link = Link(
    uid: nat, state: LinkState, p1: Option<Client>, p2: Option<Client>, caller: User, callee: User,
    callerNode: Option<NodeId>, calleeNode: Option<NodeId>, sck1: bool, sck2: bool, bufs: bool, tmst: int)

  datatype NodeMsg =
    | Search(y: User)
    | N2NFound(y: User)
    | N2NConnReq(x: User, y: User)
    | N2NAllow(x: User, y: User)
    | N2NNotFound(x: User, y: User)

  datatype ClientMsg = ConnReqInc(x: User) | Found(y: User) | NotFound(y: User)

  datatype Out = ToClient(c: Client, cm: ClientMsg) | ToNode(n: NodeId, nm: NodeMsg)

  /** What the theorems about runs speak of: at a node, the callee's CONNALLOW was taken, the callee's CONNID was
      accepted, FOUND was pushed to the caller on the word of a node `via`. */
  datatype Entry =
    | Allowed(at: NodeId, x: User, y: User)
    | Joined(at: NodeId, x: User, y: User)
    | Reported(via: NodeId, x: User, y: User)

  /** `users` is the client tree: for each id the client it returns.  `asked` counts, for each record, the
      N2NCONNREQOUTG messages pushed for it; `fault`: a message was pushed to a null client. */
  datatype Node = Node(
    me: NodeId, users: map<User, Client>, peers: seq<NodeId>, links: seq<Link>, nextUid: nat, now: int,
    asked: multiset<nat>, fault: bool)

  datatype Result = Result(node: Node, out: seq<Out>, log: seq<Entry>)

  // ---------------------------------------------------------------------------------------------------
  // The list of records
  // ---------------------------------------------------------------------------------------------------

  predicate Between(l: Link, x: User, y: User) {
    l.caller == x && l.callee == y
  }

  predicate WaitsFor(l: Link, y: User) {
    l.callee == y && l.state == CLR_WAITSEARCH
  }

  /** The position of the first record for the pair, or the length of the list. */
  function Find(links: seq<Link>, x: User, y: User): (i: nat)
    ensures i <= |links| && (i < |links| ==> Between(links[i], x, y))
    ensures forall j :: 0 <= j < i ==> !Between(links[j], x, y)
  {
    if links == [] || Between(links[0], x, y) then 0 else 1 + Find(links[1..], x, y)
  }

  predicate Searching(links: seq<Link>, y: User) {
    exists i :: 0 <= i < |links| && WaitsFor(links[i], y)
  }

  /** The records that `keep` keeps, in order. */
  function Keep(links: seq<Link>, keep: Link -> bool): seq<Link> {
    if links == [] then []
    else (if keep(links[0]) then [links[0]] else []) + Keep(links[1..], keep)
  }

  lemma {:induction false} KeepMembers(links: seq<Link>, keep: Link -> bool)
    ensures forall l :: l in Keep(links, keep) <==> l in links && keep(l)
  {
    if links != [] {
      KeepMembers(links[1..], keep);
      assert forall l :: l in links <==> l == links[0] || l in links[1..];
    }
  }

  function Without(links: seq<Link>, i: nat): seq<Link>
    requires i < |links|
  {
    links[..i] + links[i + 1..]
  }

  function NotOfClient(c: Client): Link -> bool {
    (l: Link) => l.p1 != Some(c) && l.p2 != Some(c)
  }

  function NotOfNode(m: NodeId): Link -> bool {
    (l: Link) => l.callerNode != Some(m) && l.calleeNode != Some(m)
  }

  function InTimeAt(now: int): Link -> bool {
    (l: Link) => InTime(l, now)
  }

  predicate InTime(l: Link, now: int) {
    IsActive(l.state) || now - l.tmst <= TMO_WAITACTIVE
  }

  // ---------------------------------------------------------------------------------------------------
  // Handlers
  // ---------------------------------------------------------------------------------------------------

  function Quiet(n: Node): Result {
    Result(n, [], [])
  }

  function Add(n: Node, l: Link): Node {
    n.(links := n.links + [l], nextUid := n.nextUid + 1)
  }

  function SetLink(n: Node, i: nat, l: Link): Node
    requires i < |n.links|
  {
    n.(links := n.links[i := l])
  }

  function Broadcast(peers: seq<NodeId>, y: User): seq<Out> {
    if peers == [] then [] else [ToNode(peers[0], Search(y))] + Broadcast(peers[1..], y)
  }

  /** procmsg_CONNREQOUTG from the client of user x */
  function OnConnReqOutg(n: Node, x: User, y: User): Result
    requires x in n.users
  {
    if y in n.users then
      if Find(n.links, x, y) < |n.links| || x == y then Quiet(n)
      else
        var l := Link(n.nextUid, LOCAL_WAITREP, Some(n.users[x]), Some(n.users[y]), x, y, None, None, false, false,
            false, n.now);
        Result(Add(n, l), [ToClient(n.users[y], ConnReqInc(x))], [])
    else if Searching(n.links, y) || n.peers != [] then
      var l := Link(n.nextUid, CLR_WAITSEARCH, Some(n.users[x]), None, x, y, None, None, false, false, false, n.now);
      Result(Add(n, l), if Searching(n.links, y) then [] else Broadcast(n.peers, y), [])
    else Result(n, [ToClient(n.users[x], NotFound(y))], [])
  }

  /** cclink_setwaitconn */
  function SetWaitConn(l: Link): Link {
    if l.state == LOCAL_WAITREP || l.state == CLR_WAITREP || l.state == CLE_WAITREP
    then l.(state := l.state + 1) else l
  }

  /** procmsg_CONNALLOW from the client of user y */
  function OnConnAllow(n: Node, x: User, y: User): Result {
    var i := Find(n.links, x, y);
    if i < |n.links| && (n.links[i].state == LOCAL_WAITREP || n.links[i].state == CLE_WAITREP)
    then Result(SetLink(n, i, SetWaitConn(n.links[i])), [], [Allowed(n.me, x, y)])
    else Quiet(n)
  }

  /** procmsg_CONNDENY from the client of user y */
  function OnConnDeny(n: Node, x: User, y: User): Result {
    var i := Find(n.links, x, y);
    if i == |n.links| then Quiet(n)
    else
      var l := n.links[i];
      var out :=
        if l.state == LOCAL_WAITREP && l.p1.Some? then [ToClient(l.p1.value, NotFound(y))]
        else if l.state == CLE_WAITREP && l.callerNode.Some? then [ToNode(l.callerNode.value, N2NNotFound(x, y))]
        else [];
      Result(n.(links := Without(n.links, i)), out, [])
  }

  /** procmsg_CONNID with cclink_setwaitanontlsshutdown; `ipOk`: it comes from the address of the client */
  function OnConnId(n: Node, x: User, y: User, ipOk: bool): Result {
    var i := Find(n.links, x, y);
    if i == |n.links| || !ipOk then Quiet(n)
    else
      var l := n.links[i];
      if l.state == LOCAL_WAITCONNCLE
      then Result(SetLink(n, i, l.(state := LOCAL_CLE_SHUTDOWN, sck2 := true)), [], [Joined(n.me, x, y)])
      else if l.state == LOCAL_WAITCONNCLR
      then Result(SetLink(n, i, l.(state := LOCAL_CLR_SHUTDOWN, sck1 := true, bufs := true)), [], [])
      else if l.state == CLR_WAITCONNCLR
      then Result(SetLink(n, i, l.(state := CLR_SHUTDOWN, sck1 := true, bufs := true)), [], [])
      else if l.state == CLE_WAITCONNCLE
      then Result(SetLink(n, i, l.(state := CLE_SHUTDOWN, sck2 := true, bufs := true)), [], [Joined(n.me, x, y)])
      else Quiet(n)
  }

  /** cclink_sendcleconnected and cclink_activate, when the anonymous TLS session of the i-th record's new
      connection has been shut down */
  function OnShutdown(n: Node, i: nat): Result
    requires i < |n.links|
  {
    var l := n.links[i];
    if l.state == LOCAL_CLE_SHUTDOWN && l.p1.Some?
    then Result(SetLink(n, i, l.(state := LOCAL_WAITCONNCLR)), [ToClient(l.p1.value, Found(l.callee))],
                [Reported(n.me, l.caller, l.callee)])
    else if l.state == LOCAL_CLR_SHUTDOWN then Result(SetLink(n, i, l.(state := LOCAL_ACTIVE)), [], [])
    else if l.state == CLR_SHUTDOWN then Result(SetLink(n, i, l.(state := CLR_ACTIVE)), [], [])
    else if l.state == CLE_SHUTDOWN && l.callerNode.Some?
    then Result(SetLink(n, i, l.(state := CLE_ACTIVE)), [ToNode(l.callerNode.value, N2NAllow(l.caller, l.callee))], [])
    else Quiet(n)
  }

  /** cclink_attach_remotecle_node on every record that waits for y */
  function Attach(links: seq<Link>, y: User, from: NodeId): (r: seq<Link>)
    ensures |r| == |links|
    ensures forall i :: 0 <= i < |links| ==>
              r[i] == if WaitsFor(links[i], y) then links[i].(state := CLR_WAITREP, calleeNode := Some(from))
                      else links[i]
  {
    seq(|links|, i requires 0 <= i < |links| =>
      if WaitsFor(links[i], y) then links[i].(state := CLR_WAITREP, calleeNode := Some(from)) else links[i])
  }

  /** One N2NCONNREQOUTG for each record that waits for y, in order. */
  function Requests(links: seq<Link>, y: User, from: NodeId): seq<Out> {
    if links == [] then []
    else (if WaitsFor(links[0], y) then [ToNode(from, N2NConnReq(links[0].caller, y))] else [])
         + Requests(links[1..], y, from)
  }

  function Waiting(links: seq<Link>, y: User): multiset<nat> {
    if links == [] then multiset{}
    else (if WaitsFor(links[0], y) then multiset{links[0].uid} else multiset{}) + Waiting(links[1..], y)
  }

  /** The handlers of what another node sends: procmsg_SEARCH, _N2NFOUND, _N2NCONNREQOUTG, _N2NALLOW,
      _N2NNOTFOUND */
  function OnNodeMsg(n: Node, from: NodeId, m: NodeMsg): Result {
    match m
    case Search(y) => Result(n, if y in n.users then [ToNode(from, N2NFound(y))] else [], [])
    case N2NFound(y) =>
      Result(n.(links := Attach(n.links, y, from), asked := n.asked + Waiting(n.links, y)),
          Requests(n.links, y, from), [])
    case N2NConnReq(x, y) =>
      if y in n.users then
        var l := Link(n.nextUid, CLE_WAITREP, None, Some(n.users[y]), x, y, Some(from), None, false, false, false,
            n.now);
        Result(Add(n, l), [ToClient(n.users[y], ConnReqInc(x))], [])
      else Result(n, [ToNode(from, N2NNotFound(x, y))], [])
    case N2NAllow(x, y) =>
      var i := Find(n.links, x, y);
      if i == |n.links| then Quiet(n)
      else if n.links[i].p1.None? then Quiet(n.(fault := true))
      else Result(SetLink(n, i, SetWaitConn(n.links[i])), [ToClient(n.links[i].p1.value, Found(y))],
          [Reported(from, x, y)])
    case N2NNotFound(x, y) =>
      var i := Find(n.links, x, y);
      if i == |n.links| then Quiet(n)
      else if n.links[i].p1.None? then Quiet(n.(fault := true))
      else Result(n.(links := Without(n.links, i)), [ToClient(n.links[i].p1.value, NotFound(y))], [])
  }

  /** cclink_list_delete_by_client within client_list_delete; another login of the same user may take over */
  function OnLogout(n: Node, x: User, heir: Option<Client>): Node
    requires x in n.users
  {
    var c := n.users[x];
    n.(users := if heir.Some? then n.users[x := heir.value] else n.users - {x},
       links := Keep(n.links, NotOfClient(c)))
  }

  /** nodelink_list_delete with cclink_list_delete_by_nodelink */
  function OnNodeDown(n: Node, m: NodeId): Node {
    n.(peers := RemoveAll(n.peers, m),
       links := Keep(n.links, NotOfNode(m)))
  }

  function RemoveAll(peers: seq<NodeId>, m: NodeId): (r: seq<NodeId>)
    ensures forall p :: p in r <==> p in peers && p != m
  {
    if peers == [] then [] else (if peers[0] == m then [] else [peers[0]]) + RemoveAll(peers[1..], m)
  }

  /** process_timeouts_c2c at time `now` */
  function OnTick(n: Node, now: int): Node {
    n.(now := now, links := Keep(n.links, InTimeAt(now)))
  }

  datatype Event =
    | ConnReqOutg(x: User, y: User)
    | ConnAllow(x: User, y: User)
    | ConnDeny(x: User, y: User)
    | ConnId(x: User, y: User, ipOk: bool)
    | Shutdown(i: nat)
    | DropLink(i: nat)
    | FromNode(from: NodeId, nm: NodeMsg)
    | Login(x: User, c: Client)
    | Logout(x: User, heir: Option<Client>)
    | NodeUp(m: NodeId)
    | NodeDown(m: NodeId)
    | Tick(now: int)

  predicate Possible(n: Node, ev: Event) {
    match ev
    case ConnReqOutg(x, y) => x in n.users
    case ConnAllow(x, y) => y in n.users
    case ConnDeny(x, y) => y in n.users
    case Shutdown(i) => i < |n.links|
    case DropLink(i) => i < |n.links|
    case FromNode(from, _) => from in n.peers
    case Login(x, _) => x !in n.users
    case Logout(x, _) => x in n.users
    case _ => true
  }

  function React(n: Node, ev: Event): Result
    requires Possible(n, ev)
  {
    match ev
    case ConnReqOutg(x, y) => OnConnReqOutg(n, x, y)
    case ConnAllow(x, y) => OnConnAllow(n, x, y)
    case ConnDeny(x, y) => OnConnDeny(n, x, y)
    case ConnId(x, y, ipOk) => OnConnId(n, x, y, ipOk)
    case Shutdown(i) => OnShutdown(n, i)
    case DropLink(i) => Quiet(n.(links := Without(n.links, i)))
    case FromNode(from, m) => OnNodeMsg(n, from, m)
    case Login(x, c) => Quiet(n.(users := n.users[x := c]))
    case Logout(x, heir) => Quiet(OnLogout(n, x, heir))
    case NodeUp(m) => Quiet(n.(peers := n.peers + [m]))
    case NodeDown(m) => Quiet(OnNodeDown(n, m))
    case Tick(now) => Quiet(OnTick(n, now))
  }

  // ---------------------------------------------------------------------------------------------------
  // What every event keeps
  // ---------------------------------------------------------------------------------------------------

  predicate Hosts(n: Node, p: Option<Client>, x: User) {
    x in n.users && p == Some(n.users[x])
  }

  /** What a record in a given state has: its clients are the ones the tree returns for their ids, its other
      side is a connected node, and from the state on in which a connection was taken over its socket and
      buffers are there. */
  predicate LinkInv(n: Node, l: Link) {
    && l.uid < n.nextUid
    && match FamilyOf(l.state)
       case Local =>
         && l.caller != l.callee && Hosts(n, l.p1, l.caller) && Hosts(n, l.p2, l.callee)
         && (l.state >= LOCAL_CLE_SHUTDOWN ==> l.sck2)
         && (l.state >= LOCAL_CLR_SHUTDOWN ==> l.sck1 && l.bufs)
       case CallerHere =>
         && l.caller != l.callee && Hosts(n, l.p1, l.caller) && l.p2 == None
         && (l.state >= CLR_WAITREP ==> l.calleeNode.Some? && l.calleeNode.value in n.peers)
         && (l.state >= CLR_SHUTDOWN ==> l.sck1 && l.bufs)
       case CalleeHere =>
         && l.p1 == None && Hosts(n, l.p2, l.callee)
         && l.callerNode.Some? && l.callerNode.value in n.peers
         && (l.state >= CLE_SHUTDOWN ==> l.sck2 && l.bufs)
  }

  /** Two records of one node: not the same, and for one pair of users never a local call beside another local
      call or beside a call to another node. */
  predicate Compatible(a: Link, b: Link) {
    && a.uid != b.uid
    && (Between(a, b.caller, b.callee) && (FamilyOf(a.state) == Local || FamilyOf(b.state) == Local) ==>
          FamilyOf(a.state) == CalleeHere || FamilyOf(b.state) == CalleeHere)
  }

  predicate Pairwise(links: seq<Link>) {
    forall i, j :: 0 <= i < j < |links| ==> Compatible(links[i], links[j])
  }

  predicate AllLinks(n: Node) {
    forall i :: 0 <= i < |n.links| ==> LinkInv(n, n.links[i])
  }

  /** Exactly one request has gone out for every call to another node that is past the search. */
  ghost predicate AskedOnce(n: Node) {
    && (forall u: nat :: n.asked[u] <= 1 && (u >= n.nextUid ==> n.asked[u] == 0))
    && (forall i :: 0 <= i < |n.links| && FamilyOf(n.links[i].state) == CallerHere ==>
          n.asked[n.links[i].uid] == if n.links[i].state == CLR_WAITSEARCH then 0 else 1)
  }

  ghost predicate NodeInv(n: Node) {
    AllLinks(n) && Pairwise(n.links) && AskedOnce(n)
  }

  /** The same record, at most one state further on its family's path. */
  predicate Successor(l: Link, l': Link) {
    && l'.uid == l.uid && l'.caller == l.caller && l'.callee == l.callee && l'.p1 == l.p1 && l'.p2 == l.p2
    && l'.tmst == l.tmst
    && FamilyOf(l'.state) == FamilyOf(l.state)
    && l.state <= l'.state <= l.state + 1
  }

  ghost predicate Comes(links: seq<Link>, l': Link, newUid: nat) {
    l'.uid == newUid || exists i :: 0 <= i < |links| && Successor(links[i], l')
  }

  /** Every record after the event is new or the successor of one before it. */
  ghost predicate Advances(n: Node, n': Node) {
    && n.nextUid <= n'.nextUid
    && forall j :: 0 <= j < |n'.links| ==> Comes(n.links, n'.links[j], n.nextUid)
  }

  lemma {:induction false} KeepPairwise(links: seq<Link>, keep: Link -> bool)
    requires Pairwise(links)
    ensures Pairwise(Keep(links, keep))
  {
    if links != [] {
      var tail := Keep(links[1..], keep);
      KeepPairwise(links[1..], keep);
      KeepMembers(links[1..], keep);
      forall j | 0 <= j < |tail|
        ensures Compatible(links[0], tail[j])
      {
        assert tail[j] in tail;
        var k :| 0 <= k < |links[1..]| && links[1..][k] == tail[j];
      }
    }
  }

  /** Deleting records, with users and peers changed so that the remaining ones keep what they need. */
  lemma {:induction false} DeleteKeeps(n: Node, n': Node)
    requires NodeInv(n)
    requires n'.nextUid == n.nextUid && n'.asked == n.asked
    requires Pairwise(n'.links) && forall j :: 0 <= j < |n'.links| ==>
             n'.links[j] in n.links && LinkInv(n', n'.links[j])
    ensures NodeInv(n') && Advances(n, n')
  {
  }

  lemma {:induction false} WithoutKeeps(n: Node, i: nat)
    requires NodeInv(n) && i < |n.links|
    ensures NodeInv(n.(links := Without(n.links, i))) && Advances(n, n.(links := Without(n.links, i)))
  {
    var n' := n.(links := Without(n.links, i));
    forall j | 0 <= j < |n'.links|
      ensures n'.links[j] == n.links[if j < i then j else j + 1] && n'.links[j] in n.links
    {
    }
    DeleteKeeps(n, n');
  }

  lemma {:induction false} SetLinkKeeps(n: Node, i: nat, l: Link)
    requires NodeInv(n) && i < |n.links|
    requires Successor(n.links[i], l) && LinkInv(n, l) && n.links[i].state != CLR_WAITSEARCH
    ensures NodeInv(SetLink(n, i, l)) && Advances(n, SetLink(n, i, l))
  {
    var n' := SetLink(n, i, l);
    forall j | 0 <= j < |n'.links|
      ensures Comes(n.links, n'.links[j], n.nextUid)
    {
      assert Successor(n.links[j], n'.links[j]);
    }
  }

  lemma {:induction false} AddKeeps(n: Node, l: Link)
    requires NodeInv(n) && l.uid == n.nextUid
    requires LinkInv(n.(nextUid := n.nextUid + 1), l)
    requires l.state == LOCAL_WAITREP || l.state == CLR_WAITSEARCH || l.state == CLE_WAITREP
    requires forall i :: 0 <= i < |n.links| ==> Compatible(n.links[i], l)
    ensures NodeInv(Add(n, l)) && Advances(n, Add(n, l))
  {
    var n' := Add(n, l);
    forall j | 0 <= j < |n'.links|
      ensures LinkInv(n', n'.links[j]) && Comes(n.links, n'.links[j], n.nextUid)
    {
      if j < |n.links| {
        assert LinkInv(n, n.links[j]) && Successor(n.links[j], n'.links[j]);
      }
    }
  }

  lemma {:induction false} WaitingCounts(links: seq<Link>, y: User, u: nat)
    requires Pairwise(links)
    ensures Waiting(links, y)[u] <= 1
    ensures Waiting(links, y)[u] == 1 <==> exists i :: 0 <= i < |links| && links[i].uid == u && WaitsFor(links[i], y)
  {
    if links != [] {
      WaitingCounts(links[1..], y, u);
      if exists i :: 0 <= i < |links[1..]| && links[1..][i].uid == u && WaitsFor(links[1..][i], y) {
        var i :| 0 <= i < |links[1..]| && links[1..][i].uid == u && WaitsFor(links[1..][i], y);
        assert links[i + 1].uid == u && WaitsFor(links[i + 1], y) && Compatible(links[0], links[i + 1]);
      }
      if exists i :: 0 <= i < |links| && links[i].uid == u && WaitsFor(links[i], y) {
        var i :| 0 <= i < |links| && links[i].uid == u && WaitsFor(links[i], y);
        if i > 0 {
          assert links[1..][i - 1].uid == u && WaitsFor(links[1..][i - 1], y);
        }
      }
    }
  }

  lemma {:induction false} AttachKeeps(n: Node, y: User, from: NodeId)
    requires NodeInv(n) && from in n.peers
    ensures var n' := n.(links := Attach(n.links, y, from), asked := n.asked + Waiting(n.links, y));
            NodeInv(n') && Advances(n, n')
  {
    var n' := n.(links := Attach(n.links, y, from), asked := n.asked + Waiting(n.links, y));
    forall j | 0 <= j < |n.links|
      ensures LinkInv(n', n'.links[j]) && Comes(n.links, n'.links[j], n.nextUid)
    {
      assert LinkInv(n, n.links[j]) && Successor(n.links[j], n'.links[j]);
    }
    AttachAsked(n, y, from);
  }

  lemma {:induction false} AttachAsked(n: Node, y: User, from: NodeId)
    requires NodeInv(n)
    ensures AskedOnce(n.(links := Attach(n.links, y, from), asked := n.asked + Waiting(n.links, y)))
  {
    var n' := n.(links := Attach(n.links, y, from), asked := n.asked + Waiting(n.links, y));
    forall u: nat
      ensures n'.asked[u] <= 1 && (u >= n.nextUid ==> n'.asked[u] == 0)
    {
      WaitingCounts(n.links, y, u);
      if Waiting(n.links, y)[u] == 1 {
        var i :| 0 <= i < |n.links| && n.links[i].uid == u && WaitsFor(n.links[i], y);
        assert LinkInv(n, n.links[i]);
      }
    }
    forall j | 0 <= j < |n'.links| && FamilyOf(n'.links[j].state) == CallerHere
      ensures n'.asked[n'.links[j].uid] == if n'.links[j].state == CLR_WAITSEARCH then 0 else 1
    {
      WaitingCounts(n.links, y, n.links[j].uid);
      if Waiting(n.links, y)[n.links[j].uid] == 1 {
        var i :| 0 <= i < |n.links| && n.links[i].uid == n.links[j].uid && WaitsFor(n.links[i], y);
        assert i < j ==> Compatible(n.links[i], n.links[j]);
        assert j < i ==> Compatible(n.links[j], n.links[i]);
      }
    }
  }

  // ---------------------------------------------------------------------------------------------------
  // Every event
  // ---------------------------------------------------------------------------------------------------

  lemma {:induction false} ReqOutgKeeps(n: Node, x: User, y: User)
    requires NodeInv(n) && x in n.users
    ensures NodeInv(OnConnReqOutg(n, x, y).node) && Advances(n, OnConnReqOutg(n, x, y).node)
  {
    var n' := OnConnReqOutg(n, x, y).node;
    if n' == n {
      DeleteKeeps(n, n);
    } else {
      var l := n'.links[|n.links|];
      forall i | 0 <= i < |n.links|
        ensures Compatible(n.links[i], l)
      {
        assert LinkInv(n, n.links[i]);
      }
      AddKeeps(n, l);
    }
  }

  lemma {:induction false} ProgressKeeps(n: Node, ev: Event)
    requires NodeInv(n) && Possible(n, ev) && (ev.ConnAllow? || ev.ConnId? || ev.Shutdown?)
    ensures NodeInv(React(n, ev).node) && Advances(n, React(n, ev).node)
  {
    var n' := React(n, ev).node;
    var i := if ev.Shutdown? then ev.i else Find(n.links, ev.x, ev.y);
    if n' == n {
      DeleteKeeps(n, n);
    } else {
      assert LinkInv(n, n.links[i]);
      SetLinkKeeps(n, i, n'.links[i]);
    }
  }

  lemma {:induction false} DenyKeeps(n: Node, x: User, y: User)
    requires NodeInv(n)
    ensures NodeInv(OnConnDeny(n, x, y).node) && Advances(n, OnConnDeny(n, x, y).node)
  {
    var i := Find(n.links, x, y);
    if i < |n.links| {
      WithoutKeeps(n, i);
    } else {
      DeleteKeeps(n, n);
    }
  }

  lemma {:induction false} ConnReqKeeps(n: Node, from: NodeId, x: User, y: User)
    requires NodeInv(n) && from in n.peers && y in n.users
    ensures NodeInv(OnNodeMsg(n, from, N2NConnReq(x, y)).node) && Advances(n, OnNodeMsg(n, from, N2NConnReq(x, y)).node)
  {
    var l := OnNodeMsg(n, from, N2NConnReq(x, y)).node.links[|n.links|];
    forall i | 0 <= i < |n.links|
      ensures Compatible(n.links[i], l)
    {
      assert LinkInv(n, n.links[i]);
    }
    AddKeeps(n, l);
  }

  lemma {:induction false} NodeAllowKeeps(n: Node, from: NodeId, x: User, y: User)
    requires NodeInv(n) && Find(n.links, x, y) < |n.links| && n.links[Find(n.links, x, y)].p1.Some?
    ensures NodeInv(OnNodeMsg(n, from, N2NAllow(x, y)).node) && Advances(n, OnNodeMsg(n, from, N2NAllow(x, y)).node)
  {
    var i := Find(n.links, x, y);
    var l := n.links[i];
    assert LinkInv(n, l);
    if l.state == CLR_WAITSEARCH {
      assert SetLink(n, i, l) == n;
      DeleteKeeps(n, n);
    } else {
      assert LinkInv(n, SetWaitConn(l)) && Successor(l, SetWaitConn(l));
      SetLinkKeeps(n, i, SetWaitConn(l));
    }
  }

  /** A handler that changes nothing, or only notes a fault. */
  lemma {:induction false} FaultKeeps(n: Node)
    requires NodeInv(n)
    ensures NodeInv(n) && Advances(n, n) && NodeInv(n.(fault := true)) && Advances(n, n.(fault := true))
  {
    LoginKeeps(n, n);
    LoginKeeps(n, n.(fault := true));
  }

  lemma {:induction false} AnswerKeeps(n: Node, from: NodeId, m: NodeMsg)
    requires NodeInv(n) && from in n.peers && (m.N2NAllow? || m.N2NNotFound?)
    ensures NodeInv(OnNodeMsg(n, from, m).node) && Advances(n, OnNodeMsg(n, from, m).node)
  {
    var i := Find(n.links, m.x, m.y);
    if i == |n.links| || n.links[i].p1.None? {
      FaultKeeps(n);
    } else if m.N2NAllow? {
      NodeAllowKeeps(n, from, m.x, m.y);
    } else {
      WithoutKeeps(n, i);
    }
  }

  lemma {:induction false} NodeMsgKeeps(n: Node, from: NodeId, m: NodeMsg)
    requires NodeInv(n) && from in n.peers
    ensures NodeInv(OnNodeMsg(n, from, m).node) && Advances(n, OnNodeMsg(n, from, m).node)
  {
    match m {
      case Search(_) => FaultKeeps(n);
      case N2NFound(y) => AttachKeeps(n, y, from);
      case N2NConnReq(x, y) =>
        if y in n.users {
          ConnReqKeeps(n, from, x, y);
        } else {
          FaultKeeps(n);
        }
      case N2NAllow(_, _) => AnswerKeeps(n, from, m);
      case N2NNotFound(_, _) => AnswerKeeps(n, from, m);
    }
  }

  lemma {:induction false} LogoutKeeps(n: Node, x: User, heir: Option<Client>)
    requires NodeInv(n) && x in n.users
    ensures NodeInv(OnLogout(n, x, heir)) && Advances(n, OnLogout(n, x, heir))
  {
    var c := n.users[x];
    var n' := OnLogout(n, x, heir);
    var keep := NotOfClient(c);
    KeepPairwise(n.links, keep);
    KeepMembers(n.links, keep);
    forall j | 0 <= j < |n'.links|
      ensures LinkInv(n', n'.links[j]) && n'.links[j] in n.links
    {
      assert n'.links[j] in n'.links;
      var i :| 0 <= i < |n.links| && n.links[i] == n'.links[j];
      assert LinkInv(n, n.links[i]);
    }
    DeleteKeeps(n, n');
  }

  lemma {:induction false} NodeDownKeeps(n: Node, m: NodeId)
    requires NodeInv(n)
    ensures NodeInv(OnNodeDown(n, m)) && Advances(n, OnNodeDown(n, m))
  {
    var n' := OnNodeDown(n, m);
    var keep := NotOfNode(m);
    KeepPairwise(n.links, keep);
    KeepMembers(n.links, keep);
    forall j | 0 <= j < |n'.links|
      ensures LinkInv(n', n'.links[j]) && n'.links[j] in n.links
    {
      assert n'.links[j] in n'.links;
      var i :| 0 <= i < |n.links| && n.links[i] == n'.links[j];
      assert LinkInv(n, n.links[i]);
    }
    DeleteKeeps(n, n');
  }

  lemma {:induction false} TickKeeps(n: Node, now: int)
    requires NodeInv(n)
    ensures NodeInv(OnTick(n, now)) && Advances(n, OnTick(n, now))
  {
    var n' := OnTick(n, now);
    var keep := InTimeAt(now);
    KeepPairwise(n.links, keep);
    KeepMembers(n.links, keep);
    forall j | 0 <= j < |n'.links|
      ensures LinkInv(n', n'.links[j]) && n'.links[j] in n.links
    {
      assert n'.links[j] in n'.links;
      var i :| 0 <= i < |n.links| && n.links[i] == n'.links[j];
      assert LinkInv(n, n.links[i]);
    }
    DeleteKeeps(n, n');
  }

  lemma {:induction false} LoginKeeps(n: Node, n': Node)
    requires NodeInv(n)
    requires n'.links == n.links && n'.nextUid == n.nextUid && n'.asked == n.asked
    requires forall x :: x in n.users ==> x in n'.users && n'.users[x] == n.users[x]
    requires forall m :: m in n.peers ==> m in n'.peers
    ensures NodeInv(n') && Advances(n, n')
  {
  }

  /** Whatever happens at a node, to whatever peers and clients send: the invariant is kept and every record only
      moves one state at a time along the path of its family. */
  lemma {:induction false} EventKeeps(n: Node, ev: Event)
    requires NodeInv(n) && Possible(n, ev)
    ensures NodeInv(React(n, ev).node) && Advances(n, React(n, ev).node)
  {
    match ev {
      case ConnReqOutg(x, y) => ReqOutgKeeps(n, x, y);
      case ConnAllow(_, _) => ProgressKeeps(n, ev);
      case ConnDeny(x, y) => DenyKeeps(n, x, y);
      case ConnId(_, _, _) => ProgressKeeps(n, ev);
      case Shutdown(_) => ProgressKeeps(n, ev);
      case DropLink(i) => WithoutKeeps(n, i);
      case FromNode(from, m) => NodeMsgKeeps(n, from, m);
      case Login(_, _) => LoginKeeps(n, React(n, ev).node);
      case Logout(x, heir) => LogoutKeeps(n, x, heir);
      case NodeUp(_) => LoginKeeps(n, React(n, ev).node);
      case NodeDown(m) => NodeDownKeeps(n, m);
      case Tick(now) => TickKeeps(n, now);
    }
  }

  // ---------------------------------------------------------------------------------------------------
  // Runs
  // ---------------------------------------------------------------------------------------------------

  function Fresh(me: NodeId): Node {
    Node(me, map[], [], [], 0, 0, multiset{}, false)
  }

  ghost predicate Runs(n: Node, evs: seq<Event>, n': Node)
    decreases |evs|
  {
    if evs == [] then n' == n
    else Possible(n, evs[0]) && Runs(React(n, evs[0]).node, evs[1..], n')
  }

  /** The same call, possibly many states later. */
  predicate Descends(l: Link, l': Link) {
    && l'.uid == l.uid && l'.caller == l.caller && l'.callee == l.callee && l'.p1 == l.p1 && l'.p2 == l.p2
    && FamilyOf(l'.state) == FamilyOf(l.state) && l.state <= l'.state
  }

  ghost predicate Grown(n: Node, n': Node) {
    && n.nextUid <= n'.nextUid
    && forall j :: 0 <= j < |n'.links| && n'.links[j].uid < n.nextUid ==>
         exists i :: 0 <= i < |n.links| && Descends(n.links[i], n'.links[j])
  }

  lemma {:induction false} RunKeeps(n: Node, evs: seq<Event>, n': Node)
    requires NodeInv(n) && Runs(n, evs, n')
    ensures NodeInv(n') && Grown(n, n')
    decreases |evs|
  {
    if evs == [] {
      forall j | 0 <= j < |n'.links|
        ensures exists i :: 0 <= i < |n.links| && Descends(n.links[i], n'.links[j])
      {
        assert Descends(n.links[j], n'.links[j]);
      }
    } else {
      var m := React(n, evs[0]).node;
      EventKeeps(n, evs[0]);
      RunKeeps(m, evs[1..], n');
      forall j | 0 <= j < |n'.links| && n'.links[j].uid < n.nextUid
        ensures exists i :: 0 <= i < |n.links| && Descends(n.links[i], n'.links[j])
      {
        var k :| 0 <= k < |m.links| && Descends(m.links[k], n'.links[j]);
        assert Comes(n.links, m.links[k], n.nextUid);
        var i :| 0 <= i < |n.links| && Successor(n.links[i], m.links[k]);
        assert Descends(n.links[i], n'.links[j]);
      }
    }
  }

  /** In every state a node can reach: for each caller and callee at most one local call and never a local call
      beside a call to another node, no call from a user to itself, every client of a call is the one the tree
      returns for its id, states imply the resources they need, and exactly one N2NCONNREQOUTG went out for each
      call past its search.  From any earlier state on, calls have only advanced within their family. */
  lemma {:induction false} ReachableRouter(me: NodeId, before: seq<Event>, n: Node, after: seq<Event>, n': Node)
    requires Runs(Fresh(me), before, n) && Runs(n, after, n')
    ensures NodeInv(n) && NodeInv(n') && Grown(n, n')
  {
    assert NodeInv(Fresh(me));
    RunKeeps(Fresh(me), before, n);
    RunKeeps(n, after, n');
  }

  /** How many records of caller x wait for y. */
  function WaitingOf(links: seq<Link>, x: User, y: User): nat {
    if links == [] then 0
    else (if WaitsFor(links[0], y) && links[0].caller == x then 1 else 0) + WaitingOf(links[1..], x, y)
  }

  /** An answer to a search pushes exactly as many requests for a caller as records of that caller waited, and counts
      each of these records once. */
  lemma {:induction false} OneRequestPerWaitingRecord(links: seq<Link>, y: User, from: NodeId, x: User)
    ensures multiset(Requests(links, y, from))[ToNode(from, N2NConnReq(x, y))] == WaitingOf(links, x, y)
    ensures |Requests(links, y, from)| == |Waiting(links, y)|
  {
    if links != [] {
      OneRequestPerWaitingRecord(links[1..], y, from, x);
      var head := if WaitsFor(links[0], y) then [ToNode(from, N2NConnReq(links[0].caller, y))] else [];
      assert Requests(links, y, from) == head + Requests(links[1..], y, from);
    }
  }

  /** A search answered by a second node finds no call waiting any more: nothing is pushed and nothing changes. */
  lemma {:induction false} SecondAnswerIsIdle(n: Node, y: User, a: NodeId, b: NodeId)
    ensures var n1 := OnNodeMsg(n, a, N2NFound(y)).node;
            OnNodeMsg(n1, b, N2NFound(y)) == Result(n1, [], [])
  {
    var n1 := OnNodeMsg(n, a, N2NFound(y)).node;
    NoneWaiting(n1.links, y, b);
    assert Attach(n1.links, y, b) == n1.links;
    assert n1.asked + multiset{} == n1.asked;
  }

  lemma {:induction false} NoneWaiting(links: seq<Link>, y: User, from: NodeId)
    requires forall i :: 0 <= i < |links| ==> !WaitsFor(links[i], y)
    ensures Requests(links, y, from) == [] && Waiting(links, y) == multiset{}
  {
    if links != [] {
      NoneWaiting(links[1..], y, from);
    }
  }

  // ---------------------------------------------------------------------------------------------------
  // The loops of the program over the list
  // ---------------------------------------------------------------------------------------------------

  class LinkList {
    var links: seq<Link>

    constructor ()
      ensures links == []
    {
      links := [];
    }

    /** cclink_list_search */
    method SearchLink(x: User, y: User) returns (i: nat)
      ensures i == Find(links, x, y)
    {
      i := 0;
      while i < |links|
        invariant i <= |links|
        invariant Find(links, x, y) == i + Find(links[i..], x, y)
      {
        if links[i].caller == x && links[i].callee == y {
          return;
        }
        i := i + 1;
      }
    }

    /** cclink_list_findwaitsearch */
    method FindWaitSearch(y: User) returns (i: nat)
      ensures i <= |links| && (i < |links| ==> WaitsFor(links[i], y))
      ensures forall j :: 0 <= j < i ==> !WaitsFor(links[j], y)
    {
      i := 0;
      while i < |links|
        invariant i <= |links|
        invariant forall j :: 0 <= j < i ==> !WaitsFor(links[j], y)
      {
        if links[i].callee == y && links[i].state == CLR_WAITSEARCH {
          return;
        }
        i := i + 1;
      }
    }

    /** procmsg_N2NFOUND: as long as a record waits for y it is attached to the answering node, which is sent a
        request; the loop ends because each pass takes one record out of the search. */
    method OnN2NFound(y: User, from: NodeId) returns (out: seq<Out>)
      modifies this
      ensures links == Attach(old(links), y, from)
      ensures out == Requests(old(links), y, from)
    {
      ghost var was := links;
      out := [];
      var i := FindWaitSearch(y);
      SkipIdle(was, y, from, 0, i);
      while i < |links|
        invariant |links| == |was| && i <= |was|
        invariant forall j :: 0 <= j < i ==> links[j] == Attach(was, y, from)[j]
        invariant forall j :: i <= j < |was| ==> links[j] == was[j]
        invariant i < |links| ==> WaitsFor(was[i], y)
        invariant Requests(was, y, from) == out + Requests(was[i..], y, from)
        decreases |was| - i
      {
        links := links[i := links[i].(state := CLR_WAITREP, calleeNode := Some(from))];
        out := out + [ToNode(from, N2NConnReq(links[i].caller, y))];
        var next := FindWaitSearch(y);
        NextWaiting(was, links, y, from, i, next);
        i := next;
      }
    }

    /** The walk that process_timeouts_c2c, cclink_list_delete_by_client and cclink_list_delete_by_nodelink have in
        common: step to the next record before the present one is deleted. */
    method DeleteUnless(keep: Link -> bool)
      modifies this
      ensures links == Keep(old(links), keep)
    {
      ghost var was, done, rest := links, [], links;
      var il := 0;
      while il < |links|
        invariant il == |done| && links == done + rest
        invariant done + Keep(rest, keep) == Keep(was, keep)
        decreases |rest|
      {
        Split(done, rest, keep);
        if keep(links[il]) {
          done := done + [rest[0]];
          il := il + 1;
        } else {
          links := Without(links, il);
        }
        rest := rest[1..];
      }
    }

    /** process_timeouts_c2c */
    method TimeOut(now: int)
      modifies this
      ensures forall i :: 0 <= i < |links| ==> IsActive(links[i].state) || now - links[i].tmst <= TMO_WAITACTIVE
      ensures forall l :: l in old(links) && InTime(l, now) ==> l in links
      ensures links == Keep(old(links), InTimeAt(now))
    {
      KeepMembers(links, InTimeAt(now));
      DeleteUnless(InTimeAt(now));
      forall i | 0 <= i < |links|
        ensures InTime(links[i], now)
      {
        assert links[i] in links;
      }
    }

    /** cclink_list_delete_by_client */
    method DeleteByClient(c: Client)
      modifies this
      ensures links == Keep(old(links), NotOfClient(c))
    {
      DeleteUnless(NotOfClient(c));
    }

    /** cclink_list_delete_by_nodelink */
    method DeleteByNodelink(m: NodeId)
      modifies this
      ensures links == Keep(old(links), NotOfNode(m))
    {
      DeleteUnless(NotOfNode(m));
    }
  }

  lemma {:induction false} Split(done: seq<Link>, rest: seq<Link>, keep: Link -> bool)
    requires rest != []
    ensures (done + rest)[|done|] == rest[0]
    ensures done + rest == done + [rest[0]] + rest[1..]
    ensures Without(done + rest, |done|) == done + rest[1..]
    ensures done + Keep(rest, keep) == (if keep(rest[0]) then done + [rest[0]] else done) + Keep(rest[1..], keep)
  {
    assert rest == [rest[0]] + rest[1..];
    assert (done + rest)[..|done|] == done && (done + rest)[|done| + 1..] == rest[1..];
    Regroup(done, if keep(rest[0]) then [rest[0]] else [], Keep(rest[1..], keep));
    assert done + [] == done;
  }

  lemma {:induction false} Regroup(a: seq<Link>, b: seq<Link>, c: seq<Link>)
    ensures a + (b + c) == a + b + c
  {
  }

  /** After the i-th record has been attached, the next one found is behind it, with no waiting one between. */
  lemma {:induction false} NextWaiting(was: seq<Link>, links: seq<Link>, y: User, from: NodeId, i: nat, next: nat)
    requires i < |was| == |links| && next <= |links| && WaitsFor(was[i], y)
    requires forall j :: 0 <= j < i ==> links[j] == Attach(was, y, from)[j]
    requires links[i] == Attach(was, y, from)[i]
    requires forall j :: i < j < |was| ==> links[j] == was[j]
    requires next < |links| ==> WaitsFor(links[next], y)
    requires forall j :: 0 <= j < next ==> !WaitsFor(links[j], y)
    ensures i < next
    ensures forall j :: 0 <= j < next ==> links[j] == Attach(was, y, from)[j]
    ensures Requests(was[i..], y, from) == [ToNode(from, N2NConnReq(was[i].caller, y))] + Requests(was[next..], y, from)
  {
    assert next < |links| && next <= i ==> !WaitsFor(Attach(was, y, from)[next], y);
    assert was[i..][1..] == was[i + 1..];
    SkipIdle(was, y, from, i + 1, next);
  }

  lemma {:induction false} SkipIdle(links: seq<Link>, y: User, from: NodeId, i: nat, j: nat)
    requires i <= j <= |links|
    requires forall k :: i <= k < j ==> !WaitsFor(links[k], y)
    ensures Requests(links[i..], y, from) == Requests(links[j..], y, from)
    decreases j - i
  {
    if i < j {
      assert links[i..][1..] == links[i + 1..];
      SkipIdle(links, y, from, i + 1, j);
    }
  }
}
