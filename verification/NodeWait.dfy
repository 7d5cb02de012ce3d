/** Handing records over between the main loop and its worker threads (PICA_nodewait.c, process_nodewait in
    PICA_node.c).

    A record belongs to a worker from the moment it is started until it writes its result into `state` as its last
    action, and to the main loop from then until the main loop restarts or frees it.  Nothing but `state` says so.
    Steps of the main loop and of the workers interleave freely. */
module NodeWait {
  import opened Memory

  datatype State = Resolving | Resolved | Connecting | Connected | ResolvingFailed | ConnectFailed

  /** The states in which the main loop acts. */
  predicate Finished(s: State) {
    s == Resolved || s == Connected || s == ResolvingFailed || s == ConnectFailed
  }

  datatype Kind = Resolver | Connector

  /** The state a record has while a worker of a kind is at work on it. */
  function Busy(k: Kind): State {
    if k == Resolver then Resolving else Connecting
  }

  /** The states a worker of a kind may write as its last action. */
  predicate MayWrite(k: Kind, s: State) {
    if k == Resolver then s == Resolved || s == ResolvingFailed else s == Connected || s == ConnectFailed
  }

  type Rec = nat

  datatype Worker = Worker(kind: Kind, rec: Rec)

  /** Between passes, or in a pass over the list with these records still to visit; `seen` is the state read at the
      first of them. */
  datatype MainLoop = Outside | Inside(left: seq<Rec>, seen: Seen)

  datatype Seen = NotYet | Saw(state: State)

  /** `freed` holds the records that have been freed, `lost` those left busy with no thread at work: its creation
      failed, or it gave up without writing a result. */
  datatype World = World(list: seq<Rec>, state: map<Rec, State>, workers: map<nat, Worker>, main: MainLoop,
                         freed: set<Rec>, lost: set<Rec>)

  datatype Step =
    | StartResolve(rec: Rec, worker: nat, created: bool)
    | BeginPass
    | Look
    | Act(skip: bool, worker: nat, created: bool)
    | Touch(worker: nat)
    | Finish(worker: nat, result: State)
    | GiveUp(worker: nat)

  // ---------------------------------------------------------------------------------------------------
  // The steps
  // ---------------------------------------------------------------------------------------------------

  function Put(l: seq<Rec>, r: Rec): seq<Rec> {
    [r] + l
  }

  function Drop(l: seq<Rec>, r: Rec): seq<Rec> {
    if l == [] then [] else if l[0] == r then l[1..] else [l[0]] + Drop(l[1..], r)
  }

  predicate Enabled(w: World, s: Step) {
    match s
    case StartResolve(rec, worker, created) =>
      w.main.Outside? && rec !in w.state && worker !in w.workers
    case BeginPass => w.main.Outside?
    case Look => w.main.Inside? && w.main.left != [] && w.main.seen.NotYet? && w.main.left[0] in w.state
    case Act(skip, worker, created) => w.main.Inside? && w.main.left != [] && w.main.seen.Saw? && worker !in w.workers
    case Touch(worker) => worker in w.workers
    case Finish(worker, result) => worker in w.workers && MayWrite(w.workers[worker].kind, result)
    case GiveUp(worker) => worker in w.workers && w.workers[worker].kind == Connector
  }

  /** A thread is started on a record that has just been marked busy. */
  function Started(w: World, kind: Kind, rec: Rec, worker: nat, created: bool): World {
    var w := w.(state := w.state[rec := Busy(kind)]);
    if created then w.(workers := w.workers[worker := Worker(kind, rec)]) else w.(lost := w.lost + {rec})
  }

  function Freed(w: World, rec: Rec): World {
    w.(list := Drop(w.list, rec), freed := w.freed + {rec})
  }

  /** The switch of process_nodewait on the state that was read. */
  function Acted(w: World, rec: Rec, seen: State, skip: bool, worker: nat, created: bool): World {
    match seen
    case Resolved => if skip then Freed(w, rec) else Started(w, Connector, rec, worker, created)
    case Connected => Freed(w, rec)
    case ResolvingFailed => Freed(w, rec)
    case ConnectFailed => Freed(w, rec)
    case _ => w
  }

  function Advance(m: MainLoop): MainLoop
    requires m.Inside? && m.left != []
  {
    if |m.left| == 1 then Outside else Inside(m.left[1..], NotYet)
  }

  function Next(w: World, s: Step): World
    requires Enabled(w, s)
  {
    match s
    case StartResolve(rec, worker, created) =>
      Started(w.(list := Put(w.list, rec)), Resolver, rec, worker, created)
    case BeginPass => w.(main := if w.list == [] then Outside else Inside(w.list, NotYet))
    case Look => w.(main := w.main.(seen := Saw(w.state[w.main.left[0]])))
    case Act(skip, worker, created) =>
      Acted(w, w.main.left[0], w.main.seen.state, skip, worker, created).(main := Advance(w.main))
    case Touch(worker) => w
    case Finish(worker, result) =>
      w.(state := w.state[w.workers[worker].rec := result], workers := w.workers - {worker})
    case GiveUp(worker) =>
      w.(lost := w.lost + {w.workers[worker].rec}, workers := w.workers - {worker})
  }

  // ---------------------------------------------------------------------------------------------------
  // Who owns a record
  // ---------------------------------------------------------------------------------------------------

  predicate Ends(l: seq<Rec>, tail: seq<Rec>) {
    |tail| <= |l| && l[|l| - |tail|..] == tail
  }

  ghost predicate AtWork(w: World, r: Rec) {
    exists i :: i in w.workers && w.workers[i].rec == r
  }

  /** A worker's record is on the list and busy, and no other worker has it. */
  ghost predicate WorkersInv(w: World) {
    && (forall i :: i in w.workers ==> Employed(w, w.workers[i]))
    && (forall i, j :: i in w.workers && j in w.workers && w.workers[i].rec == w.workers[j].rec ==> i == j)
  }

  predicate Employed(w: World, x: Worker) {
    x.rec in w.list && x.rec in w.state && w.state[x.rec] == Busy(x.kind) && x.rec !in w.lost
  }

  ghost predicate RecordsInv(w: World) {
    && Distinct(w.list)
    && (forall r :: r in w.list ==> r in w.state && r !in w.freed)
    && (forall r :: r in w.freed ==> r in w.state)
    && (forall r :: r in w.list && !Finished(w.state[r]) ==> r in w.lost || AtWork(w, r))
    && (forall r :: r in w.lost ==> r in w.list && r in w.state && !Finished(w.state[r]))
  }

  predicate MainInv(w: World) {
    w.main.Inside? ==>
      && w.main.left != [] && Ends(w.list, w.main.left)
      && (w.main.seen.Saw? && Finished(w.main.seen.state) ==>
            w.main.left[0] in w.state && w.state[w.main.left[0]] == w.main.seen.state)
  }

  ghost predicate Inv(w: World) {
    WorkersInv(w) && RecordsInv(w) && MainInv(w)
  }

  lemma {:induction false} DropAt(l: seq<Rec>, k: nat)
    requires k < |l| && forall i :: 0 <= i < k ==> l[i] != l[k]
    ensures Drop(l, l[k]) == l[..k] + l[k + 1..]
  {
    if k > 0 {
      DropAt(l[1..], k - 1);
    }
  }

  lemma {:induction false} DropNone(l: seq<Rec>, r: Rec)
    requires r !in l
    ensures Drop(l, r) == l
  {
    if l != [] {
      DropNone(l[1..], r);
    }
  }

  /** Deletion takes out exactly one record. */
  lemma {:induction false} DropFacts(l: seq<Rec>, r: Rec)
    requires Distinct(l)
    ensures Distinct(Drop(l, r)) && forall x :: x in Drop(l, r) <==> x in l && x != r
  {
    if r in l {
      var k :| 0 <= k < |l| && l[k] == r;
      OnlyAt(l, k);
      DropAt(l, k);
      OneOut(l, k);
    } else {
      DropNone(l, r);
    }
  }

  /** Deleting the record under the cursor leaves the rest of the list for the cursor. */
  lemma {:induction false} DropCursor(l: seq<Rec>, left: seq<Rec>)
    requires Distinct(l) && left != [] && Ends(l, left)
    ensures Ends(Drop(l, left[0]), left[1..]) && left[0] in l
  {
    var k := |l| - |left|;
    assert l[k] == l[k..][0];
    OnlyAt(l, k);
    DropAt(l, k);
    assert (l[..k] + l[k + 1..])[k..] == l[k + 1..] == l[k..][1..];
  }

  lemma {:induction false} EndsRest(l: seq<Rec>, left: seq<Rec>)
    requires left != [] && Ends(l, left)
    ensures Ends(l, left[1..]) && left[0] in l
  {
  }

  // ---------------------------------------------------------------------------------------------------
  // What every step keeps
  // ---------------------------------------------------------------------------------------------------

  lemma {:induction false} StartedKeeps(w: World, kind: Kind, rec: Rec, worker: nat, created: bool)
    requires WorkersInv(w) && rec in w.list && rec !in w.freed && rec !in w.lost && worker !in w.workers
    requires Distinct(w.list) && forall r :: r in w.list && r != rec ==> r in w.state && r !in w.freed
    requires forall r :: r in w.freed ==> r in w.state
    requires forall r :: r in w.list && r != rec && r in w.state && !Finished(w.state[r]) ==>
             r in w.lost || AtWork(w, r)
    requires forall r :: r in w.lost ==> r in w.list && r in w.state && !Finished(w.state[r])
    requires !AtWork(w, rec)
    ensures WorkersInv(Started(w, kind, rec, worker, created)) && RecordsInv(Started(w, kind, rec, worker, created))
  {
    var v := Started(w, kind, rec, worker, created);
    forall i | i in v.workers
      ensures Employed(v, v.workers[i])
    {
      assert i in w.workers ==> Employed(w, w.workers[i]);
    }
    forall r | r in v.list && !Finished(v.state[r])
      ensures r in v.lost || AtWork(v, r)
    {
      if r == rec {
        assert created ==> v.workers[worker].rec == r;
      } else if r !in v.lost {
        var i :| i in w.workers && w.workers[i].rec == r;
        assert v.workers[i].rec == r;
      }
    }
  }

  /** A record in a finished state has no worker, so the main loop has it to itself. */
  lemma {:induction false} FinishedIsIdle(w: World, r: Rec)
    requires Inv(w) && r in w.state && Finished(w.state[r])
    ensures !AtWork(w, r) && r !in w.lost
  {
  }

  lemma {:induction false} FreedKeeps(w: World, rec: Rec)
    requires Inv(w) && rec in w.list && Finished(w.state[rec])
    ensures WorkersInv(Freed(w, rec)) && RecordsInv(Freed(w, rec))
  {
    var v := Freed(w, rec);
    DropFacts(w.list, rec);
    FinishedIsIdle(w, rec);
    forall i | i in v.workers
      ensures Employed(v, v.workers[i])
    {
      assert Employed(w, w.workers[i]);
    }
    forall r | r in v.list && !Finished(v.state[r])
      ensures r in v.lost || AtWork(v, r)
    {
      if r !in v.lost {
        var i :| i in w.workers && w.workers[i].rec == r;
        assert v.workers[i].rec == r;
      }
    }
  }

  /** What the switch leaves for the cursor. */
  lemma {:induction false} ActedKeeps(w: World, rec: Rec, seen: State, skip: bool, worker: nat, created: bool)
    requires Inv(w) && w.main.Inside? && rec == w.main.left[0] && worker !in w.workers
    requires Finished(seen) ==> rec in w.state && w.state[rec] == seen
    ensures var v := Acted(w, rec, seen, skip, worker, created);
            WorkersInv(v) && RecordsInv(v) && Ends(v.list, w.main.left[1..])
  {
    EndsRest(w.list, w.main.left);
    if Finished(seen) {
      FinishedIsIdle(w, rec);
      if seen == Resolved && !skip {
        StartedKeeps(w, Connector, rec, worker, created);
      } else {
        FreedKeeps(w, rec);
        DropCursor(w.list, w.main.left);
      }
    }
  }

  lemma {:induction false} ActKeeps(w: World, skip: bool, worker: nat, created: bool)
    requires Inv(w) && Enabled(w, Act(skip, worker, created))
    ensures Inv(Next(w, Act(skip, worker, created)))
  {
    var rec, seen := w.main.left[0], w.main.seen.state;
    ActedKeeps(w, rec, seen, skip, worker, created);
    var v, v' := Acted(w, rec, seen, skip, worker, created), Next(w, Act(skip, worker, created));
    MainDoesNotMatter(v, v');
  }

  /** The other invariants do not speak of the cursor. */
  lemma {:induction false} MainDoesNotMatter(v: World, v': World)
    requires v' == v.(main := v'.main) && WorkersInv(v) && RecordsInv(v)
    ensures WorkersInv(v') && RecordsInv(v')
  {
  }

  lemma {:induction false} StartResolveKeeps(w: World, rec: Rec, worker: nat, created: bool)
    requires Inv(w) && Enabled(w, StartResolve(rec, worker, created))
    ensures Inv(Next(w, StartResolve(rec, worker, created)))
  {
    var v := w.(list := Put(w.list, rec));
    OneBefore(rec, w.list);
    assert rec !in w.list && rec !in w.lost;
    forall i | i in v.workers
      ensures Employed(v, v.workers[i]) && v.workers[i].rec != rec
    {
      assert Employed(w, w.workers[i]);
    }
    forall r | r in v.list && r != rec && !Finished(v.state[r])
      ensures r in v.lost || AtWork(v, r)
    {
      if r !in v.lost {
        var i :| i in w.workers && w.workers[i].rec == r;
        assert v.workers[i].rec == r;
      }
    }
    StartedKeeps(v, Resolver, rec, worker, created);
  }

  /** The end of a worker, with or without a result. */
  lemma {:induction false} WorkerEndKeeps(w: World, s: Step)
    requires Inv(w) && Enabled(w, s) && (s.Finish? || s.GiveUp?)
    ensures Inv(Next(w, s))
  {
    var v, rec := Next(w, s), w.workers[s.worker].rec;
    assert Employed(w, w.workers[s.worker]);
    forall i | i in v.workers
      ensures Employed(v, v.workers[i])
    {
      assert Employed(w, w.workers[i]) && w.workers[i].rec != rec;
    }
    forall r | r in v.list && !Finished(v.state[r])
      ensures r in v.lost || AtWork(v, r)
    {
      if r != rec && r !in v.lost {
        var i :| i in w.workers && w.workers[i].rec == r;
        assert i != s.worker && v.workers[i].rec == r;
      }
    }
  }

  lemma {:induction false} StepKeeps(w: World, s: Step)
    requires Inv(w) && Enabled(w, s)
    ensures Inv(Next(w, s))
  {
    match s
    case StartResolve(rec, worker, created) => StartResolveKeeps(w, rec, worker, created);
    case BeginPass => MainDoesNotMatter(w, Next(w, s));
    case Look => MainDoesNotMatter(w, Next(w, s));
    case Act(skip, worker, created) => ActKeeps(w, skip, worker, created);
    case Touch(worker) =>
    case Finish(worker, result) => WorkerEndKeeps(w, s);
    case GiveUp(worker) => WorkerEndKeeps(w, s);
  }

  // ---------------------------------------------------------------------------------------------------
  // Every run
  // ---------------------------------------------------------------------------------------------------

  predicate Possible(w: World, steps: seq<Step>)
    decreases |steps|
  {
    steps == [] || (Enabled(w, steps[0]) && Possible(Next(w, steps[0]), steps[1..]))
  }

  function Run(w: World, steps: seq<Step>): World
    requires Possible(w, steps)
    decreases |steps|
  {
    if steps == [] then w else Run(Next(w, steps[0]), steps[1..])
  }

  function Empty(): World {
    World([], map[], map[], Outside, {}, {})
  }

  lemma {:induction false} RunKeeps(w: World, steps: seq<Step>)
    requires Inv(w) && Possible(w, steps)
    ensures Inv(Run(w, steps))
    decreases |steps|
  {
    if steps != [] {
      StepKeeps(w, steps[0]);
      RunKeeps(Next(w, steps[0]), steps[1..]);
    }
  }

  /** A record belongs to exactly one: to the main loop, or to the one worker that is at work on it. */
  ghost predicate OneOwner(w: World, r: Rec) {
    r in w.state && (Finished(w.state[r]) != AtWork(w, r)) &&
    forall i, j :: i in w.workers && j in w.workers && w.workers[i].rec == r && w.workers[j].rec == r ==> i == j
  }

  /** In every interleaving: a worker's record has not been freed, and of the records on the list exactly the lost ones
      have no owner. */
  lemma {:induction false} EveryRecordHasOneOwnerUnlessLost(steps: seq<Step>)
    requires Possible(Empty(), steps)
    ensures var w := Run(Empty(), steps);
            && (forall i :: i in w.workers ==> w.workers[i].rec in w.list && w.workers[i].rec !in w.freed)
            && (forall r :: r in w.list ==> (OneOwner(w, r) <==> r !in w.lost))
  {
    RunKeeps(Empty(), steps);
    var w := Run(Empty(), steps);
    assert forall i :: i in w.workers ==> Employed(w, w.workers[i]);
    forall r | r in w.list
      ensures OneOwner(w, r) <==> r !in w.lost
    {
      if Finished(w.state[r]) {
        FinishedIsIdle(w, r);
      }
    }
  }

  /** The main loop frees or restarts a record only when no worker has it. */
  lemma {:induction false} ActsOnlyOnItsOwn(steps: seq<Step>, skip: bool, worker: nat, created: bool)
    requires Possible(Empty(), steps) && Enabled(Run(Empty(), steps), Act(skip, worker, created))
    ensures var w := Run(Empty(), steps);
            var v := Next(w, Act(skip, worker, created));
            var r := w.main.left[0];
            v.(main := w.main) != w ==> r in w.state && Finished(w.state[r]) && !AtWork(w, r)
  {
    RunKeeps(Empty(), steps);
    var w := Run(Empty(), steps);
    if Finished(w.main.seen.state) {
      FinishedIsIdle(w, w.main.left[0]);
    }
  }

  // ---------------------------------------------------------------------------------------------------
  // What the main loop does to a record
  // ---------------------------------------------------------------------------------------------------

  /** The records that a pass takes off the list: those whose worker has failed or connected, and those whose address
      turned out to be connected already. */
  predicate Doomed(state: State, skipped: bool) {
    state == Connected || state == ResolvingFailed || state == ConnectFailed || (state == Resolved && skipped)
  }

  /** A record whose address has been resolved is connecting after a pass, unless it was skipped. */
  function After(state: State, skipped: bool): State {
    if state == Resolved && !skipped then Connecting else state
  }

  /** What acting on a record r seen in a state comes to: a doomed one is freed and off the list, a resolved one that is
      not skipped is connecting and has the new worker, or none if it could not be created, and any other is left
      alone; all other records are as they were. */
  ghost predicate DidItsPart(w: World, r: Rec, seen: State, skip: bool, worker: nat, created: bool, v: World) {
    && (Doomed(seen, skip) ==>
          && v.freed == w.freed + {r} && (forall x :: x in v.list <==> x in w.list && x != r)
          && v.state == w.state && v.workers == w.workers && v.lost == w.lost)
    && (seen == Resolved && !skip ==>
          && v.list == w.list && v.freed == w.freed && v.state == w.state[r := Connecting]
          && v.workers == (if created then w.workers[worker := Worker(Connector, r)] else w.workers)
          && v.lost == if created then w.lost else w.lost + {r})
    && (seen == Resolving || seen == Connecting ==> v.(main := w.main) == w)
  }

  lemma {:induction false} ActedDoesItsPart(w: World, r: Rec, seen: State, skip: bool, worker: nat, created: bool)
    requires Distinct(w.list)
    ensures DidItsPart(w, r, seen, skip, worker, created, Acted(w, r, seen, skip, worker, created))
  {
    DropFacts(w.list, r);
  }

  /** In every run the main loop does its part, and not more, for the record it has looked at. */
  lemma {:induction false} ActDoesItsPart(steps: seq<Step>, skip: bool, worker: nat, created: bool)
    requires Possible(Empty(), steps) && Enabled(Run(Empty(), steps), Act(skip, worker, created))
    ensures var w := Run(Empty(), steps);
            DidItsPart(w, w.main.left[0], w.main.seen.state, skip, worker, created, Next(w, Act(skip, worker, created)))
  {
    RunKeeps(Empty(), steps);
    var w := Run(Empty(), steps);
    ActedDoesItsPart(w, w.main.left[0], w.main.seen.state, skip, worker, created);
  }

  /** The steps of a pass over these records with no step of a worker in between; every thread is created. */
  function PassOver(left: seq<Rec>, skip: set<Rec>, worker: nat): seq<Step> {
    if left == [] then [] else [Look, Act(left[0] in skip, worker, true)] + PassOver(left[1..], skip, worker + 1)
  }

  /** The records of a list that a pass keeps, in order. */
  function Kept(l: seq<Rec>, state: map<Rec, State>, skip: set<Rec>): seq<Rec>
    requires forall r :: r in l ==> r in state
  {
    if l == [] then []
    else (if Doomed(state[l[0]], l[0] in skip) then [] else [l[0]]) + Kept(l[1..], state, skip)
  }

  /** What a pass from the world w over `left`, the records behind `done` on the list, comes to. */
  ghost predicate Passed(w: World, done: seq<Rec>, left: seq<Rec>, skip: set<Rec>, v: World) {
    && (forall r :: r in left ==> r in w.state)
    && v.main.Outside? && v.list == done + Kept(left, w.state, skip)
    && HandedOver(w, left, skip, v)
  }

  ghost predicate HandedOver(w: World, left: seq<Rec>, skip: set<Rec>, v: World)
    requires forall r :: r in left ==> r in w.state
  {
    && v.lost == w.lost && v.state.Keys == w.state.Keys
    && (forall r :: r in w.state ==>
          v.state[r] == if r in left then After(w.state[r], r in skip) else w.state[r])
    && (forall r :: r in v.freed <==> r in w.freed || (r in left && Doomed(w.state[r], r in skip)))
    && (forall i :: i in w.workers ==> i in v.workers && v.workers[i] == w.workers[i])
    && (forall r :: r in left && w.state[r] == Resolved && r !in skip ==>
          exists i :: i in v.workers && v.workers[i] == Worker(Connector, r))
  }

  /** A record stays and a doomed one goes. */
  function Stays(w: World, r: Rec, skipped: bool): seq<Rec>
    requires r in w.state
  {
    if Doomed(w.state[r], skipped) then [] else [r]
  }

  /** The world after the first record of `left` has been looked at and acted on. */
  ghost predicate Visited(w: World, done: seq<Rec>, left: seq<Rec>, skipped: bool, worker: nat, v: World)
    requires left != [] && left[0] in w.state
  {
    var r := left[0];
    && v.main == (if |left| == 1 then Outside else Inside(left[1..], NotYet))
    && v.list == done + Stays(w, r, skipped) + left[1..]
    && v.state == w.state[r := After(w.state[r], skipped)] && v.lost == w.lost
    && v.freed == (if Doomed(w.state[r], skipped) then w.freed + {r} else w.freed)
    && v.workers == if w.state[r] == Resolved && !skipped then w.workers[worker := Worker(Connector, r)] else w.workers
  }

  lemma {:induction false} VisitOne(w: World, done: seq<Rec>, left: seq<Rec>, skipped: bool, worker: nat)
    requires w.main == Inside(left, NotYet) && left != [] && left[0] in w.state
    requires w.list == done + left && Distinct(w.list) && worker !in w.workers
    ensures Enabled(w, Look) && Enabled(Next(w, Look), Act(skipped, worker, true))
    ensures Visited(w, done, left, skipped, worker, Next(Next(w, Look), Act(skipped, worker, true)))
  {
    var r := left[0];
    DropBehind(done, left);
    assert w.state[r := w.state[r]] == w.state;
  }

  lemma {:induction false} DropBehind(done: seq<Rec>, left: seq<Rec>)
    requires left != [] && Distinct(done + left)
    ensures Drop(done + left, left[0]) == done + [] + left[1..] && done + left == done + [left[0]] + left[1..]
  {
    var l, k := done + left, |done|;
    OnlyAt(l, k);
    DropAt(l, k);
    assert l[..k] == done && l[k] == left[0] && l[k + 1..] == left[1..];
  }

  lemma {:induction false} KeptElsewhere(l: seq<Rec>, a: map<Rec, State>, b: map<Rec, State>, skip: set<Rec>)
    requires forall r :: r in l ==> r in a && r in b && a[r] == b[r]
    ensures Kept(l, a, skip) == Kept(l, b, skip)
  {
    if l != [] {
      KeptElsewhere(l[1..], a, b, skip);
    }
  }

  lemma {:induction false} PassedFirst(w: World, u: World, done: seq<Rec>, left: seq<Rec>, skip: set<Rec>, worker: nat,
                                       v: World)
    requires left != [] && Distinct(left) && (forall r :: r in left ==> r in w.state) && worker !in w.workers
    requires Visited(w, done, left, left[0] in skip, worker, u)
    requires Passed(u, done + Stays(w, left[0], left[0] in skip), left[1..], skip, v)
    ensures Passed(w, done, left, skip, v)
  {
    var r := left[0];
    OnlyAt(left, 0);
    assert r !in left[1..];
    KeptElsewhere(left[1..], u.state, w.state, skip);
    Regroup(done, Stays(w, r, r in skip), Kept(left[1..], w.state, skip));
    HandedOverFirst(w, u, done, left, skip, worker, v);
  }

  lemma {:induction false} HandedOverFirst(w: World, u: World, done: seq<Rec>, left: seq<Rec>, skip: set<Rec>,
                                           worker: nat, v: World)
    requires left != [] && left[0] !in left[1..] && (forall r :: r in left ==> r in w.state) && worker !in w.workers
    requires Visited(w, done, left, left[0] in skip, worker, u)
    requires (forall r :: r in left[1..] ==> r in u.state) && HandedOver(u, left[1..], skip, v)
    ensures HandedOver(w, left, skip, v)
  {
    var r := left[0];
    assert forall x :: x in left <==> x == r || x in left[1..];
    if w.state[r] == Resolved && r !in skip {
      assert v.workers[worker] == Worker(Connector, r);
    }
  }

  lemma {:induction false} Regroup(a: seq<Rec>, b: seq<Rec>, c: seq<Rec>)
    ensures a + (b + c) == a + b + c
  {
  }

  lemma {:induction false} PassFrom(w: World, done: seq<Rec>, left: seq<Rec>, skip: set<Rec>, worker: nat)
    requires w.main == if left == [] then Outside else Inside(left, NotYet)
    requires w.list == done + left && Distinct(w.list) && Distinct(left) && forall r :: r in left ==> r in w.state
    requires forall i :: i in w.workers ==> i < worker
    ensures Possible(w, PassOver(left, skip, worker))
    ensures Passed(w, done, left, skip, Run(w, PassOver(left, skip, worker)))
    decreases |left|
  {
    if left == [] {
      assert done + left == done + Kept(left, w.state, skip);
    } else {
      var act := Act(left[0] in skip, worker, true);
      VisitOne(w, done, left, left[0] in skip, worker);
      var u := Next(Next(w, Look), act);
      var done', tail := done + Stays(w, left[0], left[0] in skip), PassOver(left[1..], skip, worker + 1);
      RestDistinct(done, left, done');
      PassFrom(u, done', left[1..], skip, worker + 1);
      TwoFirst(w, act, tail);
      PassedFirst(w, u, done, left, skip, worker, Run(u, tail));
    }
  }

  lemma {:induction false} TwoFirst(w: World, act: Step, tail: seq<Step>)
    requires Enabled(w, Look) && Enabled(Next(w, Look), act) && Possible(Next(Next(w, Look), act), tail)
    ensures Possible(w, [Look, act] + tail)
    ensures Run(w, [Look, act] + tail) == Run(Next(Next(w, Look), act), tail)
  {
    var steps := [Look, act] + tail;
    assert steps[1..][0] == act && steps[1..][1..] == tail;
  }

  lemma {:induction false} RestDistinct(done: seq<Rec>, left: seq<Rec>, done': seq<Rec>)
    requires left != [] && Distinct(done + left) && Distinct(left) && (done' == done + [] || done' == done + [left[0]])
    ensures Distinct(done' + left[1..]) && Distinct(left[1..])
  {
    assert done + [left[0]] + left[1..] == done + left;
    OneOut(done + left, |done|);
    assert (done + left)[..|done|] + (done + left)[|done| + 1..] == done + [] + left[1..];
    DistinctTail(left);
  }

  /** In every run, a pass in which no worker takes a step in between takes exactly the doomed records off the list,
      frees them, and gives every resolved one that it does not skip a worker that connects. */
  lemma {:induction false} WholePass(steps: seq<Step>, skip: set<Rec>, worker: nat)
    requires Possible(Empty(), steps) && Run(Empty(), steps).main.Outside?
    requires forall i :: i in Run(Empty(), steps).workers ==> i < worker
    ensures var w := Run(Empty(), steps);
            var pass := [BeginPass] + PassOver(w.list, skip, worker);
            Possible(w, pass) && Passed(w, [], w.list, skip, Run(w, pass))
  {
    RunKeeps(Empty(), steps);
    var w := Run(Empty(), steps);
    var u, tail := Next(w, BeginPass), PassOver(w.list, skip, worker);
    assert [] + w.list == w.list;
    PassFrom(u, [], w.list, skip, worker);
    assert ([BeginPass] + tail)[1..] == tail;
  }

  predicate ActsOn(w: World, s: Step, r: Rec)
    requires Enabled(w, s)
  {
    s.Act? && w.main.left[0] == r
  }

  predicate NeverActsOn(w: World, steps: seq<Step>, r: Rec)
    requires Possible(w, steps)
    decreases |steps|
  {
    steps == [] || (!ActsOn(w, steps[0], r) && NeverActsOn(Next(w, steps[0]), steps[1..], r))
  }

  lemma {:induction false} ResultStays(w: World, s: Step, r: Rec)
    requires Inv(w) && Enabled(w, s) && r in w.list && Finished(w.state[r]) && !ActsOn(w, s, r)
    ensures r in Next(w, s).list && Next(w, s).state[r] == w.state[r]
  {
    FinishedIsIdle(w, r);
    if s.Act? {
      DropFacts(w.list, w.main.left[0]);
    }
  }

  lemma {:induction false} ResultStaysInRun(w: World, steps: seq<Step>, r: Rec)
    requires Inv(w) && Possible(w, steps) && r in w.list && Finished(w.state[r]) && NeverActsOn(w, steps, r)
    ensures r in Run(w, steps).list && r in Run(w, steps).state && Run(w, steps).state[r] == w.state[r]
    decreases |steps|
  {
    if steps != [] {
      StepKeeps(w, steps[0]);
      ResultStays(w, steps[0], r);
      ResultStaysInRun(Next(w, steps[0]), steps[1..], r);
    }
  }

  /** What a worker writes as its last action is what the main loop finds, whatever happens before it acts on the
      record. */
  lemma {:induction false} ResultIsFound(steps: seq<Step>, worker: nat, result: State, more: seq<Step>)
    requires Possible(Empty(), steps) && Enabled(Run(Empty(), steps), Finish(worker, result))
    requires var w := Next(Run(Empty(), steps), Finish(worker, result));
             Possible(w, more) && NeverActsOn(w, more, Run(Empty(), steps).workers[worker].rec)
    ensures var r, w := Run(Empty(), steps).workers[worker].rec, Next(Run(Empty(), steps), Finish(worker, result));
            var v := Run(w, more);
            r in v.list && r in v.state && v.state[r] == result && OneOwner(v, r)
  {
    RunKeeps(Empty(), steps);
    var u := Run(Empty(), steps);
    var r, w := u.workers[worker].rec, Next(u, Finish(worker, result));
    assert Employed(u, u.workers[worker]);
    StepKeeps(u, Finish(worker, result));
    ResultStaysInRun(w, more, r);
    RunKeeps(w, more);
    FinishedIsIdle(Run(w, more), r);
  }

  // ---------------------------------------------------------------------------------------------------
  // When a record is lost
  // ---------------------------------------------------------------------------------------------------

  /** A thread could not be created, or a connecting thread returned without writing a result. */
  predicate Fails(w: World, s: Step)
    requires Enabled(w, s)
  {
    match s
    case StartResolve(rec, worker, created) => !created
    case Act(skip, worker, created) => w.main.seen.state == Resolved && !skip && !created
    case GiveUp(worker) => true
    case _ => false
  }

  predicate SomeFails(w: World, steps: seq<Step>)
    requires Possible(w, steps)
    decreases |steps|
  {
    steps != [] && (Fails(w, steps[0]) || SomeFails(Next(w, steps[0]), steps[1..]))
  }

  /** One failed thread creation is enough: the record stays on the list with no owner. */
  lemma {:induction false} RecordWithoutThreadStays()
    ensures var steps := [StartResolve(0, 0, false)];
            Possible(Empty(), steps) && var w := Run(Empty(), steps); w.list == [0] && !OneOwner(w, 0)
  {
  }

  lemma {:induction false} LostGrowsExactlyByFailures(w: World, s: Step)
    requires Inv(w) && Enabled(w, s)
    ensures w.lost <= Next(w, s).lost && (Fails(w, s) <==> Next(w, s).lost != w.lost)
  {
    match s
    case StartResolve(rec, worker, created) =>
      assert rec !in w.lost;
    case Act(skip, worker, created) =>
      if w.main.seen.state == Resolved {
        FinishedIsIdle(w, w.main.left[0]);
      }
      assert !Fails(w, s) ==> Next(w, s).lost == w.lost;
      assert Fails(w, s) ==> w.main.left[0] in Next(w, s).lost;
    case GiveUp(worker) =>
      assert Employed(w, w.workers[worker]);
      assert w.workers[worker].rec in Next(w, s).lost;
    case _ =>
  }

  lemma {:induction false} LostAfterRun(w: World, steps: seq<Step>)
    requires Inv(w) && Possible(w, steps)
    ensures w.lost <= Run(w, steps).lost && (SomeFails(w, steps) <==> Run(w, steps).lost != w.lost)
    decreases |steps|
  {
    if steps != [] {
      LostGrowsExactlyByFailures(w, steps[0]);
      StepKeeps(w, steps[0]);
      LostAfterRun(Next(w, steps[0]), steps[1..]);
    }
  }

  /** A record that lost its owner never gets one again and is never freed, whatever happens later. */
  lemma {:induction false} LostForEver(steps: seq<Step>, more: seq<Step>, r: Rec)
    requires Possible(Empty(), steps) && Possible(Run(Empty(), steps), more) && r in Run(Empty(), steps).lost
    ensures var w := Run(Run(Empty(), steps), more);
            r in w.list && r !in w.freed && !OneOwner(w, r)
  {
    var w := Run(Empty(), steps);
    RunKeeps(Empty(), steps);
    LostAfterRun(w, more);
    RunKeeps(w, more);
    var v := Run(w, more);
    assert r in v.lost;
    forall i | i in v.workers
      ensures v.workers[i].rec != r
    {
      assert Employed(v, v.workers[i]);
    }
  }

  /** A run ends with every record on the list owned if and only if no thread failed. */
  lemma {:induction false} AllOwnedExactlyWhenNoFailure(steps: seq<Step>)
    requires Possible(Empty(), steps)
    ensures var w := Run(Empty(), steps);
            (forall r :: r in w.list ==> OneOwner(w, r)) <==> !SomeFails(Empty(), steps)
  {
    var w := Run(Empty(), steps);
    LostAfterRun(Empty(), steps);
    EveryRecordHasOneOwnerUnlessLost(steps);
    RunKeeps(Empty(), steps);
    if w.lost != {} {
      var r :| r in w.lost;
      assert r in w.list && !OneOwner(w, r);
    }
  }
}
