/** The binary search tree of logged-in clients (client_tree_add, client_tree_search, client_tree_remove,
    client_tree_replace_multi in PICA_node.c): nodes on the heap, linked by `left`, `right` and `up`.

    `Tree` is the shape the pointers should have.  `Linked` says that `left` and `right` have it, `UpOk` that `up`
    has it, and `Ordered` that identifiers increase strictly from left to right. */
module ClientTree {
  import opened Ids

  datatype ClState = Connected | Secondary

  class Client {
    const id: Id
    ghost const rank: nat
    var up: Client?
    var left: Client?
    var right: Client?
    var nextMulti: Client?
    var state: ClState

    constructor (id: Id)
      ensures this.id == id && rank == Rank(id)
      ensures up == null && left == null && right == null && nextMulti == null
    {
      this.id := id;
      this.rank := Rank(id);
      up, left, right, nextMulti, state := null, null, null, null, Connected;
    }
  }

  datatype Tree = Leaf | Node(l: Tree, c: Client, r: Tree)

  ghost function Nodes(t: Tree): set<Client> {
    match t
    case Leaf => {}
    case Node(l, c, r) => Nodes(l) + {c} + Nodes(r)
  }

  ghost predicate Ordered(t: Tree) {
    match t
    case Leaf => true
    case Node(l, c, r) =>
      && Ordered(l) && Ordered(r)
      && (forall x :: x in Nodes(l) ==> x.rank < c.rank)
      && (forall x :: x in Nodes(r) ==> c.rank < x.rank)
  }

  /** `rank` is the identifier as a number. */
  ghost predicate Ranked(s: set<Client>) {
    forall c :: c in s ==> c.rank == Rank(c.id)
  }

  ghost function Top(t: Tree): Client? {
    if t.Leaf? then null else t.c
  }

  /** The pointers of a set of clients at one moment. */
  datatype Pointers = Pointers(left: map<Client, Client?>, right: map<Client, Client?>, up: map<Client, Client?>)

  /** These are the pointers the clients have now. */
  ghost predicate Agrees(p: Pointers, s: set<Client>)
    reads s`left, s`right, s`up
  {
    && s <= p.left.Keys && s <= p.right.Keys && s <= p.up.Keys
    && forall c {:trigger At(c, p)} :: c in s ==> At(c, p)
  }

  ghost predicate At(c: Client, p: Pointers)
    reads c`left, c`right, c`up
  {
    && c in p.left && c in p.right && c in p.up
    && p.left[c] == c.left && p.right[c] == c.right && p.up[c] == c.up
  }

  ghost predicate Linked(t: Tree, p: Pointers) {
    match t
    case Leaf => true
    case Node(l, c, r) =>
      && c in p.left && c in p.right
      && p.left[c] == Top(l) && p.right[c] == Top(r) && Linked(l, p) && Linked(r, p)
  }

  ghost predicate UpOk(t: Tree, u: Client?, p: Pointers) {
    match t
    case Leaf => true
    case Node(l, c, r) => c in p.up && p.up[c] == u && UpOk(l, c, p) && UpOk(r, c, p)
  }

  // ---------------------------------------------------------------------------------------------------
  // The shape after each operation
  // ---------------------------------------------------------------------------------------------------

  ghost function Insert(t: Tree, x: Client): Tree {
    match t
    case Leaf => Node(Leaf, x, Leaf)
    case Node(l, c, r) => if x.rank < c.rank then Node(Insert(l, x), c, r) else Node(l, c, Insert(r, x))
  }

  /** The client below which x is hung. */
  ghost function Slot(t: Tree, x: Client): Client
    requires t.Node?
  {
    if x.rank < t.c.rank then (if t.l.Leaf? then t.c else Slot(t.l, x))
    else (if t.r.Leaf? then t.c else Slot(t.r, x))
  }

  /** The subtree at client x. */
  ghost function Sub(t: Tree, x: Client): (s: Tree)
    requires x in Nodes(t)
    ensures s.Node? && s.c == x
  {
    if t.c == x then t else if x in Nodes(t.l) then Sub(t.l, x) else Sub(t.r, x)
  }

  ghost function Replace(t: Tree, x: Client, s: Tree): Tree
    requires x in Nodes(t)
  {
    if t.c == x then s
    else if x in Nodes(t.l) then Node(Replace(t.l, x, s), t.c, t.r)
    else Node(t.l, t.c, Replace(t.r, x, s))
  }

  ghost function Min(t: Tree): Client
    requires t.Node?
  {
    if t.l.Leaf? then t.c else Min(t.l)
  }

  ghost function WithoutMin(t: Tree): Tree
    requires t.Node?
  {
    if t.l.Leaf? then t.r else Node(WithoutMin(t.l), t.c, t.r)
  }

  /** What takes the place of a client with these subtrees. */
  ghost function Join(l: Tree, r: Tree): Tree {
    if r.Leaf? then l else if l.Leaf? then r else Node(l, Min(r), WithoutMin(r))
  }

  ghost function Remove(t: Tree, x: Client): Tree
    requires x in Nodes(t)
  {
    Replace(t, x, Join(Sub(t, x).l, Sub(t, x).r))
  }

  lemma {:induction false} InsertShape(t: Tree, x: Client)
    requires Ordered(t) && forall c :: c in Nodes(t) ==> c.rank != x.rank
    ensures Nodes(Insert(t, x)) == Nodes(t) + {x} && Ordered(Insert(t, x))
  {
    if t.Node? {
      if x.rank < t.c.rank {
        InsertShape(t.l, x);
      } else {
        InsertShape(t.r, x);
      }
    }
  }

  lemma {:induction false} SubShape(t: Tree, x: Client)
    requires x in Nodes(t) && Ordered(t)
    ensures Sub(t, x).Node? && Sub(t, x).c == x && Ordered(Sub(t, x)) && Nodes(Sub(t, x)) <= Nodes(t)
  {
    if t.c != x {
      if x in Nodes(t.l) {
        SubShape(t.l, x);
      } else {
        SubShape(t.r, x);
      }
    }
  }

  lemma {:induction false} MinShape(t: Tree)
    requires t.Node? && Ordered(t)
    ensures Min(t) in Nodes(t) && Nodes(WithoutMin(t)) == Nodes(t) - {Min(t)} && Ordered(WithoutMin(t))
    ensures forall c :: c in Nodes(t) ==> c == Min(t) || Min(t).rank < c.rank
  {
    if t.l.Node? {
      MinShape(t.l);
    }
  }

  lemma {:induction false} ReplaceNodes(t: Tree, x: Client, s: Tree)
    requires x in Nodes(t) && Ordered(t)
    ensures Nodes(Replace(t, x, s)) == Nodes(t) - Nodes(Sub(t, x)) + Nodes(s)
  {
    if t.c != x {
      if x in Nodes(t.l) {
        SubShape(t.l, x);
        ReplaceNodes(t.l, x, s);
      } else {
        SubShape(t.r, x);
        ReplaceNodes(t.r, x, s);
      }
    }
  }

  /** A subtree can be exchanged for one with identifiers in the same range. */
  lemma {:induction false} ReplaceOrdered(t: Tree, x: Client, s: Tree)
    requires x in Nodes(t) && Ordered(t) && Ordered(s)
    requires forall c :: c in Nodes(s) ==> c in Nodes(Sub(t, x)) || c.rank == x.rank
    ensures Ordered(Replace(t, x, s))
  {
    if t.c != x {
      var side := if x in Nodes(t.l) then t.l else t.r;
      SubShape(side, x);
      ReplaceOrdered(side, x, s);
      ReplaceNodes(side, x, s);
    }
  }

  lemma {:induction false} JoinShape(l: Tree, x: Client, r: Tree)
    requires Ordered(Node(l, x, r))
    ensures Ordered(Join(l, r)) && Nodes(Join(l, r)) == Nodes(l) + Nodes(r)
  {
    if r.Node? {
      MinShape(r);
    }
  }

  /** Removal takes out exactly one client and keeps the order. */
  lemma {:induction false} RemoveShape(t: Tree, x: Client)
    requires x in Nodes(t) && Ordered(t)
    ensures Ordered(Remove(t, x)) && Nodes(Remove(t, x)) == Nodes(t) - {x}
  {
    SubShape(t, x);
    var s := Sub(t, x);
    JoinShape(s.l, x, s.r);
    ReplaceNodes(t, x, Join(s.l, s.r));
    ReplaceOrdered(t, x, Join(s.l, s.r));
  }

  // ---------------------------------------------------------------------------------------------------
  // From shapes to pointers
  // ---------------------------------------------------------------------------------------------------

  lemma {:induction false} SlotShape(t: Tree, x: Client)
    requires t.Node? && Ordered(t)
    ensures Slot(t, x) in Nodes(t)
  {
    if x.rank < t.c.rank && t.l.Node? {
      SlotShape(t.l, x);
    } else if x.rank >= t.c.rank && t.r.Node? {
      SlotShape(t.r, x);
    }
  }

  /** The clients of a subtree keep their children. */
  lemma {:induction false} LinkedFrame(t: Tree, p: Pointers, q: Pointers)
    requires Linked(t, p)
    requires forall c :: c in Nodes(t) && c in p.left && c in p.right ==>
               c in q.left && c in q.right && q.left[c] == p.left[c] && q.right[c] == p.right[c]
    ensures Linked(t, q)
  {
    if t.Node? {
      LinkedFrame(t.l, p, q);
      LinkedFrame(t.r, p, q);
    }
  }

  lemma {:induction false} UpFrame(t: Tree, u: Client?, p: Pointers, q: Pointers)
    requires UpOk(t, u, p)
    requires forall c :: c in Nodes(t) && c in p.up ==> c in q.up && q.up[c] == p.up[c]
    ensures UpOk(t, u, q)
  {
    if t.Node? {
      UpFrame(t.l, t.c, p, q);
      UpFrame(t.r, t.c, p, q);
    }
  }

  ghost predicate Covers(p: Pointers, s: set<Client>) {
    s <= p.left.Keys && s <= p.right.Keys && s <= p.up.Keys
  }

  /** x has been hung below its slot and nothing else has changed. */
  lemma {:induction false} InsertLinked(t: Tree, x: Client, p: Pointers, q: Pointers)
    requires t.Node? && Ordered(t) && Linked(t, p) && Covers(p, Nodes(t)) && Covers(q, Nodes(t) + {x})
    requires forall c :: c in Nodes(t) ==>
               && q.left[c] == (if c == Slot(t, x) && x.rank < c.rank then x else p.left[c])
               && q.right[c] == (if c == Slot(t, x) && x.rank >= c.rank then x else p.right[c])
    requires q.left[x] == null && q.right[x] == null
    ensures Linked(Insert(t, x), q)
  {
    var goLeft := x.rank < t.c.rank;
    var side, other := if goLeft then t.l else t.r, if goLeft then t.r else t.l;
    if side.Node? {
      SlotShape(side, x);
      InsertLinked(side, x, p, q);
    }
    LinkedFrame(other, p, q);
  }

  lemma {:induction false} InsertUp(t: Tree, u: Client?, x: Client, p: Pointers, q: Pointers)
    requires t.Node? && UpOk(t, u, p) && Covers(p, Nodes(t)) && Covers(q, Nodes(t) + {x})
    requires forall c :: c in Nodes(t) ==> q.up[c] == p.up[c]
    requires q.up[x] == Slot(t, x)
    ensures UpOk(Insert(t, x), u, q)
  {
    var goLeft := x.rank < t.c.rank;
    var side, other := if goLeft then t.l else t.r, if goLeft then t.r else t.l;
    if side.Node? {
      InsertUp(side, t.c, x, p, q);
    }
    UpFrame(other, t.c, p, q);
  }

  // ---------------------------------------------------------------------------------------------------
  // Exchanging a subtree
  // ---------------------------------------------------------------------------------------------------

  /** Children and parents of the clients of a tree are clients of the tree, and child and parent agree. */
  lemma {:induction false} Inside(t: Tree, p: Pointers)
    requires Linked(t, p)
    ensures forall c :: c in Nodes(t) ==>
              && c in p.left && (p.left[c] != null ==> p.left[c] in Nodes(t))
              && c in p.right && (p.right[c] != null ==> p.right[c] in Nodes(t))
  {
    if t.Node? {
      Inside(t.l, p);
      Inside(t.r, p);
    }
  }

  lemma {:induction false} ChildKnowsParent(t: Tree, u: Client?, p: Pointers)
    requires Linked(t, p) && UpOk(t, u, p)
    ensures forall c :: c in Nodes(t) ==>
              && c in p.left && (p.left[c] != null ==> p.left[c] in p.up && p.up[p.left[c]] == c)
              && c in p.right && (p.right[c] != null ==> p.right[c] in p.up && p.up[p.right[c]] == c)
  {
    if t.Node? {
      ChildKnowsParent(t.l, t.c, p);
      ChildKnowsParent(t.r, t.c, p);
    }
  }

  lemma {:induction false} SubLinked(t: Tree, u: Client?, x: Client, p: Pointers)
    requires x in Nodes(t) && Ordered(t) && Linked(t, p)
    ensures Linked(Sub(t, x), p)
    ensures UpOk(t, u, p) ==> x in p.up && UpOk(Sub(t, x), p.up[x], p)
  {
    if t.c != x {
      SubLinked(if x in Nodes(t.l) then t.l else t.r, t.c, x, p);
    }
  }

  /** The parent of a client that is not at the top is outside its subtree and has it as a child. */
  lemma {:induction false} ParentOf(t: Tree, u: Client?, x: Client, p: Pointers)
    requires x in Nodes(t) && Ordered(t) && Linked(t, p) && UpOk(t, u, p)
    ensures x in p.up && (x == t.c ==> p.up[x] == u)
    ensures x != t.c ==>
              && p.up[x] != null && p.up[x] in Nodes(t) - Nodes(Sub(t, x))
              && p.up[x] in p.left && p.up[x] in p.right && (p.left[p.up[x]] == x || p.right[p.up[x]] == x)
  {
    if t.c != x {
      var side := if x in Nodes(t.l) then t.l else t.r;
      SubShape(side, x);
      ParentOf(side, t.c, x, p);
    }
  }

  /** Client c has y where it had x, and otherwise the children it had. */
  ghost predicate Points(c: Client, x: Client, y: Client?, p: Pointers, q: Pointers) {
    && c in p.left && c in p.right && c in q.left && c in q.right
    && q.left[c] == (if p.left[c] == x then y else p.left[c])
    && q.right[c] == (if p.right[c] == x then y else p.right[c])
  }

  lemma {:induction false} ReplaceLinked(t: Tree, x: Client, s: Tree, p: Pointers, q: Pointers)
    requires x in Nodes(t) && Ordered(t) && Linked(t, p) && Linked(s, q)
    requires forall c :: c in Nodes(t) && c !in Nodes(Sub(t, x)) ==> Points(c, x, Top(s), p, q)
    ensures Linked(Replace(t, x, s), q)
  {
    if t.c != x {
      var goLeft := x in Nodes(t.l);
      var side, other := if goLeft then t.l else t.r, if goLeft then t.r else t.l;
      SubShape(side, x);
      assert Points(t.c, x, Top(s), p, q);
      ReplaceLinked(side, x, s, p, q);
      AwayFrom(other, x, Top(s), p, q);
    }
  }

  /** A subtree without x has no pointer to x that could have changed. */
  lemma {:induction false} AwayFrom(t: Tree, x: Client, y: Client?, p: Pointers, q: Pointers)
    requires x !in Nodes(t) && Linked(t, p)
    requires forall c :: c in Nodes(t) ==> Points(c, x, y, p, q)
    ensures Linked(t, q)
  {
    Inside(t, p);
    forall c | c in Nodes(t)
      ensures c in q.left && c in q.right && q.left[c] == p.left[c] && q.right[c] == p.right[c]
    {
      assert Points(c, x, y, p, q);
    }
    LinkedFrame(t, p, q);
  }

  lemma {:induction false} ReplaceUp(t: Tree, u: Client?, x: Client, s: Tree, p: Pointers, q: Pointers)
    requires x in Nodes(t) && Ordered(t) && UpOk(t, u, p) && Covers(p, Nodes(t)) && Covers(q, Nodes(t))
    requires forall c :: c in Nodes(t) - Nodes(Sub(t, x)) ==> q.up[c] == p.up[c]
    requires UpOk(s, p.up[x], q)
    ensures UpOk(Replace(t, x, s), u, q)
  {
    if t.c != x {
      var goLeft := x in Nodes(t.l);
      var side, other := if goLeft then t.l else t.r, if goLeft then t.r else t.l;
      SubShape(side, x);
      ReplaceUp(side, t.c, x, s, p, q);
      UpFrame(other, t.c, p, q);
    }
  }

  /** The `up` links of a tree are right only if those of the exchanged subtree are. */
  lemma {:induction false} UpOfPart(t: Tree, u: Client?, x: Client, s: Tree, q: Pointers)
    requires x in Nodes(t) && s.Node? && UpOk(Replace(t, x, s), u, q)
    ensures s.c in q.up && UpOk(s, q.up[s.c], q)
  {
    if t.c != x {
      UpOfPart(if x in Nodes(t.l) then t.l else t.r, t.c, x, s, q);
    }
  }

  // ---------------------------------------------------------------------------------------------------
  // Taking out the leftmost client
  // ---------------------------------------------------------------------------------------------------

  lemma {:induction false} WithoutMinLinked(t: Tree, p: Pointers, q: Pointers)
    requires t.Node? && Ordered(t) && Linked(t, p) && Covers(p, Nodes(t)) && Covers(q, Nodes(t))
    requires Min(t) in p.right
    requires forall c :: c in Nodes(t) && c != Min(t) ==>
               && q.left[c] == (if p.left[c] == Min(t) then p.right[Min(t)] else p.left[c])
               && q.right[c] == p.right[c]
    ensures Linked(WithoutMin(t), q)
    ensures Top(WithoutMin(t)) == if t.l.Leaf? then p.right[Min(t)] else t.c
  {
    MinShape(t);
    Inside(t.r, p);
    LinkedFrame(t.r, p, q);
    if t.l.Node? {
      MinShape(t.l);
      WithoutMinLinked(t.l, p, q);
    }
  }

  /** The leftmost client hangs to the left of its parent, unless it is at the top. */
  lemma {:induction false} MinParent(t: Tree, u: Client?, p: Pointers)
    requires t.Node? && Ordered(t) && Linked(t, p) && UpOk(t, u, p)
    ensures Min(t) in p.up && Min(t) in p.right
    ensures t.l.Node? ==>
              && p.up[Min(t)] != null && p.up[Min(t)] in Nodes(t)
              && p.up[Min(t)] in p.left && p.left[p.up[Min(t)]] == Min(t)
    ensures t.l.Leaf? ==> p.up[Min(t)] == u
    ensures p.right[Min(t)] != null ==>
            p.right[Min(t)] in Nodes(t) && p.right[Min(t)] != Min(t) && p.right[Min(t)] != t.c
    ensures p.up[Min(t)] != Min(t) || u == Min(t)
  {
    if t.l.Node? {
      MinParent(t.l, t.c, p);
      MinShape(t.l);
    }
  }

  /** With the missing assignments: the top gets its new parent, and the right subtree of the leftmost client gets
      the leftmost client's parent. */
  lemma {:induction false} WithoutMinUp(t: Tree, u: Client?, v: Client?, p: Pointers, q: Pointers)
    requires t.Node? && t.l.Node? && Ordered(t) && Linked(t, p) && UpOk(t, u, p)
    requires Covers(p, Nodes(t)) && Covers(q, Nodes(t)) && Min(t) in p.right && Min(t) in p.up
    requires forall c :: c in Nodes(t) && c != Min(t) ==>
               q.up[c] == if c == t.c then v else if c == p.right[Min(t)] then p.up[Min(t)] else p.up[c]
    ensures UpOk(WithoutMin(t), v, q)
  {
    MinShape(t.l);
    MinParent(t.l, t.c, p);
    UpFrame(t.r, t.c, p, q);
    if t.l.l.Leaf? {
      TopUp(t.l.r, t.l.c, t.c, p, q);
    } else {
      WithoutMinUp(t.l, t.c, t.c, p, q);
    }
  }

  /** Only the top of a subtree gets another parent. */
  lemma {:induction false} TopUp(t: Tree, u: Client?, v: Client?, p: Pointers, q: Pointers)
    requires Ordered(t) && UpOk(t, u, p) && Covers(p, Nodes(t)) && Covers(q, Nodes(t))
    requires forall c :: c in Nodes(t) ==> q.up[c] == if c == Top(t) then v else p.up[c]
    ensures UpOk(t, v, q)
  {
    if t.Node? {
      UpFrame(t.l, t.c, p, q);
      UpFrame(t.r, t.c, p, q);
    }
  }

  // ---------------------------------------------------------------------------------------------------
  // The pointers after client_tree_remove
  // ---------------------------------------------------------------------------------------------------

  ghost function Of(m: map<Client, Client?>, c: Client): Client? {
    if c in m then m[c] else null
  }

  /** An assignment to a field of c, if c is not null. */
  ghost function Put(m: map<Client, Client?>, c: Client?, v: Client?): map<Client, Client?> {
    if c == null then m else m[c := v]
  }

  /** *p_link = y: the parent of x, if there is one, has y in the place of x. */
  ghost function Redirected(p: Pointers, x: Client, y: Client?): Pointers {
    if x !in p.up || p.up[x] == null then p
    else
      var u: Client := p.up[x];
      if u in p.left && p.left[u] == x then p.(left := p.left[u := y]) else p.(right := p.right[u := y])
  }

  lemma {:induction false} ChildrenDiffer(t: Tree, p: Pointers)
    requires Ordered(t) && Linked(t, p)
    ensures forall c :: c in Nodes(t) ==> c in p.left && c in p.right && (p.left[c] == p.right[c] ==> p.left[c] == null)
  {
    if t.Node? {
      ChildrenDiffer(t.l, p);
      ChildrenDiffer(t.r, p);
    }
  }

  /** A tree in order with right pointers. */
  ghost predicate Sound(t: Tree, p: Pointers) {
    Ordered(t) && Linked(t, p) && UpOk(t, null, p) && Covers(p, Nodes(t))
  }

  /** Outside the subtree of x, redirecting changes exactly the pointers to x. */
  lemma {:induction false} RedirectedOutside(t: Tree, x: Client, y: Client?, p: Pointers)
    requires Sound(t, p) && x in Nodes(t)
    ensures var q := Redirected(p, x, y);
            && Covers(q, Nodes(t)) && q.up == p.up
            && (forall c :: c in Nodes(t) ==> Points(c, x, y, p, q))
            && (forall c :: c in Nodes(Sub(t, x)) ==>
                c in Nodes(t) && q.left[c] == p.left[c] && q.right[c] == p.right[c])
  {
    SubShape(t, x);
    ParentOf(t, null, x, p);
    ChildKnowsParent(t, null, p);
    ChildrenDiffer(t, p);
  }

  /** The first three cases: x has at most one child y, which takes its place. */
  ghost function RemovedSimple(p: Pointers, x: Client, y: Client?): Pointers
    requires x in p.up
  {
    var q := Redirected(p, x, y);
    if y == null then q else q.(up := q.up[y := p.up[x]])
  }

  lemma {:induction false} SimpleRemoval(t: Tree, x: Client, p: Pointers)
    requires Sound(t, p) && x in Nodes(t) && (Sub(t, x).l.Leaf? || Sub(t, x).r.Leaf?)
    ensures var s := Join(Sub(t, x).l, Sub(t, x).r);
            Linked(Remove(t, x), RemovedSimple(p, x, Top(s))) && UpOk(Remove(t, x), null, RemovedSimple(p, x, Top(s)))
  {
    var sub := Sub(t, x);
    var s := Join(sub.l, sub.r);
    var q := RemovedSimple(p, x, Top(s));
    SubShape(t, x);
    SubLinked(t, null, x, p);
    RedirectedOutside(t, x, Top(s), p);
    LinkedFrame(s, p, q);
    ReplaceLinked(t, x, s, p, q);
    TopUp(s, x, p.up[x], p, q);
    ReplaceUp(t, null, x, s, p, q);
  }

  /** The last case as the program has it: the leftmost client lm of the right subtree takes the place of x; of all
      `up` links only that of lm is set. */
  ghost function RemovedDouble(p: Pointers, x: Client, lm: Client): Pointers {
    Lifted(Redirected(p, x, lm), x, lm)
  }

  ghost function Lifted(q: Pointers, x: Client, lm: Client): Pointers {
    var deep := lm != Of(q.right, x);
    Pointers(
      (if deep then Put(q.left, Of(q.up, lm), Of(q.right, lm)) else q.left)[lm := Of(q.left, x)],
      if deep then q.right[lm := Of(q.right, x)] else q.right,
      q.up[lm := Of(q.up, x)])
  }

  /** The assignments the program leaves out. */
  ghost function Repaired(q: Pointers, p: Pointers, x: Client, lm: Client): Pointers {
    var up := Put(q.up, Of(p.left, x), lm);
    if lm == Of(p.right, x) then q.(up := up)
    else q.(up := Put(Put(up, Of(p.right, lm), Of(p.up, lm)), Of(p.right, x), lm))
  }

  /** What is known of x and lm in the last case. */
  lemma {:induction false} DoubleFacts(t: Tree, x: Client, p: Pointers)
    requires Sound(t, p) && x in Nodes(t) && Sub(t, x).l.Node? && Sub(t, x).r.Node?
    ensures var l, r := Sub(t, x).l, Sub(t, x).r;
            var lm := Min(r);
            && Ordered(l) && Ordered(r) && Linked(l, p) && Linked(r, p) && UpOk(l, x, p) && UpOk(r, x, p)
            && Nodes(l) <= Nodes(t) && Nodes(r) <= Nodes(t) && Nodes(l) !! Nodes(r) && x !in Nodes(l) && x !in Nodes(r)
            && p.left[x] == l.c && p.right[x] == r.c && lm in Nodes(r)
            && (lm == r.c <==> r.l.Leaf?)
            && (r.l.Node? ==> p.up[lm] != null && p.up[lm] in Nodes(r) && p.up[lm] != lm)
  {
    SubShape(t, x);
    SubLinked(t, null, x, p);
    var r := Sub(t, x).r;
    MinShape(r);
    MinParent(r, x, p);
    if r.l.Node? {
      MinShape(r.l);
    }
  }

  lemma {:induction false} DoubleRight(t: Tree, x: Client, p: Pointers)
    requires Sound(t, p) && x in Nodes(t) && Sub(t, x).l.Node? && Sub(t, x).r.Node?
    ensures var r := Sub(t, x).r;
            var q := RemovedDouble(p, x, Min(r));
            && Linked(WithoutMin(r), q) && Covers(q, Nodes(t))
            && Of(q.left, Min(r)) == p.left[x] && Of(q.right, Min(r)) == Top(WithoutMin(r))
  {
    DoubleFacts(t, x, p);
    var r := Sub(t, x).r;
    var lm := Min(r);
    var q := RemovedDouble(p, x, lm);
    SubShape(t, x);
    RedirectedOutside(t, x, lm, p);
    ChildKnowsParent(r, x, p);
    MinParent(r, x, p);
    forall c | c in Nodes(r) && c != lm
      ensures q.left[c] == (if p.left[c] == lm then p.right[lm] else p.left[c]) && q.right[c] == p.right[c]
    {
    }
    WithoutMinLinked(r, p, q);
  }

  lemma {:induction false} DoublePoints(t: Tree, x: Client, p: Pointers)
    requires Sound(t, p) && x in Nodes(t) && Sub(t, x).l.Node? && Sub(t, x).r.Node?
    ensures var lm := Min(Sub(t, x).r);
            forall c :: c in Nodes(t) && c !in Nodes(Sub(t, x)) ==> Points(c, x, lm, p, RemovedDouble(p, x, lm))
  {
    DoubleFacts(t, x, p);
    var lm := Min(Sub(t, x).r);
    var q := RemovedDouble(p, x, lm);
    RedirectedOutside(t, x, lm, p);
    forall c | c in Nodes(t) && c !in Nodes(Sub(t, x))
      ensures Points(c, x, lm, p, q)
    {
      assert Points(c, x, lm, p, Redirected(p, x, lm));
    }
  }

  lemma {:induction false} DoubleOutside(t: Tree, x: Client, p: Pointers)
    requires Sound(t, p) && x in Nodes(t) && Sub(t, x).l.Node? && Sub(t, x).r.Node?
    ensures var l, lm := Sub(t, x).l, Min(Sub(t, x).r);
            var q := RemovedDouble(p, x, lm);
            Linked(l, q) && (forall c :: c in Nodes(t) && c != lm ==> q.up[c] == p.up[c])
  {
    DoubleFacts(t, x, p);
    var l, lm := Sub(t, x).l, Min(Sub(t, x).r);
    var q := RemovedDouble(p, x, lm);
    SubShape(t, x);
    RedirectedOutside(t, x, lm, p);
    LinkedFrame(l, p, q);
  }

  /** With two children, `left` and `right` come out right. */
  lemma {:induction false} DoubleRemoval(t: Tree, x: Client, p: Pointers)
    requires Sound(t, p) && x in Nodes(t) && Sub(t, x).l.Node? && Sub(t, x).r.Node?
    ensures Linked(Remove(t, x), RemovedDouble(p, x, Min(Sub(t, x).r)))
  {
    var l, r := Sub(t, x).l, Sub(t, x).r;
    var q := RemovedDouble(p, x, Min(r));
    DoubleFacts(t, x, p);
    DoubleRight(t, x, p);
    DoubleOutside(t, x, p);
    DoublePoints(t, x, p);
    ReplaceLinked(t, x, Join(l, r), p, q);
  }

  /** But the left child of x still has x as its parent: the `up` links are wrong whenever x had two children. */
  lemma {:induction false} DoubleUpBroken(t: Tree, x: Client, p: Pointers)
    requires Sound(t, p) && x in Nodes(t) && Sub(t, x).l.Node? && Sub(t, x).r.Node?
    ensures !UpOk(Remove(t, x), null, RemovedDouble(p, x, Min(Sub(t, x).r)))
  {
    var l, r := Sub(t, x).l, Sub(t, x).r;
    var q := RemovedDouble(p, x, Min(r));
    DoubleFacts(t, x, p);
    DoubleOutside(t, x, p);
    if UpOk(Remove(t, x), null, q) {
      UpOfPart(t, null, x, Join(l, r), q);
    }
  }

  /** Three clients are enough: after b has been removed from under a and c, the removal of a follows a's stale `up`
      link to b and leaves a in the tree. */
  lemma {:induction false} StaleLinkKeepsClient(a: Client, b: Client, c: Client)
    requires a.rank < b.rank < c.rank
    ensures var t := Node(Node(Leaf, a, Leaf), b, Node(Leaf, c, Leaf));
            var p := Pointers(map[a := null, b := a, c := null], map[a := null, b := c, c := null],
                map[a := b, b := null, c := b]);
            var q := RemovedDouble(p, b, c);
            Sound(t, p) && a in q.up && q.up[a] == b
            && Linked(Node(Node(Leaf, a, Leaf), c, Leaf), RemovedSimple(q, a, null))
  {
  }

  lemma {:induction false} RepairedUps(t: Tree, x: Client, p: Pointers)
    requires Sound(t, p) && x in Nodes(t) && Sub(t, x).l.Node? && Sub(t, x).r.Node?
    ensures var l, r := Sub(t, x).l, Sub(t, x).r;
            var lm := Min(r);
            var q := Repaired(RemovedDouble(p, x, lm), p, x, lm);
            && Covers(q, Nodes(t)) && Of(q.up, lm) == Of(p.up, x)
            && (forall c :: c in Nodes(l) ==> Of(q.up, c) == if c == l.c then lm else Of(p.up, c))
            && (r.l.Leaf? ==> forall c :: c in Nodes(r) && c != lm ==> Of(q.up, c) == Of(p.up, c))
            && (r.l.Node? ==> forall c :: c in Nodes(r) && c != lm ==>
                  Of(q.up, c) == if c == r.c then lm else if c == Of(p.right, lm) then Of(p.up, lm) else Of(p.up, c))
            && (forall c :: c in Nodes(t) && c !in Nodes(Sub(t, x)) ==> Of(q.up, c) == Of(p.up, c))
  {
    DoubleFacts(t, x, p);
    SubShape(t, x);
    MinParent(Sub(t, x).r, x, p);
    RedirectedOutside(t, x, Min(Sub(t, x).r), p);
  }

  /** With the missing assignments they are right. */
  lemma {:induction false} DoubleRepaired(t: Tree, x: Client, p: Pointers)
    requires Sound(t, p) && x in Nodes(t) && Sub(t, x).l.Node? && Sub(t, x).r.Node?
    ensures var lm := Min(Sub(t, x).r);
            UpOk(Remove(t, x), null, Repaired(RemovedDouble(p, x, lm), p, x, lm))
  {
    var l, r := Sub(t, x).l, Sub(t, x).r;
    var lm := Min(r);
    var q := Repaired(RemovedDouble(p, x, lm), p, x, lm);
    DoubleFacts(t, x, p);
    RepairedUps(t, x, p);
    TopUp(l, x, lm, p, q);
    if r.l.Leaf? {
      UpFrame(r.r, lm, p, q);
    } else {
      WithoutMinUp(r, x, lm, p, q);
    }
    ReplaceUp(t, null, x, Join(l, r), p, q);
  }

  /** What a client's own pointers say about its place. */
  lemma {:induction false} ChildrenOf(t: Tree, x: Client, p: Pointers)
    requires Sound(t, p) && x in Nodes(t)
    ensures p.left[x] == Top(Sub(t, x).l) && p.right[x] == Top(Sub(t, x).r)
    ensures p.left[x] != null ==> p.left[x] in Nodes(t) && p.left[x] != x
    ensures p.right[x] != null ==> p.right[x] in Nodes(t) && p.right[x] != x
    ensures Nodes(Sub(t, x).r) <= Nodes(t) && Linked(Sub(t, x).r, p)
    ensures p.up[x] == null <==> t.c == x
    ensures p.up[x] != null ==> p.up[x] in Nodes(t) && p.up[x] != x && (p.left[p.up[x]] == x || p.right[p.up[x]] == x)
    ensures p.up[x] != null ==> p.up[x] !in Nodes(Sub(t, x))
  {
    SubShape(t, x);
    SubLinked(t, null, x, p);
    ParentOf(t, null, x, p);
  }

  // ---------------------------------------------------------------------------------------------------
  // Handing the place over
  // ---------------------------------------------------------------------------------------------------

  /** The pointers after y has taken over the place and the children of x. */
  ghost function HandedOver(p: Pointers, x: Client, y: Client): Pointers {
    var q := Redirected(p, x, y);
    Pointers(q.left[y := Of(p.left, x)], q.right[y := Of(p.right, x)],
      Put(Put(q.up[y := Of(p.up, x)], Of(p.left, x), y), Of(p.right, x), y))
  }

  ghost function Successor(t: Tree, x: Client, y: Client): Tree
    requires x in Nodes(t)
  {
    Replace(t, x, Node(Sub(t, x).l, y, Sub(t, x).r))
  }

  lemma {:induction false} SuccessorShape(t: Tree, x: Client, y: Client)
    requires x in Nodes(t) && Ordered(t) && x.rank == y.rank
    ensures Ordered(Successor(t, x, y)) && Nodes(Successor(t, x, y)) == Nodes(t) - {x} + {y}
    ensures Top(Successor(t, x, y)) == if t.c == x then y else t.c
  {
    SubShape(t, x);
    var s := Node(Sub(t, x).l, y, Sub(t, x).r);
    ReplaceNodes(t, x, s);
    ReplaceOrdered(t, x, s);
  }

  lemma {:induction false} HandedOverLinked(t: Tree, x: Client, y: Client, p: Pointers)
    requires Sound(t, p) && x in Nodes(t) && y !in Nodes(t)
    ensures Linked(Successor(t, x, y), HandedOver(p, x, y))
  {
    var sub := Sub(t, x);
    var s, q := Node(sub.l, y, sub.r), HandedOver(p, x, y);
    SubShape(t, x);
    SubLinked(t, null, x, p);
    RedirectedOutside(t, x, y, p);
    LinkedFrame(sub.l, p, q);
    LinkedFrame(sub.r, p, q);
    forall c | c in Nodes(t) && c !in Nodes(sub)
      ensures Points(c, x, y, p, q)
    {
      assert Points(c, x, y, p, Redirected(p, x, y));
    }
    ReplaceLinked(t, x, s, p, q);
  }

  lemma {:induction false} HandedOverUp(t: Tree, x: Client, y: Client, p: Pointers)
    requires Sound(t, p) && x in Nodes(t) && y !in Nodes(t)
    ensures UpOk(Successor(t, x, y), null, HandedOver(p, x, y))
  {
    var sub := Sub(t, x);
    var s, q := Node(sub.l, y, sub.r), HandedOver(p, x, y);
    SubShape(t, x);
    SubLinked(t, null, x, p);
    RedirectedOutside(t, x, y, p);
    TopUp(sub.l, x, y, p, q);
    TopUp(sub.r, x, y, p, q);
    ReplaceUp(t, null, x, s, p, q);
  }

  /** The pointers after x has been hung below i. */
  ghost function Hung(p: Pointers, i: Client, x: Client): Pointers {
    Pointers(
      (if x.rank < i.rank then p.left[i := x] else p.left)[x := null],
      (if x.rank < i.rank then p.right else p.right[i := x])[x := null],
      p.up[x := i])
  }

  lemma {:induction false} HangShape(t: Tree, x: Client, p: Pointers)
    requires t.Node? && Ordered(t) && Linked(t, p) && Covers(p, Nodes(t))
    requires x !in Nodes(t) && forall c :: c in Nodes(t) ==> c.rank != x.rank
    ensures Ordered(Insert(t, x)) && Nodes(Insert(t, x)) == Nodes(t) + {x} && Top(Insert(t, x)) == Top(t)
    ensures Linked(Insert(t, x), Hung(p, Slot(t, x), x))
    ensures UpOk(t, null, p) ==> UpOk(Insert(t, x), null, Hung(p, Slot(t, x), x))
  {
    var q := Hung(p, Slot(t, x), x);
    InsertShape(t, x);
    SlotShape(t, x);
    InsertLinked(t, x, p, q);
    if UpOk(t, null, p) {
      InsertUp(t, null, x, p, q);
    }
  }

  /** The clients in the tree, its shape and their pointers, as they should be. */
  datatype View = View(tree: Tree, p: Pointers, nodes: set<Client>)

  /** The children of a view have its shape, in the right order. */
  ghost predicate Ascending(v: View) {
    v.nodes == Nodes(v.tree) && Ordered(v.tree) && Ranked(v.nodes) && Linked(v.tree, v.p)
  }

  ghost predicate Upright(v: View) {
    UpOk(v.tree, null, v.p)
  }

  // Both are stated behind a trigger, so that they are unfolded only where a proof names them.
  ghost predicate IsAscending(v: View) {
    forall w {:trigger Ascending(w)} :: w == v ==> Ascending(w)
  }

  ghost predicate IsUpright(v: View) {
    forall w {:trigger Upright(w)} :: w == v ==> Upright(w)
  }

  lemma {:induction false} EmptyView(v: View)
    requires IsAscending(v) && Top(v.tree) == null
    ensures v.nodes == {}
  {
    assert Ascending(v);
  }

  lemma {:induction false} SingleView(x: Client) returns (w: View)
    requires Ranked({x})
    ensures IsAscending(w) && IsUpright(w) && Top(w.tree) == x && w.nodes == {x}
    ensures w.p == Pointers(map[x := null], map[x := null], map[x := null])
  {
    w := View(Node(Leaf, x, Leaf), Pointers(map[x := null], map[x := null], map[x := null]), {x});
    assert Nodes(Leaf) == {} && Ordered(Node(Leaf, x, Leaf));
    assert Ascending(w) && Upright(w);
  }

  lemma {:induction false} HangView(v: View, i: Client, x: Client) returns (w: View)
    requires IsAscending(v) && Covers(v.p, v.nodes) && v.tree.Node? && Ranked({x}) && x !in v.nodes
    requires i == Slot(v.tree, x) && forall c :: c in v.nodes ==> c.id != x.id
    ensures IsAscending(w) && (IsUpright(v) ==> IsUpright(w))
    ensures w.nodes == v.nodes + {x} && w.p == Hung(v.p, i, x) && Top(w.tree) == Top(v.tree) && i in v.nodes
  {
    assert Ascending(v) && x in {x};
    w := View(Insert(v.tree, x), Hung(v.p, i, x), v.nodes + {x});
    DistinctRanks(v.tree, x);
    SlotShape(v.tree, x);
    HangShape(v.tree, x, v.p);
    if IsUpright(v) {
      assert Upright(v);
    }
  }

  /** Where a client's pointers lead. */
  ghost predicate Placed(v: View, x: Client) {
    && Covers(v.p, v.nodes) && x in v.nodes && (v.p.up[x] == null <==> Top(v.tree) == x)
    && (v.p.left[x] != null ==> v.p.left[x] in v.nodes - {x})
    && (v.p.right[x] != null ==> v.p.right[x] in v.nodes - {x})
    && (v.p.up[x] != null ==>
          v.p.up[x] in v.nodes - {x} && (v.p.left[v.p.up[x]] == x || v.p.right[v.p.up[x]] == x))
  }

  lemma {:induction false} EachPlaced(v: View, x: Client)
    requires IsAscending(v) && IsUpright(v) && Covers(v.p, v.nodes) && x in v.nodes
    ensures Placed(v, x)
  {
    assert Ascending(v) && Upright(v);
    ChildrenOf(v.tree, x, v.p);
  }

  /** All that matters about the first three cases. */
  lemma {:induction false} SimpleView(v: View, x: Client, y: Client?) returns (w: View)
    requires IsAscending(v) && IsUpright(v) && Covers(v.p, v.nodes) && x in v.nodes
    requires v.p.left[x] == null || v.p.right[x] == null
    requires y == if v.p.left[x] != null then v.p.left[x] else v.p.right[x]
    ensures IsAscending(w) && IsUpright(w) && w.nodes == v.nodes - {x} && w.p == RemovedSimple(v.p, x, y)
    ensures Top(w.tree) == if v.p.up[x] == null then y else Top(v.tree)
  {
    assert Ascending(v) && Upright(v);
    w := View(Remove(v.tree, x), RemovedSimple(v.p, x, y), v.nodes - {x});
    ChildrenOf(v.tree, x, v.p);
    SimpleRemoval(v.tree, x, v.p);
    RemoveShape(v.tree, x);
  }

  /** All that matters about the last case: `left` and `right` come out right, `up` does not, and would with the
      missing assignments. */
  ghost predicate Planned(v: View, x: Client, lm: Client, w: View) {
    && IsAscending(w) && w.nodes == v.nodes - {x} && w.p == RemovedDouble(v.p, x, lm)
    && Top(w.tree) == if Of(v.p.up, x) == null then lm else Top(v.tree)
  }

  ghost predicate Stale(v: View, x: Client, lm: Client, w: View) {
    !IsUpright(w) && IsUpright(w.(p := Repaired(w.p, v.p, x, lm)))
  }

  /** Where the pointers of the leftmost client of the right subtree lead. */
  ghost predicate Follows(v: View, x: Client, lm: Client) {
    && Covers(v.p, v.nodes) && x in v.nodes && lm in v.nodes - {x} && v.p.up[x] != lm
    && (v.p.up[x] != null ==> v.p.up[x] != v.p.up[lm])
    && (v.p.right[lm] != null ==> v.p.right[lm] in v.nodes - {x})
    && (lm != v.p.right[x] ==> v.p.up[lm] != null && v.p.up[lm] in v.nodes - {lm, x})
  }

  lemma {:induction false} DoubleFollows(v: View, x: Client, lm: Client)
    requires Ascending(v) && Upright(v) && Covers(v.p, v.nodes) && x in v.nodes
    requires v.p.left[x] != null && Sub(v.tree, x).r.Node? && lm == Min(Sub(v.tree, x).r)
    ensures Follows(v, x, lm)
  {
    ChildrenOf(v.tree, x, v.p);
    DoubleFacts(v.tree, x, v.p);
    SubShape(v.tree, x);
    MinParent(Sub(v.tree, x).r, x, v.p);
  }

  lemma {:induction false} DoubleView(v: View, x: Client, lm: Client) returns (w: View)
    requires Ascending(v) && Upright(v) && Covers(v.p, v.nodes) && x in v.nodes
    requires v.p.left[x] != null && Sub(v.tree, x).r.Node? && lm == Min(Sub(v.tree, x).r)
    ensures Planned(v, x, lm, w) && Stale(v, x, lm, w)
  {
    w := View(Remove(v.tree, x), RemovedDouble(v.p, x, lm), v.nodes - {x});
    ChildrenOf(v.tree, x, v.p);
    DoubleRemoval(v.tree, x, v.p);
    DoubleUpBroken(v.tree, x, v.p);
    DoubleRepaired(v.tree, x, v.p);
    RemoveShape(v.tree, x);
    assert !Upright(w);
  }

  /** Restoring the `up` links leaves the children alone. */
  lemma {:induction false} RestoredView(v: View, up: map<Client, Client?>)
    requires IsAscending(v)
    ensures IsAscending(v.(p := v.p.(up := up)))
  {
    assert Ascending(v);
    LinkedFrame(v.tree, v.p, v.p.(up := up));
  }

  lemma {:induction false} HandOverView(v: View, x: Client, y: Client) returns (w: View)
    requires IsAscending(v) && IsUpright(v) && Covers(v.p, v.nodes) && x in v.nodes && y !in v.nodes
    requires y.id == x.id && Ranked({y})
    ensures IsAscending(w) && IsUpright(w) && w.nodes == v.nodes - {x} + {y} && w.p == HandedOver(v.p, x, y)
    ensures Top(w.tree) == if v.p.up[x] == null then y else Top(v.tree)
  {
    assert Ascending(v) && Upright(v) && y in {y};
    w := View(Successor(v.tree, x, y), HandedOver(v.p, x, y), v.nodes - {x} + {y});
    SuccessorShape(v.tree, x, y);
    HandedOverLinked(v.tree, x, y, v.p);
    HandedOverUp(v.tree, x, y, v.p);
    ChildrenOf(v.tree, x, v.p);
  }

  class Registry {
    var root: Client?
    ghost var view: View

    /** The tree as search and insertion need it: `left` and `right` have the shape, in the right order. */
    ghost predicate Shape()
      reads this, view.nodes`left, view.nodes`right, view.nodes`up
    {
      IsAscending(view) && root == Top(view.tree) && Agrees(view.p, view.nodes)
    }

    /** The tree as removal needs it: the `up` links have the shape too. */
    ghost predicate Valid()
      reads this, view.nodes`left, view.nodes`right, view.nodes`up
    {
      Shape() && IsUpright(view)
    }

    constructor ()
      ensures Valid() && view.nodes == {}
    {
      root, view := null, View(Leaf, Pointers(map[], map[], map[]), {});
    }

    /** client_tree_search */
    method Search(id: Id) returns (i: Client?)
      requires Shape()
      ensures i != null ==> i in view.nodes && i.id == id
      ensures i == null ==> forall c :: c in view.nodes ==> c.id != id
    {
      assert Ascending(view);
      i := root;
      ghost var sub := view.tree;
      while i != null
        invariant i == Top(sub) && Ordered(sub) && Linked(sub, view.p) && Nodes(sub) <= view.nodes
        invariant forall c :: c in view.nodes && c.id == id ==> c in Nodes(sub)
        decreases sub
      {
        var cmp := Memcmp(id, i.id);
        if cmp == 0 {
          return;
        }
        assert At(i, view.p);
        if cmp < 0 {
          i, sub := i.left, sub.l;
        } else {
          i, sub := i.right, sub.r;
        }
      }
    }

    /** The descent of client_tree_add to the client below which ci belongs; null if its identifier is taken. */
    method FindSlot(ci: Client) returns (i: Client?, goLeft: bool)
      requires Shape() && root != null && ci.rank == Rank(ci.id)
      ensures i == null <==> exists c :: c in view.nodes && c.id == ci.id
      ensures i != null ==> i == Slot(view.tree, ci) && (goLeft <==> ci.rank < i.rank)
    {
      assert Ascending(view);
      i := root;
      ghost var sub := view.tree;
      while true
        invariant sub.Node? && i == sub.c && Ordered(sub) && Linked(sub, view.p) && Nodes(sub) <= view.nodes
        invariant forall c :: c in view.nodes && c.id == ci.id ==> c in Nodes(sub)
        invariant Slot(view.tree, ci) == Slot(sub, ci)
        decreases sub
      {
        var cmp := Memcmp(ci.id, i.id);
        if cmp == 0 {
          return null, false;
        }
        assert At(i, view.p);
        if cmp < 0 {
          if i.left == null {
            return i, true;
          }
          i, sub := i.left, sub.l;
        } else {
          if i.right == null {
            return i, false;
          }
          i, sub := i.right, sub.r;
        }
      }
    }

    /** client_tree_add */
    method Add(ci: Client) returns (added: bool)
      requires Shape() && ci !in view.nodes && Ranked({ci})
      requires ci.left == null && ci.right == null && ci.up == null
      modifies this, view.nodes`left, view.nodes`right, ci`up
      ensures Shape() && (old(Valid()) ==> Valid())
      ensures added <==> forall c :: c in old(view.nodes) ==> c.id != ci.id
      ensures view.nodes == if added then old(view.nodes) + {ci} else old(view.nodes)
      ensures !added ==> ci.up == null
    {
      assert ci in {ci};
      if root == null {
        EmptyView(view);
        ghost var w := SingleView(ci);
        root, view := ci, w;
        assert At(ci, w.p);
        return true;
      }
      var i, goLeft := FindSlot(ci);
      if i == null {
        return false;
      }
      ghost var w := HangView(view, i, ci);
      Hang(ci, i, goLeft, view.nodes);
      view := w;
      return true;
    }

    /** The search for the leftmost client of the right subtree. */
    method Leftmost(start: Client, ghost sub: Tree) returns (lm: Client)
      requires Agrees(view.p, Nodes(sub)) && sub.Node? && sub.c == start && Linked(sub, view.p)
      ensures lm == Min(sub)
    {
      lm := start;
      ghost var t := sub;
      assert At(lm, view.p);
      while lm.left != null
        invariant t.Node? && lm == t.c && Linked(t, view.p) && Nodes(t) <= Nodes(sub) && Min(t) == Min(sub)
        invariant At(lm, view.p)
        decreases t
      {
        lm, t := lm.left, t.l;
        assert lm in Nodes(t) && At(lm, view.p);
      }
    }

    /** *p_link = y */
    method Redirect(ci: Client, y: Client?, ghost s: set<Client>)
      requires Agrees(view.p, s) && ci in s && (ci.up != null ==> ci.up in s && (ci.up.left == ci || ci.up.right == ci))
      modifies this`root, s`left, s`right
      ensures Agrees(Redirected(view.p, ci, y), s)
      ensures root == if ci.up == null then y else old(root)
    {
      assert At(ci, view.p) && (ci.up != null ==> At(ci.up, view.p));
      if ci.up == null {
        root := y;
      } else if ci == ci.up.left {
        ci.up.left := y;
      } else {
        ci.up.right := y;
      }
      forall c | c in s
        ensures At(c, Redirected(view.p, ci, y))
      {
        assert old(At(c, view.p));
      }
    }

    /** The first three cases of client_tree_remove: the only child, if there is one, moves up. */
    method RelinkSimple(ci: Client, y: Client?, ghost s: set<Client>)
      requires Agrees(view.p, s) && ci in s && (ci.up != null ==> ci.up in s && (ci.up.left == ci || ci.up.right == ci))
      requires y != null ==> y in s && y != ci
      modifies this`root, s`left, s`right, s`up
      ensures ci in view.p.up && Agrees(RemovedSimple(view.p, ci, y), s)
      ensures root == if old(ci.up) == null then y else old(root)
    {
      assert At(ci, view.p);
      Redirect(ci, y, s);
      SetUp(y, ci.up, Redirected(view.p, ci, y), s);
    }

    /** The last case: the leftmost client of the right subtree takes the place of ci.  The program writes *p_link last;
        it belongs to a client that the other assignments do not touch. */
    method RelinkDouble(ci: Client, lm: Client, ghost s: set<Client>)
      requires Agrees(view.p, s) && ci in s && lm in s && lm != ci
      requires ci.up != null ==>
               ci.up in s && ci.up != ci && ci.up != lm && ci.up != lm.up && (ci.up.left == ci || ci.up.right == ci)
      requires lm != ci.right ==> lm.up != null && lm.up in s && lm.up != lm && lm.up != ci
      modifies this`root, s`left, s`right, s`up
      ensures Agrees(RemovedDouble(view.p, ci, lm), s)
      ensures root == if old(ci.up) == null then lm else old(root)
    {
      assert At(ci, view.p) && At(lm, view.p);
      Redirect(ci, lm, s);
      assert At(ci, Redirected(view.p, ci, lm)) && At(lm, Redirected(view.p, ci, lm));
      Lift(ci, lm, s, Redirected(view.p, ci, lm));
    }

    method Lift(ci: Client, lm: Client, ghost s: set<Client>, ghost q: Pointers)
      requires Agrees(q, s) && ci in s && lm in s && lm != ci
      requires lm != ci.right ==> lm.up != null && lm.up in s && lm.up != lm && lm.up != ci
      modifies s`left, s`right, s`up
      ensures Agrees(Lifted(q, ci, lm), s)
    {
      assert At(ci, q) && At(lm, q);
      if lm != ci.right {
        lm.up.left := lm.right;
        lm.right := ci.right;
      }
      lm.left := ci.left;
      lm.up := ci.up;
      forall c | c in s
        ensures At(c, Lifted(q, ci, lm))
      {
        assert old(At(c, q));
      }
    }

    /** client_tree_remove as the program has it.  The order and the children come out right and exactly ci is gone;
        the `up` links come out right if and only if ci had at most one child. */
    method RemoveClient(ci: Client)
      requires Valid() && ci in view.nodes
      modifies this, view.nodes`left, view.nodes`right, view.nodes`up
      ensures Shape() && view.nodes == old(view.nodes) - {ci}
      ensures Valid() <==> old(ci.left) == null || old(ci.right) == null
    {
      if ci.left == null || ci.right == null {
        RemoveSimple(ci);
      } else {
        var lm: Client;
        ghost var w: View;
        lm, w := FindSuccessor(ci);
        RemoveDouble(ci, lm, w);
      }
    }

    method RemoveSimple(ci: Client)
      requires Valid() && ci in view.nodes && (ci.left == null || ci.right == null)
      modifies this, view.nodes`left, view.nodes`right, view.nodes`up
      ensures Valid() && view.nodes == old(view.nodes) - {ci}
    {
      var y := if ci.left != null then ci.left else ci.right;
      EachPlaced(view, ci);
      assert At(ci, view.p) && (ci.up != null ==> At(ci.up, view.p));
      ghost var w := SimpleView(view, ci, y);
      RelinkSimple(ci, y, view.nodes);
      view := w;
    }

    /** The leftmost client of the right subtree. */
    method FindSuccessor(ci: Client) returns (lm: Client, ghost w: View)
      requires Valid() && ci in view.nodes && ci.left != null && ci.right != null
      ensures Follows(view, ci, lm) && Planned(view, ci, lm, w) && Stale(view, ci, lm, w)
    {
      assert Ascending(view) && Upright(view) && At(ci, view.p);
      ChildrenOf(view.tree, ci, view.p);
      lm := Leftmost(ci.right, Sub(view.tree, ci).r);
      DoubleFollows(view, ci, lm);
      w := DoubleView(view, ci, lm);
    }

    method RemoveDouble(ci: Client, lm: Client, ghost w: View)
      requires Valid() && ci in view.nodes && Follows(view, ci, lm) && Planned(view, ci, lm, w)
      modifies this, view.nodes`left, view.nodes`right, view.nodes`up
      ensures Shape() && view == w
    {
      TakeOut(ci, lm, w);
      view := w;
    }

    method TakeOut(ci: Client, lm: Client, ghost w: View)
      requires Valid() && ci in view.nodes && Follows(view, ci, lm) && Planned(view, ci, lm, w)
      modifies this`root, view.nodes`left, view.nodes`right, view.nodes`up
      ensures Agrees(w.p, w.nodes) && root == Top(w.tree)
    {
      EachPlaced(view, ci);
      assert At(ci, view.p) && At(lm, view.p) && (ci.up != null ==> At(ci.up, view.p));
      RelinkDouble(ci, lm, view.nodes);
    }

    /** client_tree_remove with the assignments it leaves out. */
    method RemoveRestoring(ci: Client)
      requires Valid() && ci in view.nodes
      modifies this, view.nodes`left, view.nodes`right, view.nodes`up
      ensures Valid() && view.nodes == old(view.nodes) - {ci}
    {
      if ci.left == null || ci.right == null {
        RemoveSimple(ci);
        return;
      }
      ghost var p := view.p;
      var lm: Client;
      ghost var w: View;
      lm, w := FindSuccessor(ci);
      EachPlaced(view, ci);
      assert At(ci, p) && At(lm, p);
      var l, r, below, above := ci.left, ci.right, lm.right, lm.up;
      RemoveDouble(ci, lm, w);
      RestoreUps(lm, l, r, below, above, p, ci);
    }

    method RestoreUps(lm: Client, l: Client, r: Client, below: Client?, above: Client?, ghost p: Pointers,
          ghost ci: Client)
      requires Shape() && IsUpright(view.(p := Repaired(view.p, p, ci, lm)))
      requires l in view.nodes && r in view.nodes && (below != null ==> below in view.nodes)
      requires Of(p.left, ci) == l && Of(p.right, ci) == r && Of(p.right, lm) == below && Of(p.up, lm) == above
      modifies this`view, view.nodes`up
      ensures Valid() && view.nodes == old(view.nodes)
    {
      MoveUps(lm, l, r, below, above, p, ci, view.nodes);
      ghost var q := Repaired(view.p, p, ci, lm);
      RestoredView(view, q.up);
      assert q == view.p.(up := q.up);
      view := view.(p := q);
    }

    /** The assignments themselves. */
    method MoveUps(lm: Client, l: Client, r: Client, below: Client?, above: Client?,
                   ghost p: Pointers, ghost ci: Client, ghost s: set<Client>)
      requires Agrees(view.p, s) && l in s && r in s && (below != null ==> below in s)
      requires Of(p.left, ci) == l && Of(p.right, ci) == r && Of(p.right, lm) == below && Of(p.up, lm) == above
      modifies s`up
      ensures Agrees(Repaired(view.p, p, ci, lm), s)
    {
      SetUp(l, lm, view.p, s);
      if lm != r {
        ghost var q := view.p.(up := Put(view.p.up, l, lm));
        SetUp(below, above, q, s);
        SetUp(r, lm, q.(up := Put(q.up, below, above)), s);
      }
    }

    method SetUp(c: Client?, u: Client?, ghost q: Pointers, ghost s: set<Client>)
      requires Agrees(q, s) && (c != null ==> c in s)
      modifies s`up
      ensures Agrees(q.(up := Put(q.up, c, u)), s)
    {
      if c != null {
        c.up := u;
      }
      forall x | x in s
        ensures At(x, q.(up := Put(q.up, c, u)))
      {
        assert old(At(x, q));
      }
    }

    /** client_tree_replace_multi: the next login takes over the place of the primary one. */
    method ReplaceMulti(primary: Client, secondary: Client)
      requires Valid() && primary in view.nodes && secondary !in view.nodes && primary.nextMulti == secondary
      requires secondary.id == primary.id && Ranked({secondary})
      modifies this, view.nodes`left, view.nodes`right, view.nodes`up
      modifies secondary`left, secondary`right, secondary`up, secondary`state
      ensures Valid() && view.nodes == old(view.nodes) - {primary} + {secondary} && secondary.state == primary.state
    {
      ghost var w := HandOver(primary, secondary);
      view := w;
    }

    method HandOver(primary: Client, secondary: Client) returns (ghost w: View)
      requires Valid() && primary in view.nodes && secondary !in view.nodes
      requires secondary.id == primary.id && Ranked({secondary})
      modifies this`root, view.nodes`left, view.nodes`right, view.nodes`up
      modifies secondary`left, secondary`right, secondary`up, secondary`state
      ensures IsAscending(w) && IsUpright(w) && w.nodes == view.nodes - {primary} + {secondary}
      ensures Agrees(w.p, w.nodes) && root == Top(w.tree) && secondary.state == primary.state
    {
      EachPlaced(view, primary);
      assert At(primary, view.p) && (primary.up != null ==> At(primary.up, view.p));
      w := HandOverView(view, primary, secondary);
      RelinkHandOver(primary, secondary, view.nodes);
    }

    method RelinkHandOver(ci: Client, y: Client, ghost s: set<Client>)
      requires Agrees(view.p, s) && ci in s && y !in s
      requires ci.up != null ==> ci.up in s && ci.up != ci && (ci.up.left == ci || ci.up.right == ci)
      requires ci.left != null ==> ci.left in s && ci.left != ci
      requires ci.right != null ==> ci.right in s && ci.right != ci
      modifies this`root, s`left, s`right, s`up, y`left, y`right, y`up, y`state
      ensures Agrees(HandedOver(view.p, ci, y), s + {y})
      ensures root == (if old(ci.up) == null then y else old(root)) && y.state == ci.state
    {
      assert At(ci, view.p);
      Redirect(ci, y, s);
      ghost var q := Redirected(view.p, ci, y);
      assert At(ci, q);
      TakePointers(ci, y, q, s);
      ghost var q' := Pointers(q.left[y := Of(view.p.left, ci)], q.right[y := Of(view.p.right, ci)],
          q.up[y := Of(view.p.up, ci)]);
      TellChildren(ci, y, q', s + {y});
    }

    method TellChildren(ci: Client, y: Client, ghost q: Pointers, ghost s: set<Client>)
      requires Agrees(q, s) && (ci.left != null ==> ci.left in s) && (ci.right != null ==> ci.right in s)
      modifies s`up
      ensures Agrees(q.(up := Put(Put(q.up, ci.left, y), ci.right, y)), s)
    {
      SetUp(ci.left, y, q, s);
      SetUp(ci.right, y, q.(up := Put(q.up, ci.left, y)), s);
    }

    method TakePointers(ci: Client, y: Client, ghost q: Pointers, ghost s: set<Client>)
      requires Agrees(q, s) && ci in s && y !in s
      modifies y`left, y`right, y`up, y`state
      ensures Agrees(Pointers(q.left[y := ci.left], q.right[y := ci.right], q.up[y := ci.up]), s + {y})
      ensures y.state == ci.state
    {
      y.state := ci.state;
      y.up := ci.up;
      y.left := ci.left;
      y.right := ci.right;
      ghost var q' := Pointers(q.left[y := ci.left], q.right[y := ci.right], q.up[y := ci.up]);
      assert At(y, q');
      forall c | c in s
        ensures At(c, q')
      {
        assert old(At(c, q));
      }
    }

    /** The two assignments with which client_tree_add ends. */
    method Hang(ci: Client, i: Client, goLeft: bool, ghost s: set<Client>)
      requires Agrees(view.p, s) && i in s && ci !in s
      requires ci.left == null && ci.right == null && (goLeft <==> ci.rank < i.rank)
      modifies i`left, i`right, ci`up
      ensures Agrees(Hung(view.p, i, ci), s + {ci})
    {
      if goLeft {
        i.left := ci;
      } else {
        i.right := ci;
      }
      ci.up := i;
      assert At(ci, Hung(view.p, i, ci));
      forall c | c in s
        ensures At(c, Hung(view.p, i, ci))
      {
        assert old(At(c, view.p));
      }
    }
  }

  lemma {:induction false} DistinctRanks(t: Tree, x: Client)
    requires Ranked(Nodes(t)) && x.rank == Rank(x.id) && forall c :: c in Nodes(t) ==> c.id != x.id
    ensures forall c :: c in Nodes(t) ==> c.rank != x.rank
  {
    forall c | c in Nodes(t)
      ensures c.rank != x.rank
    {
      if c.rank == x.rank {
        SameRank(c.id, x.id);
      }
    }
  }
}
