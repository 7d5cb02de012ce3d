/** Several logins of one user (client_attach_multi_secondary, client_tree_replace_multi, client_list_delete in
    PICA_node.c).  For each identifier that is logged in, the client in the tree is the primary login and the others
    hang on its `nextMulti` chain.

    `logins` maps each identifier to its clients, primary first; `Good` says that tree, chains and states are what
    this map says they are. */
module MultiLogin {
  import opened Memory
  import opened Ids
  import opened ClientTree

  type LoginMap = map<Id, seq<Client>>

  /** A new login comes right after the primary one. */
  ghost function LoggedIn(m: LoginMap, c: Client): LoginMap {
    if c.id in m && |m[c.id]| > 0 then m[c.id := [m[c.id][0], c] + m[c.id][1..]] else m[c.id := [c]]
  }

  ghost function Without(s: seq<Client>, c: Client): seq<Client> {
    if s == [] then [] else if s[0] == c then s[1..] else [s[0]] + Without(s[1..], c)
  }

  /** A client disappears; the identifier does if this was its last login. */
  ghost function LoggedOut(m: LoginMap, c: Client): LoginMap {
    if c.id !in m then m
    else if Without(m[c.id], c) == [] then m - {c.id}
    else m[c.id := Without(m[c.id], c)]
  }

  lemma {:induction false} WithoutAt(s: seq<Client>, c: Client, k: nat)
    requires k < |s| && s[k] == c && forall i :: 0 <= i < k ==> s[i] != c
    ensures Without(s, c) == s[..k] + s[k + 1..]
  {
    if k > 0 {
      WithoutAt(s[1..], c, k - 1);
    }
  }

  lemma {:induction false} WithoutNone(s: seq<Client>, c: Client)
    requires c !in s
    ensures Without(s, c) == s
  {
    if s != [] {
      WithoutNone(s[1..], c);
    }
  }

  /** The chain pointers and states of a set of clients at one moment. */
  datatype Links = Links(next: map<Client, Client?>, state: map<Client, ClState>)

  ghost predicate Current(q: Links, s: set<Client>)
    reads s`nextMulti, s`state
  {
    forall c {:trigger Has(c, q)} :: c in s ==> Has(c, q)
  }

  ghost predicate Has(c: Client, q: Links)
    reads c`nextMulti, c`state
  {
    c in q.next && c in q.state && q.next[c] == c.nextMulti && q.state[c] == c.state
  }

  /** Position k of the chain of one identifier: exactly the first login is Connected. */
  ghost predicate Place(id: Id, s: seq<Client>, k: nat, q: Links) {
    k < |s| ==>
      && s[k] in q.next && s[k] in q.state && s[k].id == id && s[k].rank == Rank(id)
      && q.next[s[k]] == (if k + 1 < |s| then s[k + 1] else null)
      && q.state[s[k]] == (if k == 0 then Connected else Secondary)
  }

  /** The clients s are the chain of one identifier, each of them once. */
  ghost predicate Chain(id: Id, s: seq<Client>, q: Links) {
    s != [] && (forall k: nat {:trigger Place(id, s, k, q)} :: Place(id, s, k, q)) && Distinct(s)
  }

  /** The chains of the map m hang on the clients `heads`, which are the clients in the tree. */
  ghost predicate Chains(m: LoginMap, heads: set<Client>, members: set<Client>, q: Links) {
    && (forall id {:trigger Chain(id, m[id], q)} :: id in m ==> Chain(id, m[id], q))
    && (forall id :: id in m ==> m[id] != [] && m[id][0] in heads)
    && (forall id, k :: id in m && 0 <= k < |m[id]| ==> m[id][k] in members)
    && (forall c :: c in heads ==> c.id in m && m[c.id] != [] && m[c.id][0] == c)
  }

  lemma {:induction false} ChainKept(id: Id, s: seq<Client>, q: Links, r: Links)
    requires Chain(id, s, q)
    requires forall k :: 0 <= k < |s| && s[k] in q.next && s[k] in q.state ==>
               s[k] in r.next && s[k] in r.state && r.next[s[k]] == q.next[s[k]] && r.state[s[k]] == q.state[s[k]]
    ensures Chain(id, s, r)
  {
    forall k: nat
      ensures Place(id, s, k, r)
    {
      assert Place(id, s, k, q);
    }
  }

  /** Clients on other chains have other identifiers, so they are not among those with identifier `id`. */
  lemma {:induction false} OthersKept(m: LoginMap, q: Links, r: Links, id: Id)
    requires forall i {:trigger Chain(i, m[i], q)} :: i in m ==> Chain(i, m[i], q)
    requires forall c :: c in q.next && c in q.state && c.id != id ==>
               c in r.next && c in r.state && r.next[c] == q.next[c] && r.state[c] == q.state[c]
    ensures forall i {:trigger Chain(i, m[i], r)} :: i in m && i != id ==> Chain(i, m[i], r)
  {
    forall i | i in m && i != id
      ensures Chain(i, m[i], r)
    {
      assert Chain(i, m[i], q);
      forall k | 0 <= k < |m[i]|
        ensures m[i][k].id != id
      {
        assert Place(i, m[i], k, q);
      }
      ChainKept(i, m[i], q, r);
    }
  }

  /** What the chains say about any two logged-in clients: a client is on one chain and in one place of it, it is
      Connected exactly if it is in the tree, and two clients of one identifier are not both Connected. */
  lemma {:induction false} OnePrimaryEach(m: LoginMap, heads: set<Client>, members: set<Client>, q: Links, i: Id,
        a: nat, j: Id, b: nat)
    requires Chains(m, heads, members, q) && i in m && j in m && a < |m[i]| && b < |m[j]|
    ensures m[i][a] == m[j][b] ==> i == j && a == b
    ensures m[i][a] in q.state && m[j][b] in q.state && (q.state[m[i][a]] == Connected <==> m[i][a] in heads)
    ensures m[i][a].id == m[j][b].id && q.state[m[i][a]] == Connected && q.state[m[j][b]] == Connected ==>
            m[i][a] == m[j][b]
  {
    assert Chain(i, m[i], q) && Chain(j, m[j], q);
    assert Place(i, m[i], a, q) && Place(j, m[j], b, q);
    OnlyAt(m[i], a);
  }

  lemma {:induction false} FirstLogin(m: LoginMap, heads: set<Client>, members: set<Client>, q: Links, c: Client)
    requires Chains(m, heads, members, q) && Ranked({c}) && c !in members && c.id !in m
    ensures Chains(LoggedIn(m, c), heads + {c}, members + {c}, Links(q.next[c := null], q.state[c := Connected]))
  {
    var m', r := LoggedIn(m, c), Links(q.next[c := null], q.state[c := Connected]);
    OthersKept(m, q, r, c.id);
    assert m'[c.id] == [c] && forall i :: i in m ==> m'[i] == m[i];
    assert c in {c};
    assert Chain(c.id, [c], r);
    forall i | i in m'
      ensures Chain(i, m'[i], r)
    {
      if i != c.id {
        assert Chain(i, m[i], r);
      }
    }
  }

  lemma {:induction false} FurtherChain(id: Id, s: seq<Client>, q: Links, c: Client)
    requires Chain(id, s, q) && Ranked({c}) && c.id == id && c !in s
    ensures s[0] in q.next
    ensures Chain(id, [s[0], c] + s[1..], Links(q.next[c := q.next[s[0]]][s[0] := c], q.state[c := Secondary]))
  {
    assert Place(id, s, 0, q) && c in {c};
    OnlyAt(s, 0);
    DistinctTail(s);
    OneBefore(c, s[1..]);
    OneBefore(s[0], [c] + s[1..]);
    assert [s[0], c] + s[1..] == [s[0]] + ([c] + s[1..]);
    var s', r := [s[0], c] + s[1..], Links(q.next[c := q.next[s[0]]][s[0] := c], q.state[c := Secondary]);
    forall k: nat
      ensures Place(id, s', k, r)
    {
      if k > 0 {
        assert Place(id, s, k - 1, q);
      }
    }
  }

  lemma {:induction false} FurtherLogin(m: LoginMap, heads: set<Client>, members: set<Client>, q: Links, p: Client,
        c: Client)
    requires Chains(m, heads, members, q) && Ranked({c}) && c !in members && p in heads && p.id == c.id
    ensures p in q.next
    ensures Chains(LoggedIn(m, c), heads, members + {c}, Links(q.next[c := q.next[p]][p := c], q.state[c := Secondary]))
  {
    var s := m[c.id];
    assert Chain(c.id, s, q);
    FurtherChain(c.id, s, q, c);
    var m', r := LoggedIn(m, c), Links(q.next[c := q.next[p]][p := c], q.state[c := Secondary]);
    OthersKept(m, q, r, c.id);
    forall i | i in m'
      ensures Chain(i, m'[i], r)
    {
      if i != c.id {
        assert Chain(i, m[i], r);
      }
    }
  }
  /** Every client on the chains other than c is one of the members other than c. */
  lemma {:induction false} OthersAreMembers(m: LoginMap, heads: set<Client>, members: set<Client>, q: Links, c: Client)
    requires Chains(m, heads, members, q)
    ensures forall i, k :: i in m && i != c.id && 0 <= k < |m[i]| ==> m[i][k] in members - {c}
  {
    forall i, k | i in m && i != c.id && 0 <= k < |m[i]|
      ensures m[i][k] in members - {c}
    {
      assert Chain(i, m[i], q) && Place(i, m[i], k, q);
    }
  }

  /** One chain is exchanged and the others stay. */
  lemma {:induction false} ExchangeChain(m: LoginMap, heads: set<Client>, heads': set<Client>, members: set<Client>,
        q: Links, r: Links, c: Client, s: seq<Client>)
    requires Chains(m, heads, members, q) && c.id in m
    requires forall x :: x in q.next && x in q.state && x.id != c.id ==>
               x in r.next && x in r.state && r.next[x] == q.next[x] && r.state[x] == q.state[x]
    requires Chain(c.id, s, r) && s == Without(m[c.id], c) && heads' == heads - {m[c.id][0]} + {s[0]}
    requires forall k :: 0 <= k < |s| ==> s[k] in members - {c}
    ensures Chains(LoggedOut(m, c), heads', members - {c}, r)
  {
    var m' := LoggedOut(m, c);
    OthersKept(m, q, r, c.id);
    OthersAreMembers(m, heads, members, q, c);
    assert m' == m[c.id := s];
    forall i | i in m'
      ensures Chain(i, m'[i], r) && m'[i] != [] && m'[i][0] in heads'
    {
      if i != c.id {
        assert Chain(i, m[i], r) && Chain(i, m[i], q) && Place(i, m[i], 0, q);
        assert Chain(c.id, m[c.id], q) && Place(c.id, m[c.id], 0, q);
      }
    }
    assert Place(c.id, s, 0, r);
  }

  /** The last login of an identifier ends. */
  lemma {:induction false} LastLogout(m: LoginMap, heads: set<Client>, members: set<Client>, q: Links, c: Client)
    requires Chains(m, heads, members, q) && c in heads && c in q.next && q.next[c] == null
    ensures Chains(LoggedOut(m, c), heads - {c}, members - {c}, q)
  {
    var m' := LoggedOut(m, c);
    assert Chain(c.id, m[c.id], q) && Place(c.id, m[c.id], 0, q);
    assert m[c.id] == [c] && Without([c], c) == [];
    OthersAreMembers(m, heads, members, q, c);
    forall i | i in m'
      ensures Chain(i, m'[i], q) && m'[i][0] in heads - {c}
    {
      assert Chain(i, m[i], q) && Place(i, m[i], 0, q);
    }
  }

  lemma {:induction false} ShorterChain(id: Id, s: seq<Client>, q: Links)
    requires Chain(id, s, q) && |s| > 1
    ensures Chain(id, s[1..], q.(state := q.state[s[1] := Connected]))
  {
    var s', r := s[1..], q.(state := q.state[s[1] := Connected]);
    DistinctTail(s);
    OnlyAt(s, 1);
    forall k: nat
      ensures Place(id, s', k, r)
    {
      assert Place(id, s, k + 1, q);
    }
  }

  /** What is known of the login after the primary one. */
  lemma {:induction false} NextLogin(m: LoginMap, heads: set<Client>, members: set<Client>, q: Links, c: Client)
    requires Chains(m, heads, members, q) && c in heads && c in q.next && q.next[c] != null
    ensures |m[c.id]| > 1 && m[c.id][0] == c && m[c.id][1] == q.next[c] && c in q.state && q.state[c] == Connected
    ensures q.next[c].id == c.id && q.next[c].rank == Rank(c.id) && q.next[c] !in heads && q.next[c] in members
            && q.next[c] != c
  {
    var s := m[c.id];
    assert Chain(c.id, s, q) && Place(c.id, s, 0, q) && Place(c.id, s, 1, q);
  }

  /** The primary login ends and the next one takes over. */
  lemma {:induction false} PrimaryLogout(m: LoginMap, heads: set<Client>, members: set<Client>, q: Links, c: Client)
    requires Chains(m, heads, members, q) && c in heads && c in q.next && q.next[c] != null
    ensures Chains(LoggedOut(m, c), heads - {c} + {q.next[c]}, members - {c},
            q.(state := q.state[q.next[c] := Connected]))
  {
    var s := m[c.id];
    NextLogin(m, heads, members, q, c);
    assert Chain(c.id, s, q);
    OnlyAt(s, 0);
    ShorterChain(c.id, s, q);
    ExchangeChain(m, heads, heads - {c} + {s[1]}, members, q, q.(state := q.state[s[1] := Connected]), c, s[1..]);
  }

  lemma {:induction false} CutChain(id: Id, s: seq<Client>, q: Links, k: nat)
    requires Chain(id, s, q) && 0 < k < |s| && s[k] in q.next
    ensures Chain(id, s[..k] + s[k + 1..], q.(next := q.next[s[k - 1] := q.next[s[k]]]))
  {
    var r, s' := q.(next := q.next[s[k - 1] := q.next[s[k]]]), s[..k] + s[k + 1..];
    assert Place(id, s, k, q);
    OneOut(s, k);
    OnlyAt(s, k - 1);
    forall j: nat
      ensures Place(id, s', j, r)
    {
      assert Place(id, s, if j < k then j else j + 1, q);
    }
  }

  lemma {:induction false} CutMembers(s: seq<Client>, k: nat, s': seq<Client>, members: set<Client>)
    requires k < |s| && Distinct(s) && (forall j :: 0 <= j < |s| ==> s[j] in members) && s' == s[..k] + s[k + 1..]
    ensures forall j :: 0 <= j < |s'| ==> s'[j] in members - {s[k]}
  {
    OnlyAt(s, k);
    forall j | 0 <= j < |s'|
      ensures s'[j] in members - {s[k]}
    {
      assert s'[j] == s[if j < k then j else j + 1];
    }
  }

  /** A further login ends. */
  lemma {:induction false} SecondaryLogout(m: LoginMap, heads: set<Client>, members: set<Client>, q: Links, c: Client,
        k: nat)
    requires Chains(m, heads, members, q) && c.id in m && 0 < k < |m[c.id]| && m[c.id][k] == c && c in q.next
    ensures Chains(LoggedOut(m, c), heads, members - {c}, q.(next := q.next[m[c.id][k - 1] := q.next[c]]))
  {
    var s := m[c.id];
    assert Chain(c.id, s, q) && Place(c.id, s, k - 1, q) && Place(c.id, s, k, q);
    OnlyAt(s, k);
    WithoutAt(s, c, k);
    CutChain(c.id, s, q, k);
    var s' := s[..k] + s[k + 1..];
    CutMembers(s, k, s', members);
    ExchangeChain(m, heads, heads, members, q, q.(next := q.next[s[k - 1] := q.next[c]]), c, s');
  }

  /** Deleting a client that never logged in. */
  lemma {:induction false} NoLogout(m: LoginMap, heads: set<Client>, members: set<Client>, q: Links, c: Client)
    requires Chains(m, heads, members, q) && (c.id in m ==> c !in m[c.id])
    ensures LoggedOut(m, c) == m && Chains(m, heads, members - {c}, q)
  {
    OthersAreMembers(m, heads, members, q, c);
    if c.id in m {
      assert Chain(c.id, m[c.id], q);
      WithoutNone(m[c.id], c);
    }
  }

  /** Who is logged in, the clients concerned and their chain pointers and states, as they should be. */
  datatype Book = Book(logins: LoginMap, members: set<Client>, links: Links)

  lemma {:induction false} NotLoggedIn(m: LoginMap, heads: set<Client>, members: set<Client>, q: Links, id: Id)
    requires Chains(m, heads, members, q) && forall c :: c in heads ==> c.id != id
    ensures id !in m
  {
    forall i | i in m
      ensures i != id
    {
      assert Chain(i, m[i], q) && Place(i, m[i], 0, q);
    }
  }

  class Logins {
    const tree: Registry
    ghost var book: Book

    /** The chains of the clients `heads` and the states on them are what the map says. */
    ghost predicate Chained(heads: set<Client>)
      reads this, book.members`nextMulti, book.members`state
    {
      && heads <= book.members
      && Chains(book.logins, heads, book.members, book.links) && Current(book.links, book.members)
    }

    ghost predicate Good()
      reads this, tree, tree.view.nodes`left, tree.view.nodes`right, tree.view.nodes`up
      reads book.members`nextMulti, book.members`state
    {
      tree.Shape() && Chained(tree.view.nodes)
    }

    constructor ()
      ensures Good() && tree.Valid() && book.logins == map[] && book.members == {} && fresh(tree)
    {
      tree := new Registry();
      book := Book(map[], {}, Links(map[], map[]));
    }

    /** The end of the login in process_c2n_write: the first login of an identifier goes into the tree, a further one
        is attached to the primary login. */
    method Login(ci: Client)
      requires Good() && ci !in book.members && Ranked({ci})
      requires ci.left == null && ci.right == null && ci.up == null && ci.nextMulti == null
      modifies this, tree, tree.view.nodes`left, tree.view.nodes`right, tree.view.nodes`nextMulti, ci`up,
               ci`nextMulti, ci`state
      ensures Good() && (old(tree.Valid()) ==> tree.Valid())
      ensures book.logins == LoggedIn(old(book.logins), ci) && book.members == old(book.members) + {ci}
    {
      var primary := tree.Search(ci.id);
      if primary != null {
        LoginFurther(primary, ci);
      } else {
        LoginFirst(ci);
      }
    }

    method LoginFurther(primary: Client, ci: Client)
      requires Good() && primary in tree.view.nodes && primary.id == ci.id && ci !in book.members && Ranked({ci})
      modifies this`book, primary`nextMulti, ci`nextMulti, ci`state
      ensures Good() && book.logins == LoggedIn(old(book.logins), ci) && book.members == old(book.members) + {ci}
    {
      ci.state := Secondary;
      AttachSecondary(primary, ci, tree.view.nodes);
    }

    method LoginFirst(ci: Client)
      requires Good() && ci !in book.members && Ranked({ci})
      requires forall c :: c in tree.view.nodes ==> c.id != ci.id
      requires ci.left == null && ci.right == null && ci.up == null && ci.nextMulti == null
      modifies this, tree, tree.view.nodes`left, tree.view.nodes`right, ci`up, ci`state
      ensures Good() && (old(tree.Valid()) ==> tree.Valid())
      ensures book.logins == LoggedIn(old(book.logins), ci) && book.members == old(book.members) + {ci}
    {
      ghost var heads := tree.view.nodes;
      MarkFirst(ci, heads);
      AddToTree(ci, heads + {ci});
    }

    method MarkFirst(ci: Client, ghost heads: set<Client>)
      requires Chained(heads) && ci !in book.members && Ranked({ci}) && ci.nextMulti == null
      requires forall c :: c in heads ==> c.id != ci.id
      modifies this`book, ci`state
      ensures Chained(heads + {ci}) && book.logins == LoggedIn(old(book.logins), ci)
              && book.members == old(book.members) + {ci}
    {
      ci.state := Connected;
      BookFirst(ci, heads);
    }

    /** Hanging a client in the tree leaves chains and states alone. */
    method AddToTree(ci: Client, ghost heads: set<Client>)
      requires tree.Shape() && ci !in tree.view.nodes && Ranked({ci}) && heads == tree.view.nodes + {ci}
               && Chained(heads)
      requires forall c :: c in tree.view.nodes ==> c.id != ci.id
      requires ci.left == null && ci.right == null && ci.up == null
      modifies tree, tree.view.nodes`left, tree.view.nodes`right, ci`up
      ensures tree.Shape() && (old(tree.Valid()) ==> tree.Valid()) && tree.view.nodes == heads && Chained(heads)
    {
      var added := tree.Add(ci);
    }

    ghost method BookFirst(ci: Client, heads: set<Client>)
      requires Chained(heads) && ci !in book.members && Ranked({ci}) && ci.nextMulti == null && ci.state == Connected
      requires forall c :: c in heads ==> c.id != ci.id
      modifies this`book
      ensures Chained(heads + {ci}) && book.logins == LoggedIn(old(book.logins), ci)
              && book.members == old(book.members) + {ci}
    {
      NotLoggedIn(book.logins, heads, book.members, book.links, ci.id);
      FirstLogin(book.logins, heads, book.members, book.links, ci);
      var r := Links(book.links.next[ci := null], book.links.state[ci := Connected]);
      forall c | c in book.members + {ci}
        ensures Has(c, r)
      {
        assert Has(c, book.links) || c == ci;
      }
      book := Book(LoggedIn(book.logins, ci), book.members + {ci}, r);
    }

    /** client_attach_multi_secondary */
    method AttachSecondary(primary: Client, secondary: Client, ghost heads: set<Client>)
      requires Chained(heads) && primary in heads && primary.id == secondary.id
      requires secondary !in book.members && Ranked({secondary}) && secondary.state == Secondary
      modifies this`book, primary`nextMulti, secondary`nextMulti
      ensures Chained(heads) && book.logins == LoggedIn(old(book.logins), secondary)
              && book.members == old(book.members) + {secondary}
    {
      FurtherLogin(book.logins, heads, book.members, book.links, primary, secondary);
      assert Has(primary, book.links);
      ghost var q := book.links;
      secondary.nextMulti := primary.nextMulti;
      primary.nextMulti := secondary;
      ghost var r := Links(q.next[secondary := q.next[primary]][primary := secondary], q.state[secondary := Secondary]);
      forall c | c in book.members + {secondary}
        ensures Has(c, r)
      {
        assert old(Has(c, q)) || c == secondary;
      }
      book := Book(LoggedIn(book.logins, secondary), book.members + {secondary}, r);
    }

    /** client_list_delete: the client leaves tree and chain, and its successor takes over if it was the primary login.
        With `restoring` set, removal from the tree makes the assignments that client_tree_remove leaves out; without,
        the `up` links stay right if and only if no client with two children was removed from the tree. */
    method Delete(ci: Client, restoring: bool)
      requires Good() && tree.Valid()
      modifies this, tree, tree.view.nodes`left, tree.view.nodes`right, tree.view.nodes`up
      modifies book.members`nextMulti, book.members`state, book.members`left, book.members`right, book.members`up
      ensures Good() && book.logins == LoggedOut(old(book.logins), ci) && book.members == old(book.members) - {ci}
      ensures tree.Valid() <==>
                restoring || old(ci !in tree.view.nodes || ci.nextMulti != null || ci.left == null || ci.right == null)
    {
      ghost var heads := tree.view.nodes;
      var s := tree.Search(ci.id);
      if s == ci {
        if ci.nextMulti != null {
          DeletePrimary(ci);
        } else {
          DeleteLast(ci, restoring);
        }
      } else if s != null {
        DeleteSecondary(ci, s, heads);
      } else {
        NotLoggedIn(book.logins, heads, book.members, book.links, ci.id);
        Forget(ci, heads);
      }
    }

    method DeleteLast(ci: Client, restoring: bool)
      requires Good() && tree.Valid() && ci in tree.view.nodes && ci.nextMulti == null
      modifies this, tree, tree.view.nodes`left, tree.view.nodes`right, tree.view.nodes`up
      ensures Good() && book.logins == LoggedOut(old(book.logins), ci) && book.members == old(book.members) - {ci}
      ensures tree.Valid() <==> restoring || old(ci.left == null || ci.right == null)
    {
      BookLast(ci, tree.view.nodes);
      if restoring {
        tree.RemoveRestoring(ci);
      } else {
        tree.RemoveClient(ci);
      }
    }

    ghost method BookLast(ci: Client, heads: set<Client>)
      requires Chained(heads) && ci in heads && ci.nextMulti == null
      modifies this`book
      ensures Chained(heads - {ci}) && book.logins == LoggedOut(old(book.logins), ci)
              && book.members == old(book.members) - {ci}
    {
      assert Has(ci, book.links);
      LastLogout(book.logins, heads, book.members, book.links, ci);
      book := Book(LoggedOut(book.logins, ci), book.members - {ci}, book.links);
    }

    method DeletePrimary(ci: Client)
      requires Good() && tree.Valid() && ci in tree.view.nodes && ci.nextMulti != null
      modifies this, tree, tree.view.nodes`left, tree.view.nodes`right, tree.view.nodes`up
      modifies book.members`state, book.members`left, book.members`right, book.members`up
      ensures Good() && book.logins == LoggedOut(old(book.logins), ci) && tree.Valid()
              && book.members == old(book.members) - {ci}
    {
      ghost var heads, links := tree.view.nodes, book.links;
      assert Has(ci, links);
      NextLogin(book.logins, heads, book.members, links, ci);
      var next := ci.nextMulti;
      assert Has(next, links);
      tree.ReplaceMulti(ci, next);
      forall c | c in book.members && c != next
        ensures Has(c, links)
      {
        assert old(Has(c, links));
      }
      BookPrimary(ci, next, heads);
    }

    ghost method BookPrimary(ci: Client, next: Client, heads: set<Client>)
      requires heads <= book.members && Chains(book.logins, heads, book.members, book.links) && ci in heads
      requires ci in book.links.next && book.links.next[ci] == next && next in book.members
      requires next in book.links.next && next.nextMulti == book.links.next[next] && next.state == Connected
      requires forall c {:trigger Has(c, book.links)} :: c in book.members && c != next ==> Has(c, book.links)
      modifies this`book
      ensures Chained(heads - {ci} + {next}) && book.logins == LoggedOut(old(book.logins), ci)
              && book.members == old(book.members) - {ci}
    {
      var q := book.links;
      NextLogin(book.logins, heads, book.members, q, ci);
      PrimaryLogout(book.logins, heads, book.members, q, ci);
      var r := q.(state := q.state[next := Connected]);
      forall c | c in book.members
        ensures Has(c, r)
      {
        assert c != next ==> Has(c, q);
      }
      book := Book(LoggedOut(book.logins, ci), book.members - {ci}, r);
    }

    method DeleteSecondary(ci: Client, primary: Client, ghost heads: set<Client>)
      requires Chained(heads) && primary in heads && primary.id == ci.id && primary != ci
      modifies this`book, book.members`nextMulti
      ensures Chained(heads) && book.logins == LoggedOut(old(book.logins), ci)
              && book.members == old(book.members) - {ci}
    {
      var s: Client? := primary;
      ghost var chain, k: nat := book.logins[ci.id], 0;
      assert Chain(ci.id, chain, book.links);
      while s != null
        invariant k <= |chain| && s == (if k < |chain| then chain[k] else null)
        invariant forall i :: 0 <= i <= k && i < |chain| ==> chain[i] != ci
        decreases |chain| - k
      {
        assert Place(ci.id, chain, k, book.links) && Has(s, book.links);
        if s.nextMulti == ci {
          Cut(ci, s, k + 1, heads);
          return;
        }
        s, k := s.nextMulti, k + 1;
      }
      Forget(ci, heads);
    }

    method Cut(ci: Client, s: Client, ghost k: nat, ghost heads: set<Client>)
      requires Chained(heads) && ci.id in book.logins && 0 < k < |book.logins[ci.id]|
      requires book.logins[ci.id][k] == ci && book.logins[ci.id][k - 1] == s
      modifies this`book, s`nextMulti
      ensures Chained(heads) && book.logins == LoggedOut(old(book.logins), ci)
              && book.members == old(book.members) - {ci}
    {
      ghost var q := book.links;
      assert Has(ci, q);
      SecondaryLogout(book.logins, heads, book.members, q, ci, k);
      s.nextMulti := ci.nextMulti;
      ghost var r := q.(next := q.next[s := q.next[ci]]);
      forall c | c in book.members
        ensures Has(c, r)
      {
        assert old(Has(c, q));
      }
      book := Book(LoggedOut(book.logins, ci), book.members - {ci}, r);
    }

    /** The record of a client that is not logged in is freed. */
    ghost method Forget(ci: Client, heads: set<Client>)
      requires Chained(heads) && ci !in heads && (ci.id in book.logins ==> ci !in book.logins[ci.id])
      modifies this`book
      ensures Chained(heads) && book.logins == LoggedOut(old(book.logins), ci)
              && book.members == old(book.members) - {ci}
    {
      NoLogout(book.logins, heads, book.members, book.links, ci);
      book := book.(members := book.members - {ci});
    }
  }

  /** A run of the node: users log in, and connections end, in any order. */
  datatype Op = LogIn(id: Id) | LogOut(connection: nat)

  /** The identifiers under which connections were made, in order. */
  ghost function Users(ops: seq<Op>): seq<Id> {
    if ops == [] then []
    else Users(ops[..|ops| - 1]) + if ops[|ops| - 1].LogIn? then [ops[|ops| - 1].id] else []
  }

  /** The clients cs are different connections, made under these identifiers. */
  ghost predicate MadeBy(cs: seq<Client>, ids: seq<Id>) {
    && |cs| == |ids| && Distinct(cs)
    && forall j :: 0 <= j < |cs| ==> cs[j].id == ids[j]
  }

  lemma {:induction false} OneMoreMade(cs: seq<Client>, ids: seq<Id>, c: Client)
    requires MadeBy(cs, ids) && c !in cs
    ensures MadeBy(cs + [c], ids + [c.id])
  {
    OneBehind(cs, c);
  }

  /** Who is logged in after a run whose connections were the clients cs. */
  ghost function Effect(ops: seq<Op>, cs: seq<Client>): LoginMap {
    if ops == [] then map[]
    else
      var before := ops[..|ops| - 1];
      Followed(Effect(before, cs), |Users(before)|, ops[|ops| - 1], cs)
  }

  /** The next operation of a run, with j connections made before it. */
  ghost function Followed(m: LoginMap, j: nat, op: Op, cs: seq<Client>): LoginMap {
    match op
    case LogIn(_) => if j < |cs| then LoggedIn(m, cs[j]) else m
    case LogOut(k) => if k < j && k < |cs| then LoggedOut(m, cs[k]) else m
  }

  /** The j-th connection has been made and not ended since. */
  ghost predicate Remains(ops: seq<Op>, j: nat) {
    ops != [] &&
    var before, op := ops[..|ops| - 1], ops[|ops| - 1];
    match op
    case LogIn(_) => j == |Users(before)| || Remains(before, j)
    case LogOut(k) => Remains(before, j) && j != k
  }

  ghost predicate Online(m: LoginMap, c: Client) {
    c.id in m && c in m[c.id]
  }

  /** Every client is listed under its own identifier and once, and is one of the first n. */
  ghost predicate Orderly(m: LoginMap, cs: seq<Client>, n: nat)
    requires n <= |cs|
  {
    forall id {:trigger OrderlyAt(id, m[id], cs[..n])} :: id in m ==> OrderlyAt(id, m[id], cs[..n])
  }

  ghost predicate OrderlyAt(id: Id, s: seq<Client>, cs: seq<Client>) {
    s != [] && Distinct(s) && forall k :: 0 <= k < |s| ==> s[k].id == id && s[k] in cs
  }

  lemma {:induction false} OrderlyLogin(m: LoginMap, cs: seq<Client>, n: nat)
    requires n < |cs| && Orderly(m, cs, n) && Distinct(cs)
    ensures Orderly(LoggedIn(m, cs[n]), cs, n + 1)
    ensures forall c :: Online(LoggedIn(m, cs[n]), c) <==> Online(m, c) || c == cs[n]
  {
    var c, m' := cs[n], LoggedIn(m, cs[n]);
    assert cs[..n + 1] == cs[..n] + [c];
    OnlyAt(cs, n);
    assert c !in cs[..n];
    if c.id in m {
      var s := m[c.id];
      assert OrderlyAt(c.id, s, cs[..n]);
      assert m'[c.id] == [s[0], c] + s[1..];
      assert s == [s[0]] + s[1..];
      SecondDistinct(s, c);
    } else {
      OneBefore(c, []);
      assert [c] + [] == [c];
    }
    forall id | id in m'
      ensures OrderlyAt(id, m'[id], cs[..n + 1])
    {
      assert id in m ==> OrderlyAt(id, m[id], cs[..n]);
    }
  }

  lemma {:induction false} SecondDistinct(s: seq<Client>, c: Client)
    requires s != [] && Distinct(s) && c !in s
    ensures Distinct([s[0], c] + s[1..])
  {
    DistinctTail(s);
    OnlyAt(s, 0);
    OneBefore(c, s[1..]);
    OneBefore(s[0], [c] + s[1..]);
    assert [s[0]] + ([c] + s[1..]) == [s[0], c] + s[1..];
  }

  lemma {:induction false} OrderlyLogout(m: LoginMap, cs: seq<Client>, n: nat, c: Client)
    requires n <= |cs| && Orderly(m, cs, n)
    ensures Orderly(LoggedOut(m, c), cs, n)
    ensures forall d :: Online(LoggedOut(m, c), d) <==> Online(m, d) && d != c
  {
    var m' := LoggedOut(m, c);
    if c.id in m {
      assert OrderlyAt(c.id, m[c.id], cs[..n]);
      WithoutFacts(m[c.id], c);
    }
    forall id | id in m'
      ensures OrderlyAt(id, m'[id], cs[..n])
    {
      assert OrderlyAt(id, m[id], cs[..n]);
      if id == c.id {
        OrderlyWithout(id, m[id], cs[..n], c);
      }
    }
  }

  lemma {:induction false} OrderlyWithout(id: Id, s: seq<Client>, cs: seq<Client>, c: Client)
    requires OrderlyAt(id, s, cs) && Without(s, c) != []
    ensures OrderlyAt(id, Without(s, c), cs)
  {
    WithoutFacts(s, c);
    var s' := Without(s, c);
    forall k | 0 <= k < |s'|
      ensures s'[k].id == id && s'[k] in cs
    {
      assert s'[k] in s;
    }
  }

  lemma {:induction false} WithoutFacts(s: seq<Client>, c: Client)
    requires Distinct(s)
    ensures Distinct(Without(s, c)) && forall d :: d in Without(s, c) <==> d in s && d != c
    ensures forall k :: 0 <= k < |Without(s, c)| ==> Without(s, c)[k] in s
  {
    if c in s {
      var k :| 0 <= k < |s| && s[k] == c;
      OnlyAt(s, k);
      WithoutAt(s, c, k);
      OneOut(s, k);
    } else {
      WithoutNone(s, c);
    }
  }

  /** Exactly the connections that were made and not ended since are logged in. */
  ghost predicate AllRemain(m: LoginMap, cs: seq<Client>, ops: seq<Op>) {
    forall j :: 0 <= j < |cs| ==> (Online(m, cs[j]) <==> Remains(ops, j))
  }

  lemma {:induction false} RemainExactly(ops: seq<Op>, cs: seq<Client>)
    requires Distinct(cs) && |Users(ops)| <= |cs|
    ensures Orderly(Effect(ops, cs), cs, |Users(ops)|)
    ensures AllRemain(Effect(ops, cs), cs, ops)
  {
    if ops != [] {
      var before, op := ops[..|ops| - 1], ops[|ops| - 1];
      RemainExactly(before, cs);
      var m, n := Effect(before, cs), |Users(before)|;
      match op {
        case LogIn(_) => OrderlyLogin(m, cs, n);
        case LogOut(k) =>
          if k < n {
            OrderlyLogout(m, cs, n, cs[k]);
          } else {
            NotMadeYet(before, k);
          }
      }
      forall j | 0 <= j < |cs|
        ensures Online(Effect(ops, cs), cs[j]) <==> Remains(ops, j)
      {
        OnlyAt(cs, j);
        assert Online(m, cs[j]) <==> Remains(before, j);
      }
    }
  }

  lemma {:induction false} NotMadeYet(ops: seq<Op>, j: nat)
    requires j >= |Users(ops)|
    ensures !Remains(ops, j)
  {
    if ops != [] {
      NotMadeYet(ops[..|ops| - 1], j);
    }
  }

  lemma {:induction false} LaterConnection(ops: seq<Op>, cs: seq<Client>, c: Client)
    requires |Users(ops)| <= |cs|
    ensures Effect(ops, cs + [c]) == Effect(ops, cs)
  {
    if ops != [] {
      LaterConnection(ops[..|ops| - 1], cs, c);
    }
  }

  lemma {:induction false} OneMore(ops: seq<Op>, i: nat, cs: seq<Client>)
    requires i < |ops|
    ensures Users(ops[..i + 1]) == Users(ops[..i]) + if ops[i].LogIn? then [ops[i].id] else []
    ensures Effect(ops[..i + 1], cs) == Followed(Effect(ops[..i], cs), |Users(ops[..i])|, ops[i], cs)
  {
    assert ops[..i + 1][..i] == ops[..i];
  }

  /** The next operation makes the next connection, if it makes one, and otherwise has the effect it has. */
  lemma {:induction false} Continued(ops: seq<Op>, i: nat, cs: seq<Client>, cs': seq<Client>)
    requires i < |ops| && MadeBy(cs, Users(ops[..i]))
    requires ops[i].LogOut? ==> cs' == cs
    requires ops[i].LogIn? ==>
             |cs'| == |cs| + 1 && cs' == cs + [cs'[|cs|]] && cs'[|cs|].id == ops[i].id && cs'[|cs|] !in cs
    ensures MadeBy(cs', Users(ops[..i + 1]))
    ensures Effect(ops[..i + 1], cs') == Followed(Effect(ops[..i], cs), |cs|, ops[i], cs')
  {
    if ops[i].LogIn? {
      LaterConnection(ops[..i], cs, cs'[|cs|]);
      OneMoreMade(cs, Users(ops[..i]), cs'[|cs|]);
    }
    OneMore(ops, i, cs');
  }

  /** The operation removes a client with two children from the tree: the last login of its identifier ends. */
  ghost predicate RemovesBetween(l: Logins, cs: seq<Client>, op: Op)
    reads l, l.tree, cs
  {
    && op.LogOut? && op.connection < |cs|
    && var ci := cs[op.connection];
    ci in l.tree.view.nodes && ci.nextMulti == null && ci.left != null && ci.right != null
  }

  /** From an empty node, with the `up` links restored on removal, every run keeps tree, chains and states right, and
      those logged in are exactly those the run leaves: the j-th connection was made under the identifier of the j-th
      login, and no two connections are the same.  As the code is written, the run is followed up to the first logout
      that removes a client with two children from the tree: the rest is right up to there, and this logout is, by
      `Logins.Delete`, exactly what leaves the `up` links wrong. */
  method Replay(ops: seq<Op>, restoring: bool) returns (l: Logins, connections: seq<Client>, done: nat)
    ensures l.Good() && l.tree.Valid() && done <= |ops|
    ensures MadeBy(connections, Users(ops[..done])) && l.book.logins == Effect(ops[..done], connections)
    ensures AllRemain(l.book.logins, connections, ops[..done])
    ensures done == |ops| || (!restoring && RemovesBetween(l, connections, ops[done]))
  {
    l := new Logins();
    connections, done := [], 0;
    while done < |ops|
      invariant fresh(l) && fresh(l.tree) && l.Good() && l.tree.Valid() && done <= |ops|
      invariant forall c :: c in l.book.members ==> fresh(c)
      invariant MadeBy(connections, Users(ops[..done])) && l.book.logins == Effect(ops[..done], connections)
      decreases |ops| - done
    {
      var between := IsBetween(l, connections, ops[done]);
      if between && !restoring {
        break;
      }
      ghost var before := connections;
      connections := Perform(l, ops[done], connections, restoring);
      Continued(ops, done, before, connections);
      done := done + 1;
    }
    RemainExactly(ops[..done], connections);
  }

  method IsBetween(l: Logins, cs: seq<Client>, op: Op) returns (between: bool)
    requires l.Good() && l.tree.Valid()
    ensures between <==> RemovesBetween(l, cs, op)
  {
    if op.LogIn? || op.connection >= |cs| {
      return false;
    }
    var ci := cs[op.connection];
    var s := l.tree.Search(ci.id);
    between := s == ci && ci.nextMulti == null && ci.left != null && ci.right != null;
  }

  method Perform(l: Logins, op: Op, cs: seq<Client>, restoring: bool) returns (cs': seq<Client>)
    requires l.Good() && l.tree.Valid() && (restoring || !RemovesBetween(l, cs, op))
    modifies l, l.tree, l.tree.view.nodes, l.book.members
    ensures l.Good() && l.tree.Valid()
    ensures op.LogOut? ==> cs' == cs
    ensures op.LogIn? ==> |cs'| == |cs| + 1 && cs' == cs + [cs'[|cs|]] && cs'[|cs|].id == op.id && fresh(cs'[|cs|])
    ensures l.book.logins == Followed(old(l.book.logins), |cs|, op, cs')
    ensures forall c :: c in l.book.members ==> c in old(l.book.members) || fresh(c)
  {
    cs' := cs;
    match op
    case LogIn(id) =>
      var c := Connect(l, id);
      cs' := cs + [c];
    case LogOut(k) =>
      if k < |cs| {
        l.Delete(cs[k], restoring);
      }
  }

  method Connect(l: Logins, id: Id) returns (c: Client)
    requires l.Good()
    modifies l, l.tree, l.tree.view.nodes`left, l.tree.view.nodes`right, l.tree.view.nodes`nextMulti
    ensures fresh(c) && c.id == id && l.Good() && (old(l.tree.Valid()) ==> l.tree.Valid())
    ensures l.book.logins == LoggedIn(old(l.book.logins), c) && l.book.members == old(l.book.members) + {c}
  {
    c := new Client(id);
    l.Login(c);
  }
}
