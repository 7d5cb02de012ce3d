/** The list of records that wait for a node (nodewait_list_addnew, nodewait_list_delete in PICA_nodewait.c) and the
    pass of process_nodewait over it, which deletes records from the list it is walking. */
module WaitList {
  import opened Memory
  import opened NodeWait

  class Record {
    var next: Record?
    var state: NodeWait.State

    constructor ()
      ensures next == null && state == Resolving
    {
      next, state := null, Resolving;
    }
  }

  /** The record at a position, or null behind the last. */
  ghost function Cursor(s: seq<Record>, k: nat): Record? {
    if k < |s| then s[k] else null
  }

  /** Each record's successor on the list is its `next`. */
  ghost predicate Linked(s: seq<Record>)
    reads s`next
  {
    forall k {:trigger LinkAt(s, k)} :: 0 <= k < |s| ==> LinkAt(s, k)
  }

  ghost predicate LinkAt(s: seq<Record>, k: int)
    requires 0 <= k < |s|
    reads s`next
  {
    s[k].next == Cursor(s, k + 1)
  }

  /** The records of s that are not in `gone`, in their order. */
  ghost function Keep(s: seq<Record>, gone: set<Record>): seq<Record> {
    if s == [] then []
    else if s[0] in gone then Keep(s[1..], gone)
    else [s[0]] + Keep(s[1..], gone)
  }

  lemma {:induction false} KeepAppend(a: seq<Record>, b: seq<Record>, gone: set<Record>)
    ensures Keep(a + b, gone) == Keep(a, gone) + Keep(b, gone)
  {
    if a == [] {
      assert a + b == b;
    } else {
      assert (a + b)[0] == a[0] && (a + b)[1..] == a[1..] + b;
      KeepAppend(a[1..], b, gone);
    }
  }

  lemma {:induction false} KeepAll(s: seq<Record>, gone: set<Record>)
    requires forall x :: x in s ==> x !in gone
    ensures Keep(s, gone) == s
  {
    if s != [] {
      KeepAll(s[1..], gone);
    }
  }

  /** Deleting one record from a list without repetitions. */
  lemma {:induction false} KeepAt(s: seq<Record>, k: nat)
    requires k < |s| && Distinct(s)
    ensures Keep(s, {s[k]}) == s[..k] + s[k + 1..]
  {
    OnlyAt(s, k);
    assert s == s[..k] + ([s[k]] + s[k + 1..]);
    KeepAppend(s[..k], [s[k]] + s[k + 1..], {s[k]});
    KeepAll(s[..k], {s[k]});
    KeepAll(s[k + 1..], {s[k]});
    assert ([s[k]] + s[k + 1..])[1..] == s[k + 1..];
  }

  ghost function DoomedOf(s: seq<Record>, skip: set<Record>): set<Record>
    reads s
  {
    set x | x in s && Doomed(x.state, x in skip)
  }

  ghost function Numbers(s: seq<Record>, id: map<Record, Rec>): seq<Rec>
    requires forall x :: x in s ==> x in id
  {
    if s == [] then [] else [id[s[0]]] + Numbers(s[1..], id)
  }

  lemma {:induction false} KeepSubset(s: seq<Record>, gone: set<Record>)
    ensures forall x :: x in Keep(s, gone) ==> x in s
  {
    if s != [] {
      KeepSubset(s[1..], gone);
    }
  }

  /** The records a pass of `NodeWait` keeps are those `Process` keeps. */
  lemma {:induction false} SameKept(s: seq<Record>, id: map<Record, Rec>, state: map<Rec, NodeWait.State>,
                                    skip: set<Rec>, gone: set<Record>)
    requires forall x :: x in s ==> x in id && id[x] in state && (x in gone <==> Doomed(state[id[x]], id[x] in skip))
    ensures (forall r :: r in Numbers(s, id) ==> r in state) && forall x :: x in Keep(s, gone) ==> x in id
    ensures Kept(Numbers(s, id), state, skip) == Numbers(Keep(s, gone), id)
  {
    KeepSubset(s, gone);
    if s != [] {
      SameKept(s[1..], id, state, skip, gone);
      assert Numbers(s, id)[1..] == Numbers(s[1..], id);
    }
  }

  /** The list during a pass: what was kept before the cursor, and all from the cursor on. */
  ghost predicate Reached(s: seq<Record>, was: seq<Record>, k: int, gone: set<Record>) {
    0 <= k <= |was| && s == Keep(was[..k], gone) + was[k..]
  }

  lemma {:induction false} StartReached(was: seq<Record>, gone: set<Record>)
    ensures Reached(was, was, 0, gone)
  {
  }

  lemma {:induction false} EndReached(s: seq<Record>, was: seq<Record>, k: nat, gone: set<Record>)
    requires k <= |was| && Reached(s, was, k, gone) && Cursor(was, k) == null
    ensures k == |was| && s == Keep(was, gone)
  {
    assert was[..|was|] == was;
  }

  /** The pass has kept the right records before the cursor. */
  lemma {:induction false} KeepStep(was: seq<Record>, k: nat, gone: set<Record>)
    requires k < |was| && Distinct(was) && Distinct(Keep(was[..k], gone) + was[k..])
    ensures was[k] !in gone ==> Keep(was[..k + 1], gone) + was[k + 1..] == Keep(was[..k], gone) + was[k..]
    ensures was[k] in gone ==>
            Keep(was[..k + 1], gone) + was[k + 1..] == Keep(Keep(was[..k], gone) + was[k..], {was[k]})
  {
    assert was[..k + 1] == was[..k] + [was[k]];
    KeepAppend(was[..k], [was[k]], gone);
    assert [was[k]][1..] == [];
    var done := Keep(was[..k], gone);
    var now := done + was[k..];
    assert now[|done|] == was[k];
    if was[k] in gone {
      KeepAt(now, |done|);
      assert now[..|done|] == done && now[|done| + 1..] == was[k + 1..];
    } else {
      assert was[k..] == [was[k]] + was[k + 1..];
    }
  }

  class NodeWaitList {
    var head: Record?
    ghost var items: seq<Record>
    ghost var repr: set<Record>

    ghost predicate Valid()
      reads this, items`next
    {
      && (forall i :: 0 <= i < |items| ==> items[i] in repr)
      && head == Cursor(items, 0) && Distinct(items) && Linked(items)
    }

    constructor ()
      ensures Valid() && items == [] && repr == {}
    {
      head, items, repr := null, [], {};
    }

    /** nodewait_list_addnew */
    method AddNew(nw: Record)
      requires Valid() && nw !in items
      modifies this, nw`next
      ensures Valid() && items == [nw] + old(items) && repr == old(repr) + {nw}
    {
      nw.next := head;
      head := nw;
      ghost var was := items;
      OneBefore(nw, items);
      items, repr := [nw] + items, repr + {nw};
      forall k | 0 <= k < |items|
        ensures LinkAt(items, k)
      {
        assert k > 0 ==> old(LinkAt(was, k - 1));
      }
    }

    /** nodewait_list_delete: a record that is not on the list is ignored. */
    method Delete(nw: Record)
      requires Valid()
      modifies this, repr`next
      ensures Valid() && items == Keep(old(items), {nw}) && repr == old(repr)
    {
      var before: Record?, p := null, head;
      ghost var k := 0;
      while p != null
        invariant 0 <= k <= |items| && p == Cursor(items, k)
        invariant before == (if k == 0 then null else items[k - 1])
        invariant forall i :: 0 <= i < k ==> items[i] != nw
        decreases |items| - k
      {
        assert p == items[k] && LinkAt(items, k);
        if p == nw {
          Unlink(before, nw, k);
          return;
        }
        before, p, k := p, p.next, k + 1;
      }
      KeepAll(items, {nw});
    }

    /** *pp = nw->next */
    method Unlink(before: Record?, nw: Record, ghost k: nat)
      requires Valid() && k < |items| && items[k] == nw && before == (if k == 0 then null else items[k - 1])
      modifies this, repr`next
      ensures Valid() && items == Keep(old(items), {nw}) && repr == old(repr)
    {
      ghost var was := items;
      assert LinkAt(was, k);
      if before == null {
        head := nw.next;
      } else {
        before.next := nw.next;
      }
      KeepAt(was, k);
      OneOut(was, k);
      if k > 0 {
        OnlyAt(was, k - 1);
      }
      items := was[..k] + was[k + 1..];
      assert forall j :: 0 <= j < |items| ==> items[j] == was[if j < k then j else j + 1];
      forall j | 0 <= j < |items|
        ensures LinkAt(items, j)
      {
        assert old(LinkAt(was, if j < k then j else j + 1));
      }
    }

    /** process_nodewait: every record is visited once, in order; exactly the doomed ones leave the list, and every
        resolved one that stays is connecting. */
    method Process(skip: set<Record>)
      requires Valid()
      modifies this, repr
      ensures Valid() && items == Keep(old(items), old(DoomedOf(items, skip)))
      ensures forall i :: 0 <= i < |old(items)| ==>
              old(items)[i].state == After(old(items[i].state), old(items)[i] in skip)
    {
      var nw := head;
      ghost var was, gone, k := items, DoomedOf(items, skip), 0;
      StartReached(was, gone);
      while nw != null
        invariant 0 <= k <= |was| && nw == Cursor(was, k) && Valid() && repr == old(repr)
        invariant Reached(items, was, k, gone) && forall i :: 0 <= i < |was| ==> was[i] in repr
        invariant forall i :: 0 <= i < k ==> was[i].state == After(old(was[i].state), was[i] in skip)
        invariant forall i :: k <= i < |was| ==> was[i].state == old(was[i].state)
        invariant forall i :: 0 <= i < |was| ==> (was[i] in gone <==> Doomed(old(was[i].state), was[i] in skip))
        decreases |was| - k
      {
        OnlyAt(was, k);
        nw := Pass(nw, nw in skip, was, k, gone);
        k := k + 1;
      }
      EndReached(items, was, k, gone);
    }

    /** One round of the loop. */
    method Pass(nw: Record, skipped: bool, ghost was: seq<Record>, ghost k: nat, ghost gone: set<Record>)
      returns (next: Record?)
      requires Valid() && k < |was| && nw == was[k] && Distinct(was)
      requires Reached(items, was, k, gone) && (nw in gone <==> Doomed(nw.state, skipped))
      modifies this, repr`next, nw`state
      ensures Valid() && Reached(items, was, k + 1, gone)
      ensures next == Cursor(was, k + 1) && nw.state == After(old(nw.state), skipped)
      ensures repr == old(repr)
    {
      KeepStep(was, k, gone);
      NextOnList(was, k, gone);
      var kill := Visit(nw, skipped);
      next := nw.next;
      if kill {
        Delete(nw);
      }
    }

    /** The switch on the state of one record. */
    method Visit(nw: Record, skipped: bool) returns (kill: bool)
      modifies nw`state
      ensures kill <==> Doomed(old(nw.state), skipped)
      ensures nw.state == After(old(nw.state), skipped)
    {
      match nw.state
      case Resolved =>
        if !skipped {
          nw.state := Connecting;
        }
        kill := skipped;
      case Connected => kill := true;
      case ResolvingFailed => kill := true;
      case ConnectFailed => kill := true;
      case _ => kill := false;
    }

    /** The record after the cursor, found through the cursor's own `next`. */
    lemma {:induction false} NextOnList(was: seq<Record>, k: nat, gone: set<Record>)
      requires Valid() && k < |was| && items == Keep(was[..k], gone) + was[k..]
      ensures was[k] in items && was[k].next == Cursor(was, k + 1)
    {
      var j := |Keep(was[..k], gone)|;
      assert items[j] == was[k] && LinkAt(items, j);
      assert items[j + 1..] == was[k + 1..];
    }
  }
}
