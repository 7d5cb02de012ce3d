/** Bytes, and the overlapping copy (`memmove` towards the start of a buffer) that every buffer of the
    program uses to drop what it has consumed. */
module Memory {

  type Byte = b: int | 0 <= b < 256

  datatype Option<+T> = None | Some(value: T)

  /** No element occurs twice. */
  ghost predicate Distinct<T>(s: seq<T>) {
    forall i, j {:trigger Differ(s, i, j)} :: 0 <= i < j < |s| ==> Differ(s, i, j)
  }

  ghost predicate Differ<T>(s: seq<T>, i: int, j: int)
    requires 0 <= i < j < |s|
  {
    s[i] != s[j]
  }

  /** The element at one position is nowhere else. */
  lemma {:induction false} OnlyAt<T>(s: seq<T>, k: nat)
    requires Distinct(s) && k < |s|
    ensures s[k] !in s[..k] && s[k] !in s[k + 1..]
    ensures forall i :: 0 <= i < |s| && i != k ==> s[i] != s[k]
  {
    forall i | 0 <= i < |s| && i != k
      ensures s[i] != s[k]
    {
      assert if i < k then Differ(s, i, k) else Differ(s, k, i);
    }
  }

  lemma {:induction false} OneBefore<T>(x: T, s: seq<T>)
    requires Distinct(s) && x !in s
    ensures Distinct([x] + s)
  {
    var t := [x] + s;
    forall i, j | 0 <= i < j < |t|
      ensures Differ(t, i, j)
    {
      assert i > 0 ==> Differ(s, i - 1, j - 1);
    }
  }

  lemma {:induction false} OneBehind<T>(s: seq<T>, x: T)
    requires Distinct(s) && x !in s
    ensures Distinct(s + [x])
  {
    var t := s + [x];
    forall i, j | 0 <= i < j < |t|
      ensures Differ(t, i, j)
    {
      assert j < |s| ==> Differ(s, i, j);
    }
  }

  /** Taking an element out leaves the others distinct. */
  lemma {:induction false} OneOut<T>(s: seq<T>, k: nat)
    requires Distinct(s) && k < |s|
    ensures Distinct(s[..k] + s[k + 1..])
  {
    var t := s[..k] + s[k + 1..];
    forall i, j | 0 <= i < j < |t|
      ensures Differ(t, i, j)
    {
      assert Differ(s, if i < k then i else i + 1, if j < k then j else j + 1);
    }
  }

  lemma {:induction false} DistinctTail<T>(s: seq<T>)
    requires Distinct(s) && s != []
    ensures Distinct(s[1..])
  {
    OneOut(s, 0);
    assert s[..0] + s[1..] == s[1..];
  }

  /** memmove(buf, buf + from, len) */
  method MoveDown(buf: array<Byte>, from: nat, len: nat)
    requires from + len <= buf.Length
    modifies buf
    ensures forall j :: 0 <= j < len ==> buf[j] == old(buf[from + j])
    ensures forall j :: len <= j < buf.Length ==> buf[j] == old(buf[j])
  {
    var k := 0;
    while k < len
      invariant k <= len
      invariant forall j :: 0 <= j < k ==> buf[j] == old(buf[from + j])
      invariant forall j :: k <= j < buf.Length ==> buf[j] == old(buf[j])
    {
      buf[k] := buf[from + k];
      k := k + 1;
    }
  }

  /** memcpy(buf + at, src, |src|) */
  method CopyIn(buf: array<Byte>, at: nat, src: seq<Byte>)
    requires at + |src| <= buf.Length
    modifies buf
    ensures forall j :: 0 <= j < |src| ==> buf[at + j] == src[j]
    ensures forall j :: 0 <= j < buf.Length && !(at <= j < at + |src|) ==> buf[j] == old(buf[j])
  {
    var k := 0;
    while k < |src|
      invariant k <= |src|
      invariant forall j :: 0 <= j < k ==> buf[at + j] == src[j]
      invariant forall j :: 0 <= j < buf.Length && !(at <= j < at + k) ==> buf[j] == old(buf[j])
    {
      buf[at + k] := src[k];
      k := k + 1;
    }
  }

  /** memcpy to the end of what a buffer holds */
  method CopyBehind(buf: array<Byte>, at: nat, src: seq<Byte>)
    requires at + |src| <= buf.Length
    modifies buf
    ensures buf[..at + |src|] == old(buf[..at]) + src
  {
    CopyIn(buf, at, src);
  }

  /** realloc(buf, newLen) for a longer buffer: the old contents are kept. */
  method Grow(buf: array<Byte>, newLen: nat) returns (r: array<Byte>)
    requires buf.Length <= newLen
    ensures fresh(r) && r.Length == newLen
    ensures forall j :: 0 <= j < buf.Length ==> r[j] == buf[j]
  {
    r := new Byte[newLen];
    var k := 0;
    while k < buf.Length
      invariant k <= buf.Length
      invariant forall j :: 0 <= j < k ==> r[j] == buf[j]
    {
      r[k] := buf[k];
      k := k + 1;
    }
  }
}
