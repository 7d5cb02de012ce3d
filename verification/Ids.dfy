/** User identifiers: SHA-224 digests, ordered by memcmp. */
module Ids {
  import opened Memory

  const ID_SIZE: nat := 28

  type Id = s: seq<Byte> | |s| == ID_SIZE witness seq(ID_SIZE, _ => 0)

  /** The digest as a number, first octet highest. */
  ghost function Rank(s: seq<Byte>): nat {
    if s == [] then 0 else 256 * Rank(s[..|s| - 1]) + s[|s| - 1]
  }

  /** memcmp(a, b, PICA_ID_SIZE) */
  method Memcmp(a: Id, b: Id) returns (cmp: int)
    ensures cmp < 0 <==> Rank(a) < Rank(b)
    ensures cmp == 0 <==> a == b
    ensures cmp == 0 <==> Rank(a) == Rank(b)
  {
    var i := 0;
    while i < ID_SIZE && a[i] == b[i]
      invariant i <= ID_SIZE && a[..i] == b[..i]
    {
      assert a[..i + 1] == a[..i] + [a[i]] && b[..i + 1] == b[..i] + [b[i]];
      i := i + 1;
    }
    assert a[..ID_SIZE] == a && b[..ID_SIZE] == b;
    if i == ID_SIZE {
      return 0;
    }
    if a[i] < b[i] {
      FirstDifference(a, b, i, ID_SIZE);
    } else {
      FirstDifference(b, a, i, ID_SIZE);
    }
    return (a[i] as int) - (b[i] as int);
  }

  /** The first octet in which two strings differ decides their order, whatever follows. */
  lemma {:induction false} FirstDifference(a: seq<Byte>, b: seq<Byte>, i: nat, n: nat)
    requires i < n <= |a| && n <= |b|
    requires a[..i] == b[..i] && a[i] < b[i]
    ensures Rank(a[..n]) < Rank(b[..n])
    decreases n
  {
    assert a[..n][..n - 1] == a[..n - 1] && b[..n][..n - 1] == b[..n - 1];
    if n > i + 1 {
      FirstDifference(a, b, i, n - 1);
    }
  }

  lemma {:induction false} SameRank(a: seq<Byte>, b: seq<Byte>)
    requires |a| == |b| && Rank(a) == Rank(b)
    ensures a == b
    decreases |a|
  {
    if a != [] {
      var n := |a| - 1;
      SameRank(a[..n], b[..n]);
      assert a == a[..n] + [a[n]] && b == b[..n] + [b[n]];
    }
  }
}
