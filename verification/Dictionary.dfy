/** The dictionary of the configuration reader (iniparser/src/dictionary.c): three parallel arrays of keys, values and
    hashes, scanned from the start, filled at the first empty slot from `n` on.

    It stands for a map from strings to optional strings: a key can be present with no value. */
module Dictionary {
  import opened Memory

  const DICTMINSZ: nat := 128

  /** A character of a C string. */
  type Char = c: int | 0 < c < 256 witness 1

  type Str = seq<Char>

  type Slots = seq<Option<Str>>

  // ---------------------------------------------------------------------------------------------------
  // The hash
  // ---------------------------------------------------------------------------------------------------

  /** A character converted to unsigned: the type char is signed. */
  function Widened(c: Char): bv32 {
    (if c < 128 then c else c + 0xFFFF_FF00) as bv32
  }

  function Mix(h: bv32, c: Char): bv32 {
    var h1 := h + Widened(c);
    var h2 := h1 + (h1 << 10);
    h2 ^ (h2 >> 6)
  }

  function MixAll(s: Str): bv32 {
    if s == [] then 0 else Mix(MixAll(s[..|s| - 1]), s[|s| - 1])
  }

  function Spread(h: bv32): bv32 {
    var h1 := h + (h << 3);
    var h2 := h1 ^ (h1 >> 11);
    h2 + (h2 << 15)
  }

  function Hash(s: Str): bv32 {
    Spread(MixAll(s))
  }

  /** The hash is the one-at-a-time hash: its published value for the string "a", and one for the string "ab". */
  lemma {:induction false} HashValues()
    ensures Hash([97]) == 0xca2e_9442 && Hash([97, 98]) == 0x45e6_1e58
  {
    assert [97][..0] == [] && [97, 98][..1] == [97];
    assert Widened(97) == 97 && Widened(98) == 98;
  }

  /** dictionary_hash */
  method DictionaryHash(key: Str) returns (hash: bv32)
    ensures hash == Hash(key)
  {
    hash := 0;
    for i := 0 to |key|
      invariant hash == MixAll(key[..i])
    {
      assert key[..i + 1][..i] == key[..i];
      hash := Mix(hash, key[i]);
    }
    assert key[..|key|] == key;
    hash := Spread(hash);
  }

  // ---------------------------------------------------------------------------------------------------
  // What the slots stand for
  // ---------------------------------------------------------------------------------------------------

  type Meaning = map<Str, Option<Str>>

  /** The number of occupied slots. */
  ghost function Count(keys: Slots): nat {
    if keys == [] then 0 else Count(keys[..|keys| - 1]) + if keys[|keys| - 1].Some? then 1 else 0
  }

  /** No key occupies two slots. */
  ghost predicate KeysDistinct(keys: Slots) {
    forall i, j :: 0 <= i < j < |keys| && keys[i].Some? ==> keys[i] != keys[j]
  }

  ghost predicate SlotOk(keys: Slots, vals: Slots, hashes: seq<bv32>, m: Meaning, i: int)
    requires 0 <= i < |keys| == |vals| == |hashes|
  {
    keys[i].Some? ==> keys[i].value in m && m[keys[i].value] == vals[i] && hashes[i] == Hash(keys[i].value)
  }

  /** The slots hold exactly the pairs of the map, and the hashes are those of the keys. */
  ghost predicate Represents(keys: Slots, vals: Slots, hashes: seq<bv32>, m: Meaning) {
    && |keys| == |vals| == |hashes| && KeysDistinct(keys)
    && (forall i {:trigger SlotOk(keys, vals, hashes, m, i)} :: 0 <= i < |keys| ==> SlotOk(keys, vals, hashes, m, i))
    && (forall k :: k in m ==> Some(k) in keys)
  }

  lemma {:induction false} CountBound(keys: Slots)
    ensures Count(keys) <= |keys|
    ensures Count(keys) < |keys| <==> None in keys
  {
    if keys != [] {
      CountBound(keys[..|keys| - 1]);
      assert keys == keys[..|keys| - 1] + [keys[|keys| - 1]];
    }
  }

  lemma {:induction false} CountZero(keys: Slots, i: nat)
    requires i < |keys| && keys[i].Some?
    ensures Count(keys) > 0
  {
    if i < |keys| - 1 {
      CountZero(keys[..|keys| - 1], i);
    }
  }

  /** Filling or emptying one slot changes the number by one. */
  lemma {:induction false} CountUpdate(keys: Slots, i: nat, v: Option<Str>)
    requires i < |keys|
    ensures Count(keys[i := v]) == Count(keys) - (if keys[i].Some? then 1 else 0) + (if v.Some? then 1 else 0)
  {
    var last := |keys| - 1;
    if i == last {
      assert keys[i := v][..last] == keys[..last];
    } else {
      assert keys[i := v][..last] == keys[..last][i := v];
      CountUpdate(keys[..last], i, v);
    }
  }

  /** Empty slots behind the others do not count. */
  lemma {:induction false} CountEmpty(keys: Slots, more: Slots)
    requires forall i :: 0 <= i < |more| ==> more[i].None?
    ensures Count(keys + more) == Count(keys)
  {
    if more == [] {
      assert keys + more == keys;
    } else {
      var last := |more| - 1;
      assert (keys + more)[..|keys| + last] == keys + more[..last];
      CountEmpty(keys, more[..last]);
    }
  }

  /** The number of occupied slots is the number of keys of the map. */
  lemma {:induction false} CountIsSize(keys: Slots, vals: Slots, hashes: seq<bv32>, m: Meaning)
    requires Represents(keys, vals, hashes, m)
    ensures Count(keys) == |m|
  {
    if keys == [] {
      assert m == map[];
    } else {
      var last := |keys| - 1;
      var k := keys[last];
      var rest := WithoutSlot(m, k);
      LastSlot(keys, vals, hashes, m);
      CountIsSize(keys[..last], vals[..last], hashes[..last], rest);
      if k.Some? {
        assert m.Keys == rest.Keys + {k.value};
        assert |m.Keys| == |rest.Keys| + 1;
      }
    }
  }

  ghost function WithoutSlot(m: Meaning, k: Option<Str>): Meaning {
    if k.Some? then m - {k.value} else m
  }

  /** Without its last slot a table stands for the map without that key. */
  lemma {:induction false} LastSlot(keys: Slots, vals: Slots, hashes: seq<bv32>, m: Meaning)
    requires Represents(keys, vals, hashes, m) && keys != []
    ensures var last := |keys| - 1;
            && (keys[last].Some? ==> keys[last].value in m)
            && Represents(keys[..last], vals[..last], hashes[..last], WithoutSlot(m, keys[last]))
  {
    var last := |keys| - 1;
    assert SlotOk(keys, vals, hashes, m, last);
    assert keys == keys[..last] + [keys[last]];
    forall i | 0 <= i < last
      ensures SlotOk(keys[..last], vals[..last], hashes[..last], WithoutSlot(m, keys[last]), i)
    {
      assert SlotOk(keys, vals, hashes, m, i);
    }
  }

  lemma {:induction false} SetExisting(keys: Slots, vals: Slots, hashes: seq<bv32>, m: Meaning, i: nat, k: Str,
        v: Option<Str>)
    requires Represents(keys, vals, hashes, m) && i < |keys| && keys[i] == Some(k)
    ensures k in m && Represents(keys, vals[i := v], hashes, m[k := v])
  {
    assert SlotOk(keys, vals, hashes, m, i);
    var vals', m' := vals[i := v], m[k := v];
    forall j | 0 <= j < |keys|
      ensures SlotOk(keys, vals', hashes, m', j)
    {
      assert SlotOk(keys, vals, hashes, m, j);
    }
  }

  lemma {:induction false} SetNew(keys: Slots, vals: Slots, hashes: seq<bv32>, m: Meaning, i: nat, k: Str,
        v: Option<Str>)
    requires Represents(keys, vals, hashes, m) && i < |keys| && keys[i] == None && k !in m
    ensures Represents(keys[i := Some(k)], vals[i := v], hashes[i := Hash(k)], m[k := v])
  {
    var keys' := keys[i := Some(k)];
    forall j | 0 <= j < |keys|
      ensures SlotOk(keys', vals[i := v], hashes[i := Hash(k)], m[k := v], j) && (j != i ==> keys'[j] != Some(k))
    {
      assert SlotOk(keys, vals, hashes, m, j);
    }
    forall x | x in m[k := v]
      ensures Some(x) in keys'
    {
      if x == k {
        assert keys'[i] == Some(k);
      } else {
        var j :| 0 <= j < |keys| && keys[j] == Some(x);
        assert keys'[j] == Some(x);
      }
    }
  }

  lemma {:induction false} UnsetAt(keys: Slots, vals: Slots, hashes: seq<bv32>, m: Meaning, i: nat, k: Str)
    requires Represents(keys, vals, hashes, m) && i < |keys| && keys[i] == Some(k)
    ensures k in m && Represents(keys[i := None], vals[i := None], hashes[i := 0], m - {k})
  {
    var keys' := keys[i := None];
    assert SlotOk(keys, vals, hashes, m, i);
    var vals', hashes', m' := vals[i := None], hashes[i := 0], m - {k};
    forall j | 0 <= j < |keys|
      ensures SlotOk(keys', vals', hashes', m', j)
    {
      assert SlotOk(keys, vals, hashes, m, j);
    }
    forall x | x in m - {k}
      ensures Some(x) in keys'
    {
      var j :| 0 <= j < |keys| && keys[j] == Some(x);
      assert keys'[j] == Some(x);
    }
  }

  /** Growing keeps the contents. */
  lemma {:induction false} Grown(keys: Slots, vals: Slots, hashes: seq<bv32>, m: Meaning, more: Slots, zeros: seq<bv32>)
    requires Represents(keys, vals, hashes, m) && |more| == |zeros| && forall i :: 0 <= i < |more| ==> more[i].None?
    ensures Represents(keys + more, vals + more, hashes + zeros, m)
  {
    forall j | 0 <= j < |keys + more|
      ensures SlotOk(keys + more, vals + more, hashes + zeros, m, j)
    {
      if j < |keys| {
        assert SlotOk(keys, vals, hashes, m, j);
      }
    }
  }

  // ---------------------------------------------------------------------------------------------------
  // The dictionary object
  // ---------------------------------------------------------------------------------------------------

  datatype Op = Set(key: Str, val: Option<Str>) | Unset(key: Str) | Get(key: Str, def: Option<Str>)

  /** The same operations on a map, with the results of the look-ups behind earlier ones. */
  ghost function After(m: Meaning, results: seq<Option<Str>>, ops: seq<Op>): (Meaning, seq<Option<Str>>)
    decreases |ops|
  {
    if ops == [] then (m, results)
    else
      match ops[0]
      case Set(k, v) => After(m[k := v], results, ops[1..])
      case Unset(k) => After(m - {k}, results, ops[1..])
      case Get(k, def) => After(m, results + [if k in m then m[k] else def], ops[1..])
  }

  /** Whatever the contents, setting a key to nothing and removing it give a look-up the same result if and only if it
      is for another key or its default is nothing too. */
  lemma {:induction false} SetToNothingLikeUnsetExactlyWhen(m: Meaning, k: Str, x: Str, d: Option<Str>)
    ensures After(m, [], [Set(k, None), Get(x, d)]).1 == After(m, [], [Unset(k), Get(x, d)]).1 <==> x != k || d == None
  {
    var a, b := [Set(k, None), Get(x, d)], [Unset(k), Get(x, d)];
    assert a[1..] == [Get(x, d)] && b[1..] == [Get(x, d)];
    OneGet(m[k := None], x, d);
    OneGet(m - {k}, x, d);
  }

  /** Setting a key to nothing is not removing it: a look-up gives nothing and not the default, and the key counts. */
  lemma {:induction false} SetToNothingIsNotUnset(k: Str, d: Str)
    ensures After(map[], [], [Set(k, None), Get(k, Some(d))]) == (map[k := None], [None])
    ensures After(map[], [], [Unset(k), Get(k, Some(d))]) == (map[], [Some(d)])
  {
    var none: Meaning := map[];
    var a, b := [Set(k, None), Get(k, Some(d))], [Unset(k), Get(k, Some(d))];
    assert a[1..] == [Get(k, Some(d))] && b[1..] == [Get(k, Some(d))];
    assert none - {k} == none;
    OneGet(none[k := None], k, Some(d));
    OneGet(none, k, Some(d));
  }

  lemma {:induction false} OneGet(m: Meaning, k: Str, d: Option<Str>)
    ensures After(m, [], [Get(k, d)]) == (m, [if k in m then m[k] else d])
  {
    var g, r := [Get(k, d)], [if k in m then m[k] else d];
    assert g[1..] == [] && [] + r == r;
  }

  /** mem_double */
  method Double<T(0)>(a: array<T>, zero: T) returns (b: array<T>)
    ensures fresh(b) && b.Length == 2 * a.Length
    ensures b[..] == a[..] + seq(a.Length, _ => zero)
  {
    b := new T[2 * a.Length];
    for i := 0 to b.Length
      invariant forall j :: 0 <= j < i ==> b[j] == if j < a.Length then a[j] else zero
    {
      b[i] := if i < a.Length then a[i] else zero;
    }
  }

  /** An assignment to one slot. */
  method Store<T>(a: array<T>, i: nat, x: T)
    requires i < a.Length
    modifies a
    ensures a[..] == old(a[..])[i := x]
  {
    a[i] := x;
  }

  method Blank<T(0)>(size: nat, zero: T) returns (a: array<T>)
    ensures fresh(a) && a.Length == size && a[..] == seq(size, _ => zero)
  {
    a := new T[size];
    for i := 0 to size
      invariant forall j :: 0 <= j < i ==> a[j] == zero
    {
      a[i] := zero;
    }
  }

  lemma {:induction false} EmptyRepresents(size: nat, keys: Slots, hashes: seq<bv32>)
    requires keys == seq(size, _ => None) && |hashes| == size
    ensures Represents(keys, keys, hashes, map[]) && Count(keys) == 0
  {
    CountEmpty([], keys);
    assert [] + keys == keys;
    forall i | 0 <= i < |keys|
      ensures SlotOk(keys, keys, hashes, map[], i)
    {
    }
  }

  class Dict {
    var n: nat
    var size: nat
    var key: array<Option<Str>>
    var val: array<Option<Str>>
    var hash: array<bv32>
    ghost var contents: Meaning

    ghost predicate Shaped()
      reads this
    {
      && key != val && hash as object != key as object && hash as object != val as object
      && key.Length == size && val.Length == size && hash.Length == size && size > 0
    }

    ghost predicate Same(k: array<Option<Str>>, v: array<Option<Str>>, h: array<bv32>)
      reads this
    {
      key == k && val == v && hash == h
    }

    ghost predicate Valid()
      reads this, key, val, hash
    {
      Shaped() && n == Count(key[..]) && Represents(key[..], val[..], hash[..], contents)
    }

    /** dictionary_new */
    constructor (wanted: int)
      ensures Valid() && contents == map[] && n == 0
      ensures size == if wanted < DICTMINSZ then DICTMINSZ else wanted
      ensures fresh(key) && fresh(val) && fresh(hash)
    {
      var sz: nat := if wanted < DICTMINSZ then DICTMINSZ else wanted;
      n, size, contents := 0, sz, map[];
      var v: array<Option<Str>> := Blank(sz, None);
      var k: array<Option<Str>> := Blank(sz, None);
      var h: array<bv32> := Blank(sz, 0);
      key, val, hash := k, v, h;
      EmptyRepresents(sz, k[..], h[..]);
    }

    /** The scan that dictionary_get, dictionary_set and dictionary_unset begin with; `size` if the key is not there. */
    method Find(k: Str) returns (i: nat)
      requires Valid()
      ensures i <= size && (i < size <==> k in contents)
      ensures i < size ==> key[i] == Some(k) && contents[k] == val[i]
    {
      var h := DictionaryHash(k);
      ghost var keys, vals, hashes := key[..], val[..], hash[..];
      i := 0;
      while i < size
        invariant i <= size && forall j :: 0 <= j < i ==> keys[j] != Some(k)
      {
        assert SlotOk(keys, vals, hashes, contents, i);
        if key[i].Some? && h == hash[i] && key[i].value == k {
          return;
        }
        i := i + 1;
      }
    }

    /** dictionary_get */
    method Get(k: Str, def: Option<Str>) returns (v: Option<Str>)
      requires Valid()
      ensures v == if k in contents then contents[k] else def
    {
      var i := Find(k);
      if i < size {
        return val[i];
      }
      return def;
    }

    /** dictionary_set */
    method Set(k: Str, v: Option<Str>)
      requires Valid()
      modifies this, key, val, hash
      ensures Valid() && contents == old(contents)[k := v]
      ensures n == old(n) + (if k in old(contents) then 0 else 1) && size >= old(size)
      ensures Same(old(key), old(val), old(hash)) || (fresh(key) && fresh(val) && fresh(hash))
    {
      if n > 0 {
        var i := Find(k);
        if i < size {
          ghost var keys, vals, hashes := key[..], val[..], hash[..];
          SetExisting(keys, vals, hashes, contents, i, k, v);
          Store(val, i, v);
          assert key[..] == keys && hash[..] == hashes;
          contents := contents[k := v];
          return;
        }
      } else {
        NothingThere(k);
      }
      CountBound(key[..]);
      if n == size {
        GrowAll();
      }
      Insert(k, v);
    }

    lemma {:induction false} NothingThere(k: Str)
      requires Valid() && n == 0
      ensures k !in contents
    {
      CountIsSize(key[..], val[..], hash[..], contents);
    }

    /** The arrays are full and get twice as long. */
    method GrowAll()
      requires Valid()
      modifies this`key, this`val, this`hash, this`size
      ensures Valid() && size == 2 * old(size) && fresh(key) && fresh(val) && fresh(hash)
    {
      ghost var more: Slots, zeros: seq<bv32> := seq(size, _ => None), seq(size, _ => 0);
      CountEmpty(key[..], more);
      Grown(key[..], val[..], hash[..], contents, more, zeros);
      val := Double(val, None);
      key := Double(key, None);
      hash := Double(hash, 0);
      size := size * 2;
    }

    /** The first empty slot from n on, wrapping at the end.  There is one, so the search ends. */
    method Probe() returns (i: nat)
      requires Valid() && n < size
      ensures i < size && key[i] == None
    {
      CountBound(key[..]);
      ghost var e: nat :| e < size && key[..][e] == None;
      i := n;
      while key[i].Some?
        invariant i < size
        decreases if i <= e then e - i else size - i + e
      {
        i := i + 1;
        if i == size {
          i := 0;
        }
      }
    }

    /** The three parts of one slot. */
    method Fill(i: nat, k: Option<Str>, v: Option<Str>, h: bv32)
      requires Shaped() && i < size
      modifies key, val, hash
      ensures key[..] == old(key[..])[i := k] && val[..] == old(val[..])[i := v] && hash[..] == old(hash[..])[i := h]
    {
      ghost var keys, vals, hashes := key[..], val[..], hash[..];
      Store(key, i, k);
      assert val[..] == vals && hash[..] == hashes;
      Store(val, i, v);
      assert key[..] == keys[i := k] && hash[..] == hashes;
      Store(hash, i, h);
      assert key[..] == keys[i := k] && val[..] == vals[i := v];
    }

    method Insert(k: Str, v: Option<Str>)
      requires Valid() && n < size && k !in contents
      modifies this`n, this`contents, key, val, hash
      ensures Valid() && contents == old(contents)[k := v] && n == old(n) + 1
    {
      var h := DictionaryHash(k);
      var i := Probe();
      ghost var keys, vals, hashes := key[..], val[..], hash[..];
      SetNew(keys, vals, hashes, contents, i, k, v);
      CountUpdate(keys, i, Some(k));
      Fill(i, Some(k), v, h);
      n, contents := n + 1, contents[k := v];
    }

    /** dictionary_unset */
    method Unset(k: Str)
      requires Valid()
      modifies this, key, val, hash
      ensures Valid() && contents == old(contents) - {k}
      ensures n == old(n) - (if k in old(contents) then 1 else 0) && size == old(size)
      ensures Same(old(key), old(val), old(hash))
    {
      var i := Find(k);
      if i >= size {
        assert contents == contents - {k};
        return;
      }
      ghost var keys, vals, hashes := key[..], val[..], hash[..];
      UnsetAt(keys, vals, hashes, contents, i, k);
      CountUpdate(keys, i, None);
      CountZero(keys, i);
      Fill(i, None, None, 0);
      n, contents := n - 1, contents - {k};
    }

    /** Any sequence of operations gives the results and leaves the contents that it would with a plain map. */
    method Replay(ops: seq<Op>) returns (results: seq<Option<Str>>)
      requires Valid()
      modifies this, key, val, hash
      ensures Valid() && After(old(contents), [], ops) == (contents, results)
    {
      results := [];
      ghost var k0, v0, h0 := key, val, hash;
      for i := 0 to |ops|
        invariant Valid() && After(old(contents), [], ops) == After(contents, results, ops[i..])
        invariant Same(k0, v0, h0) || (fresh(key) && fresh(val) && fresh(hash))
      {
        match ops[i]
        case Set(k, v) => Set(k, v);
        case Unset(k) => Unset(k);
        case Get(k, def) =>
          var r := Get(k, def);
          results := results + [r];
      }
    }
  }
}
