/** Python dictionaries as sequences of (key, value) pairs in insertion order.
    Insertion order matters to the model: it decides which of two writes to
    one key wins and the order in which the dict is iterated. */
module OrderedDict {
  import opened Wrappers

  type Dict<K, V> = seq<(K, V)>

  function Keys<K, V>(d: Dict<K, V>): (ks: seq<K>)
    ensures |ks| == |d| && forall i :: 0 <= i < |d| ==> ks[i] == d[i].0
  {
    if d == [] then [] else [d[0].0] + Keys(d[1..])
  }

  function Values<K, V>(d: Dict<K, V>): (vs: seq<V>)
    ensures |vs| == |d| && forall i :: 0 <= i < |d| ==> vs[i] == d[i].1
  {
    if d == [] then [] else [d[0].1] + Values(d[1..])
  }

  lemma KeysSnoc<K, V>(d: Dict<K, V>, e: (K, V))
    ensures Keys(d + [e]) == Keys(d) + [e.0]
  {
    var a := Keys(d + [e]);
    var b := Keys(d) + [e.0];
    forall i | 0 <= i < |a| ensures a[i] == b[i] {
      assert (d + [e])[i] == if i < |d| then d[i] else e;
    }
  }

  lemma ValuesSnoc<K, V>(d: Dict<K, V>, e: (K, V))
    ensures Values(d + [e]) == Values(d) + [e.1]
  {
    var a := Values(d + [e]);
    var b := Values(d) + [e.1];
    forall i | 0 <= i < |a| ensures a[i] == b[i] {
      assert (d + [e])[i] == if i < |d| then d[i] else e;
    }
  }

  /** A Python dict never holds a key twice. */
  predicate UniqueKeys<K(==), V>(d: Dict<K, V>) {
    forall i, j :: 0 <= i < j < |d| ==> d[i].0 != d[j].0
  }

  predicate HasKey<K(==), V>(d: Dict<K, V>, k: K) {
    exists i :: 0 <= i < |d| && d[i].0 == k
  }

  /** `d.get(k)`: the value stored under `k`, if any. */
  function Get<K(==), V>(d: Dict<K, V>, k: K): (r: Option<V>)
    ensures r.None? <==> !HasKey(d, k)
    ensures r.Some? ==> exists i :: 0 <= i < |d| && d[i] == (k, r.value)
  {
    if d == [] then None
    else if d[0].0 == k then Some(d[0].1)
    else
      var r := Get(d[1..], k);
      assert r.Some? ==> exists i :: 0 <= i < |d[1..]| && d[1..][i] == (k, r.value);
      r
  }

  /** `d[k] = v`: an existing key keeps its position and takes the new
      value; a new key is appended. */
  function Assign<K(==), V>(d: Dict<K, V>, k: K, v: V): (r: Dict<K, V>)
  {
    if d == [] then [(k, v)]
    else if d[0].0 == k then [(k, v)] + d[1..]
    else [d[0]] + Assign(d[1..], k, v)
  }

  /** `d |= other`, or `dict(pairs)` when `d` is empty: assign each pair in turn. */
  function AssignAll<K(==), V>(d: Dict<K, V>, pairs: seq<(K, V)>): Dict<K, V>
    decreases |pairs|
  {
    if pairs == [] then d else AssignAll(Assign(d, pairs[0].0, pairs[0].1), pairs[1..])
  }

  /** After `d[k] = v`, `k` reads `v` and every other key reads as before. */
  lemma {:induction false} GetAssign<K, V>(d: Dict<K, V>, k: K, v: V, k': K)
    ensures Get(Assign(d, k, v), k') == if k' == k then Some(v) else Get(d, k')
  {
    if d != [] && d[0].0 != k {
      GetAssign(d[1..], k, v, k');
    }
  }

  /** `d[k] = v` keeps the keys in order, appending `k` only if it is new. */
  lemma {:induction false} KeysAssign<K, V>(d: Dict<K, V>, k: K, v: V)
    ensures Keys(Assign(d, k, v)) == if HasKey(d, k) then Keys(d) else Keys(d) + [k]
  {
    if d == [] {
    } else if d[0].0 == k {
      assert HasKey(d, k);
    } else {
      KeysAssign(d[1..], k, v);
      HasKeyTail(d, k);
      var r := [d[0]] + Assign(d[1..], k, v);
      assert Assign(d, k, v) == r;
      assert r[1..] == Assign(d[1..], k, v);
    }
  }

  /** A key other than the first is in the dict when it is in the rest. */
  lemma HasKeyTail<K, V>(d: Dict<K, V>, k: K)
    requires d != [] && d[0].0 != k
    ensures HasKey(d, k) <==> HasKey(d[1..], k)
  {
    if HasKey(d, k) {
      var i :| 0 <= i < |d| && d[i].0 == k;
      assert d[1..][i - 1].0 == k;
    }
    if HasKey(d[1..], k) {
      var i :| 0 <= i < |d[1..]| && d[1..][i].0 == k;
      assert d[i + 1].0 == k;
    }
  }

  /** Assigning a new key appends the pair. */
  lemma {:induction false} AssignNew<K, V>(d: Dict<K, V>, k: K, v: V)
    requires !HasKey(d, k)
    ensures Assign(d, k, v) == d + [(k, v)]
  {
    if d != [] {
      assert d[0].0 != k;
      assert forall i :: 0 <= i < |d[1..]| ==> d[1..][i] == d[i + 1];
      AssignNew(d[1..], k, v);
    }
  }

  /** Assigning a key already present leaves the key list unchanged. */
  lemma AssignKeepsUnique<K, V>(d: Dict<K, V>, k: K, v: V)
    requires UniqueKeys(d)
    ensures UniqueKeys(Assign(d, k, v))
  {
    KeysAssign(d, k, v);
    var r := Assign(d, k, v);
    var ks := Keys(r);
    assert forall i, j :: 0 <= i < j < |r| ==> r[i].0 != r[j].0 by {
      forall i, j | 0 <= i < j < |r| ensures r[i].0 != r[j].0 {
        assert ks[i] == r[i].0 && ks[j] == r[j].0;
        if !HasKey(d, k) && j == |d| {
          assert ks[i] == d[i].0;
        }
      }
    }
  }

  /** Assigning the same value to a key twice is the same as assigning it once. */
  lemma {:induction false} AssignTwice<K, V>(d: Dict<K, V>, k: K, v: V)
    ensures Assign(Assign(d, k, v), k, v) == Assign(d, k, v)
  {
    if d != [] && d[0].0 != k {
      AssignTwice(d[1..], k, v);
    }
  }

  /** The key that was assigned last decides the value: if pair `i` is the
      last one with key `k`, `k` reads that pair's value. */
  lemma {:induction false} GetAssignAllLast<K, V>(d: Dict<K, V>, pairs: seq<(K, V)>, i: nat, k: K)
    requires i < |pairs| && pairs[i].0 == k
    requires forall j :: i < j < |pairs| ==> pairs[j].0 != k
    ensures Get(AssignAll(d, pairs), k) == Some(pairs[i].1)
    decreases |pairs|
  {
    var d' := Assign(d, pairs[0].0, pairs[0].1);
    if i == 0 {
      GetAssign(d, pairs[0].0, pairs[0].1, k);
      GetAssignAllUntouched(d', pairs[1..], k);
    } else {
      GetAssignAllLast(d', pairs[1..], i - 1, k);
    }
  }

  /** A key that no pair mentions reads as before. */
  lemma {:induction false} GetAssignAllUntouched<K, V>(d: Dict<K, V>, pairs: seq<(K, V)>, k: K)
    requires forall j :: 0 <= j < |pairs| ==> pairs[j].0 != k
    ensures Get(AssignAll(d, pairs), k) == Get(d, k)
    decreases |pairs|
  {
    if pairs != [] {
      GetAssign(d, pairs[0].0, pairs[0].1, k);
      GetAssignAllUntouched(Assign(d, pairs[0].0, pairs[0].1), pairs[1..], k);
    }
  }

  lemma {:induction false} AssignAllKeepsUnique<K, V>(d: Dict<K, V>, pairs: seq<(K, V)>)
    requires UniqueKeys(d)
    ensures UniqueKeys(AssignAll(d, pairs))
    decreases |pairs|
  {
    if pairs != [] {
      AssignKeepsUnique(d, pairs[0].0, pairs[0].1);
      AssignAllKeepsUnique(Assign(d, pairs[0].0, pairs[0].1), pairs[1..]);
    }
  }

  /** When the keys of `pairs` are new and distinct, `d |= pairs` appends them. */
  lemma {:induction false} AssignAllFresh<K, V>(d: Dict<K, V>, pairs: seq<(K, V)>)
    requires UniqueKeys(d + pairs)
    ensures AssignAll(d, pairs) == d + pairs
    decreases |pairs|
  {
    if pairs != [] {
      var k := pairs[0].0;
      forall i | 0 <= i < |d| ensures d[i].0 != k {
        assert (d + pairs)[i] == d[i] && (d + pairs)[|d|] == pairs[0];
      }
      AssignNew(d, k, pairs[0].1);
      assert d + [pairs[0]] + pairs[1..] == d + pairs;
      AssignAllFresh(d + [pairs[0]], pairs[1..]);
    }
  }

  /** Every key of `d |= pairs` came from `d` or from `pairs`. */
  lemma {:induction false} HasKeyAssignAll<K, V>(d: Dict<K, V>, pairs: seq<(K, V)>, k: K)
    ensures HasKey(AssignAll(d, pairs), k) <==>
            HasKey(d, k) || exists j :: 0 <= j < |pairs| && pairs[j].0 == k
    decreases |pairs|
  {
    if pairs != [] {
      var d' := Assign(d, pairs[0].0, pairs[0].1);
      GetAssign(d, pairs[0].0, pairs[0].1, k);
      HasKeyAssignAll(d', pairs[1..], k);
      if exists j :: 0 <= j < |pairs[1..]| && pairs[1..][j].0 == k {
        var j :| 0 <= j < |pairs[1..]| && pairs[1..][j].0 == k;
        assert pairs[j + 1].0 == k;
      }
      if exists j :: 0 <= j < |pairs| && pairs[j].0 == k {
        var j :| 0 <= j < |pairs| && pairs[j].0 == k;
        if j > 0 { assert pairs[1..][j - 1].0 == k; }
      }
    }
  }

  lemma AssignAllSingle<K, V>(d: Dict<K, V>, p: (K, V))
    ensures AssignAll(d, [p]) == Assign(d, p.0, p.1)
  {
    assert [p][1..] == [];
  }

  /** `d |= a + b` is `d |= a` followed by `d |= b`. */
  lemma {:induction false} AssignAllConcat<K, V>(d: Dict<K, V>, a: seq<(K, V)>, b: seq<(K, V)>)
    ensures AssignAll(d, a + b) == AssignAll(AssignAll(d, a), b)
    decreases |a|
  {
    if a != [] {
      assert (a + b)[1..] == a[1..] + b;
      AssignAllConcat(Assign(d, a[0].0, a[0].1), a[1..], b);
    } else {
      assert a + b == b;
    }
  }

  /** Python's `==` on dicts: the same keys with the same values, in any order. */
  ghost predicate SameEntries<K(!new), V>(a: Dict<K, V>, b: Dict<K, V>) {
    forall k :: Get(a, k) == Get(b, k)
  }

  function Reverse<T>(s: seq<T>): (r: seq<T>)
    ensures |r| == |s| && forall i :: 0 <= i < |s| ==> r[i] == s[|s| - 1 - i]
  {
    if s == [] then [] else Reverse(s[1..]) + [s[0]]
  }

  /** Reversing a dict with unique keys does not change what it maps. */
  lemma ReverseSameEntries<K(!new), V>(d: Dict<K, V>)
    requires UniqueKeys(d)
    ensures UniqueKeys(Reverse(d)) && SameEntries(Reverse(d), d)
  {
    var r := Reverse(d);
    forall k ensures Get(r, k) == Get(d, k) {
      if HasKey(d, k) {
        var i :| 0 <= i < |d| && d[i].0 == k;
        UniqueGet(d, i);
        assert r[|d| - 1 - i] == d[i];
        UniqueGet(r, |d| - 1 - i);
      } else {
        forall i | 0 <= i < |r| ensures r[i].0 != k {
          assert r[i] == d[|d| - 1 - i];
        }
      }
    }
  }

  /** In a dict with unique keys, every stored pair is what `Get` returns. */
  lemma UniqueGet<K, V>(d: Dict<K, V>, i: nat)
    requires UniqueKeys(d) && i < |d|
    ensures Get(d, d[i].0) == Some(d[i].1)
  {
    var r := Get(d, d[i].0);
    var j :| 0 <= j < |d| && d[j] == (d[i].0, r.value);
    assert i == j;
  }
}
