/** `sorted(...)` on strings and on dict items, which Python orders by key
    (the keys of a dict are distinct, so two items never compare equal keys). */
module KeySort {
  import opened Text

  predicate StrictlySorted<T>(s: seq<T>, key: T -> string) {
    forall i, j :: 0 <= i < j < |s| ==> Less(key(s[i]), key(s[j]))
  }

  predicate DistinctKeys<T>(s: seq<T>, key: T -> string) {
    forall i, j :: 0 <= i < j < |s| ==> key(s[i]) != key(s[j])
  }

  function Insert<T>(x: T, s: seq<T>, key: T -> string): (r: seq<T>)
    ensures |r| == |s| + 1 && multiset(r) == multiset(s) + multiset{x}
  {
    if s == [] then [x]
    else if Less(key(s[0]), key(x)) then
      assert s == [s[0]] + s[1..];
      [s[0]] + Insert(x, s[1..], key)
    else [x] + s
  }

  /** Insertion sort by key; `sorted(s, key=key)` for distinct keys. */
  function Sort<T>(s: seq<T>, key: T -> string): (r: seq<T>)
    ensures |r| == |s| && multiset(r) == multiset(s)
  {
    if s == [] then []
    else
      assert s == [s[0]] + s[1..];
      Insert(s[0], Sort(s[1..], key), key)
  }

  lemma {:induction false} InsertSorted<T>(x: T, s: seq<T>, key: T -> string)
    requires StrictlySorted(s, key)
    requires forall i :: 0 <= i < |s| ==> key(s[i]) != key(x)
    ensures StrictlySorted(Insert(x, s, key), key)
  {
    if s == [] {
    } else if Less(key(s[0]), key(x)) {
      var t := Insert(x, s[1..], key);
      InsertSorted(x, s[1..], key);
      forall j | 0 <= j < |t| ensures Less(key(s[0]), key(t[j])) {
        assert t[j] in multiset(t);
        if t[j] != x {
          assert t[j] in multiset(s[1..]);
          var m :| 0 <= m < |s[1..]| && s[1..][m] == t[j];
          assert s[m + 1] == t[j];
        }
      }
    } else {
      LessTotal(key(x), key(s[0]));
      forall j | 0 < j < |s| ensures Less(key(x), key(s[j])) {
        LessTransitive(key(x), key(s[0]), key(s[j]));
      }
    }
  }

  /** Sorting items with distinct keys orders them strictly by key. */
  lemma {:induction false} SortSorted<T>(s: seq<T>, key: T -> string)
    requires DistinctKeys(s, key)
    ensures StrictlySorted(Sort(s, key), key)
  {
    if s != [] {
      var t := Sort(s[1..], key);
      SortSorted(s[1..], key);
      forall i | 0 <= i < |t| ensures key(t[i]) != key(s[0]) {
        assert t[i] in multiset(s[1..]);
        var m :| 0 <= m < |s[1..]| && s[1..][m] == t[i];
        assert s[m + 1] == t[i];
      }
      InsertSorted(s[0], t, key);
    }
  }

  /** Two strictly sorted sequences with the same elements are the same
      sequence: the sorted order does not depend on the order of the input. */
  lemma {:induction false} SortedUnique<T>(a: seq<T>, b: seq<T>, key: T -> string)
    requires StrictlySorted(a, key) && StrictlySorted(b, key)
    requires multiset(a) == multiset(b)
    ensures a == b
  {
    assert |a| == |multiset(a)| == |b|;
    if a != [] {
      SortedHeads(a, b, key);
      assert a == [a[0]] + a[1..] && b == [b[0]] + b[1..];
      assert multiset(a[1..]) == multiset(a) - multiset{a[0]};
      assert multiset(b[1..]) == multiset(b) - multiset{b[0]};
      SortedUnique(a[1..], b[1..], key);
    }
  }

  /** The least element is the same in two sorted orderings of one multiset. */
  lemma SortedHeads<T>(a: seq<T>, b: seq<T>, key: T -> string)
    requires StrictlySorted(a, key) && StrictlySorted(b, key)
    requires multiset(a) == multiset(b) && a != [] && b != []
    ensures a[0] == b[0]
  {
    assert a[0] in multiset(b) && b[0] in multiset(a);
    var i :| 0 <= i < |a| && a[i] == b[0];
    var j :| 0 <= j < |b| && b[j] == a[0];
    if i != 0 {
      assert j != 0 ==> Less(key(b[0]), key(b[j]));
      LessAsymmetric(key(a[0]), key(a[i]));
      assert false;
    }
  }

  /** `sorted` gives the same list for any two orderings of the same distinct items. */
  lemma SortIgnoresOrder<T>(a: seq<T>, b: seq<T>, key: T -> string)
    requires DistinctKeys(a, key) && multiset(a) == multiset(b)
    ensures Sort(a, key) == Sort(b, key)
  {
    SortSorted(a, key);
    var sa := Sort(a, key);
    assert DistinctKeys(b, key) by {
      forall i, j | 0 <= i < j < |b| ensures key(b[i]) != key(b[j]) {
        SortedNoRepeats(sa, b, key, i, j);
        assert b[i] in multiset(sa) && b[j] in multiset(sa);
        var p :| 0 <= p < |sa| && sa[p] == b[i];
        var q :| 0 <= q < |sa| && sa[q] == b[j];
        if p < q { LessIrreflexive(key(sa[p])); } else { LessIrreflexive(key(sa[q])); }
      }
    }
    SortSorted(b, key);
    SortedUnique(sa, Sort(b, key), key);
  }

  /** A list with the same elements as a strictly sorted one repeats none. */
  lemma SortedNoRepeats<T>(s: seq<T>, b: seq<T>, key: T -> string, i: nat, j: nat)
    requires StrictlySorted(s, key) && multiset(s) == multiset(b) && i < j < |b|
    ensures b[i] != b[j]
  {
    if b[i] == b[j] {
      assert multiset(b)[b[i]] >= 2 by {
        assert b == b[..i] + [b[i]] + b[i + 1..j] + [b[j]] + b[j + 1..];
      }
      assert b[i] in multiset(s);
      var p :| 0 <= p < |s| && s[p] == b[i];
      UniqueCount(s, p, key);
    }
  }

  /** In a strictly sorted sequence every element occurs once. */
  lemma {:induction false} UniqueCount<T>(s: seq<T>, p: nat, key: T -> string)
    requires StrictlySorted(s, key) && p < |s|
    ensures multiset(s)[s[p]] == 1
  {
    if p == 0 {
      assert s == [s[0]] + s[1..];
      forall i | 0 <= i < |s[1..]| ensures s[1..][i] != s[0] {
        assert Less(key(s[0]), key(s[i + 1]));
        LessIrreflexive(key(s[0]));
      }
      assert s[0] !in multiset(s[1..]);
    } else {
      assert s == [s[0]] + s[1..];
      assert s[0] != s[p] by { LessIrreflexive(key(s[0])); }
      UniqueCount(s[1..], p - 1, key);
    }
  }
}
