/** A stand-in for `config_merge` of virtual_ecosystem.core.config, which
    `VEExperiment.run` (snakemake_helper/ve_experiment.py) uses to add the
    output directory to a parameter set. Its definition is not part of this
    model: this is an assumed recursive merge that overwrites `dest` with
    `source`, descends where both sides hold a dict, and reports the dotted
    path of every value it overwrites. Only what the package's tests rely on
    is proved about it. */
module ConfigMerge {
  import opened Wrappers
  import opened OrderedDict
  import opened KeyPath

  /** A path that was set on both sides. */
  type Conflict = seq<string>

  /** `config_merge(dest, source)`: the merged dict and the conflicts. */
  function Merge<V>(dest: Entries<V>, source: Entries<V>): (Entries<V>, seq<Conflict>) {
    MergeFrom(dest, [], Nested(source), 0)
  }

  /** Merge the entries of `src` from index `i` on into `dest`, which sits at
      `path` in the whole dict. */
  function MergeFrom<V>(dest: Entries<V>, path: seq<string>, src: Node<V>, i: nat)
    : (Entries<V>, seq<Conflict>)
    requires src.Nested? && i <= |src.entries|
    decreases src, 0, |src.entries| - i
  {
    if i == |src.entries| then (dest, [])
    else
      var (d1, c1) := MergeEntry(dest, path, src.entries[i].0, src.entries[i].1);
      var (d2, c2) := MergeFrom(d1, path, src, i + 1);
      (d2, c1 + c2)
  }

  /** Merge one source entry: a new key is added, two dicts are merged
      recursively, anything else is overwritten and reported. */
  function MergeEntry<V>(dest: Entries<V>, path: seq<string>, k: string, sv: Node<V>)
    : (Entries<V>, seq<Conflict>)
    decreases sv, 1
  {
    match Get(dest, k)
    case None => (Assign(dest, k, sv), [])
    case Some(dv) =>
      if dv.Nested? && sv.Nested? then
        var (m, c) := MergeFrom(dv.entries, path + [k], sv, 0);
        (Assign(dest, k, Nested(m)), c)
      else
        (Assign(dest, k, sv), [path + [k]])
  }

  /** The plain value at `q` below `n`, if there is one. */
  function Lookup<V>(n: Node<V>, q: seq<string>): Option<V>
    decreases |q|
  {
    if q == [] then
      if n.Leaf? then Some(n.value) else None
    else if n.Leaf? then None
    else
      match Get(n.entries, q[0])
      case None => None
      case Some(c) => Lookup(c, q[1..])
  }

  /** `q` and `p` part ways: neither is a prefix of the other. */
  predicate Diverge(q: seq<string>, p: seq<string>) {
    exists i :: 0 <= i < |q| && i < |p| && q[i] != p[i]
  }

  /** Setting `path` adds a value without overwriting one: every proper
      prefix of `path` is absent or a dict, and `path` itself is absent. */
  predicate Free<V>(d: Entries<V>, path: seq<string>)
    requires path != []
    decreases |path|
  {
    match Get(d, path[0])
    case None => true
    case Some(c) => c.Nested? && |path| > 1 && Free(c.entries, path[1..])
  }

  lemma {:induction false} LookupNest<V>(rest: seq<string>, v: V, q: seq<string>)
    ensures Lookup(NestNode(rest, v), rest) == Some(v)
    ensures Diverge(q, rest) ==> Lookup(NestNode(rest, v), q) == None
    decreases |rest|
  {
    if rest != [] {
      var n := NestNode(rest, v);
      assert n == Nested([(rest[0], NestNode(rest[1..], v))]);
      assert Get(n.entries, rest[0]) == Some(NestNode(rest[1..], v));
      if q != [] && Diverge(q, rest) {
        if q[0] == rest[0] {
          var i :| 0 <= i < |q| && i < |rest| && q[i] != rest[i];
          assert q[1..][i - 1] != rest[1..][i - 1];
          LookupNest(rest[1..], v, q[1..]);
        } else {
          assert Get(n.entries, q[0]) == None;
        }
      }
      LookupNest(rest[1..], v, rest[1..]);
    }
  }

  /** Merging one path into a dict -- the way `run` sets the output
      directory -- stores the value at that path, leaves every value on a
      diverging path as it was, and reports a conflict exactly when the path
      was not free. */
  lemma {:induction false} MergePath<V>(dest: Entries<V>, pre: seq<string>, path: seq<string>, v: V)
    requires path != []
    ensures var (m, c) := MergeEntry(dest, pre, path[0], NestNode(path[1..], v));
      Lookup(Nested(m), path) == Some(v) &&
      (c == [] <==> Free(dest, path)) &&
      forall q :: Diverge(q, path) ==> Lookup(Nested(m), q) == Lookup(Nested(dest), q)
    decreases |path|
  {
    var k := path[0];
    var rest := path[1..];
    var sv := NestNode(rest, v);
    var (m, c) := MergeEntry(dest, pre, k, sv);
    var mk: Node<V>;
    match Get(dest, k) {
      case None =>
        mk := sv;
      case Some(dv) =>
        if dv.Nested? && sv.Nested? {
          assert rest != [];
          assert sv.entries == [(rest[0], NestNode(rest[1..], v))];
          var (d1, c1) := MergeEntry(dv.entries, pre + [k], rest[0], NestNode(rest[1..], v));
          assert MergeFrom(d1, pre + [k], sv, 1) == (d1, []);
          assert c1 + [] == c1;
          assert MergeFrom(dv.entries, pre + [k], sv, 0) == (d1, c1);
          MergePath(dv.entries, pre + [k], rest, v);
          mk := Nested(d1);
        } else {
          mk := sv;
        }
    }
    assert m == Assign(dest, k, mk);
    GetAssign(dest, k, mk, k);
    LookupNest(rest, v, rest);
    forall q' | Diverge(q', rest) ensures Lookup(mk, q') == Lookup(Nested(dest), [k] + q') {
      LookupUnder(dest, k, q');
      if mk == sv {
        LookupNest(rest, v, q');
      }
    }
    forall q | Diverge(q, path) ensures Lookup(Nested(m), q) == Lookup(Nested(dest), q) {
      AssignKeepsOthers(dest, path, mk, q);
    }
  }

  /** Below a key, a dict holds what the entry of that key holds. */
  lemma LookupUnder<V>(dest: Entries<V>, k: string, q: seq<string>)
    ensures Lookup(Nested(dest), [k] + q) ==
      match Get(dest, k) case None => None case Some(c) => Lookup(c, q)
  {
    assert ([k] + q)[0] == k && ([k] + q)[1..] == q;
  }

  /** Replacing the entry of `path[0]` by one that agrees off `path` leaves
      every path that parts from `path` as it was. */
  lemma AssignKeepsOthers<V>(dest: Entries<V>, path: seq<string>, mk: Node<V>, q: seq<string>)
    requires path != [] && Diverge(q, path)
    requires forall q' :: Diverge(q', path[1..]) ==> Lookup(mk, q') == Lookup(Nested(dest), [path[0]] + q')
    ensures Lookup(Nested(Assign(dest, path[0], mk)), q) == Lookup(Nested(dest), q)
  {
    var k := path[0];
    var i :| 0 <= i < |q| && i < |path| && q[i] != path[i];
    GetAssign(dest, k, mk, q[0]);
    if q[0] == k {
      assert q[1..][i - 1] != path[1..][i - 1];
      assert [k] + q[1..] == q;
    }
  }

  /** What `run` relies on: `config_merge(params, {"core": {...: {"out_path":
      dir}}})` sets the output path, keeps every other value -- the sibling
      entries under `core` included -- and reports nothing unless the grid
      already set a value on that path. */
  lemma MergeSetsPath<V>(dest: Entries<V>, path: seq<string>, v: V)
    requires path != []
    ensures var (m, c) := Merge(dest, [(path[0], NestNode(path[1..], v))]);
      Lookup(Nested(m), path) == Some(v) &&
      (c == [] <==> Free(dest, path)) &&
      forall q :: Diverge(q, path) ==> Lookup(Nested(m), q) == Lookup(Nested(dest), q)
  {
    var src := Nested([(path[0], NestNode(path[1..], v))]);
    var (d1, c1) := MergeEntry(dest, [], path[0], NestNode(path[1..], v));
    assert MergeFrom(d1, [], src, 1) == (d1, []);
    assert c1 + [] == c1;
    MergePath(dest, [], path, v);
  }

  /** A free path holds no value yet: a grid that itself sets the path
      makes the merge report a conflict. */
  lemma {:induction false} FreeMeansUnset<V>(d: Entries<V>, path: seq<string>)
    requires path != [] && Free(d, path)
    ensures Lookup(Nested(d), path) == None
    decreases |path|
  {
    match Get(d, path[0]) {
      case None =>
      case Some(c) =>
        FreeMeansUnset(c.entries, path[1..]);
    }
  }
}
