/** The nested-key codec of snakemake_helper/vr_experiment.py (and its copies
    in ve_experiment.py and the legacy snakemake_helper.py): `_flatten_dict`
    turns `{'a': {'b': 1}}` into `{'a.b': 1}` and `_unflatten_dict` goes back. */
module KeyPath {
  import opened Wrappers
  import opened OrderedDict
  import opened Text

  /** A value in a nested parameter dict: a plain value, or a further dict. */
  datatype Node<V> = Leaf(value: V) | Nested(entries: Dict<string, Node<V>>)

  type Entries<V> = Dict<string, Node<V>>

  /** A flat dict, keyed by dot-joined paths. */
  type Flat<V> = Dict<string, V>

  /** The text of a nested path, as the flattened keys spell it. */
  function JoinKey(path: seq<string>): string {
    if path == [] then "" else Join(path, '.')
  }

  function Qualify(prefix: Option<string>, key: string): string {
    match prefix
    case None => key
    case Some(p) => p + "." + key
  }

  // ---------------------------------------------------------------------------
  // Flattening

  /** What `_flatten_dict_inner(out, key_prefix, value)` leaves in `out`. */
  function FlattenInto<V>(out: Flat<V>, keyPrefix: string, value: Node<V>): Flat<V>
    decreases value, 1
  {
    match value
    case Leaf(v) => Assign(out, keyPrefix, v)
    case Nested(_) => FlattenFrom(out, Some(keyPrefix), value, 0)
  }

  /** The entries of `node` from index `i` on, flattened into `out` in order;
      `prefix` is None at the top level, where keys are used as they are. */
  function FlattenFrom<V>(out: Flat<V>, prefix: Option<string>, node: Node<V>, i: nat): Flat<V>
    requires node.Nested? && i <= |node.entries|
    decreases node, 0, |node.entries| - i
  {
    if i == |node.entries| then out
    else
      var (k, child) := node.entries[i];
      FlattenFrom(FlattenInto(out, Qualify(prefix, k), child), prefix, node, i + 1)
  }

  /** `_flatten_dict(d)`. */
  function Flatten<V>(d: Entries<V>): Flat<V> {
    FlattenFrom([], None, Nested(d), 0)
  }

  /** `_flatten_dict`: a loop over the top-level items. */
  method FlattenDict<V>(d: Entries<V>) returns (out: Flat<V>)
    ensures out == Flatten(d)
  {
    out := [];
    for i := 0 to |d|
      invariant FlattenFrom(out, None, Nested(d), i) == Flatten(d)
    {
      out := FlattenDictInner(out, d[i].0, d[i].1);
    }
  }

  /** `_flatten_dict_inner`: recurses into sub-dicts, writes leaves into `out`. */
  method FlattenDictInner<V>(out0: Flat<V>, keyPrefix: string, value: Node<V>) returns (out: Flat<V>)
    ensures out == FlattenInto(out0, keyPrefix, value)
    decreases value
  {
    match value
    case Leaf(v) =>
      out := Assign(out0, keyPrefix, v);
    case Nested(es) =>
      out := out0;
      for i := 0 to |es|
        invariant FlattenFrom(out, Some(keyPrefix), value, i) == FlattenInto(out0, keyPrefix, value)
      {
        out := FlattenDictInner(out, keyPrefix + "." + es[i].0, es[i].1);
      }
  }

  // ---------------------------------------------------------------------------
  // The leaves of a nested dict, depth first: an independent description of
  // what flattening produces

  /** (path, value) for each non-dict value under `n`, in depth-first order. */
  function NodeLeaves<V>(n: Node<V>): seq<(seq<string>, V)>
    decreases n, 1
  {
    match n
    case Leaf(v) => [([], v)]
    case Nested(_) => LeavesFrom(n, 0)
  }

  function LeavesFrom<V>(n: Node<V>, i: nat): seq<(seq<string>, V)>
    requires n.Nested? && i <= |n.entries|
    decreases n, 0, |n.entries| - i
  {
    if i == |n.entries| then []
    else Prefixed(n.entries[i].0, NodeLeaves(n.entries[i].1)) + LeavesFrom(n, i + 1)
  }

  function Prefixed<V>(k: string, ls: seq<(seq<string>, V)>): (r: seq<(seq<string>, V)>)
    ensures |r| == |ls|
  {
    seq(|ls|, j requires 0 <= j < |ls| => ([k] + ls[j].0, ls[j].1))
  }

  function Leaves<V>(d: Entries<V>): seq<(seq<string>, V)> {
    LeavesFrom(Nested(d), 0)
  }

  /** Each leaf keyed by the dot-joined text of `pp` followed by its path. */
  function Keyed<V>(pp: seq<string>, ls: seq<(seq<string>, V)>): (r: Flat<V>)
    ensures |r| == |ls|
  {
    seq(|ls|, j requires 0 <= j < |ls| => (JoinKey(pp + ls[j].0), ls[j].1))
  }

  lemma KeyedConcat<V>(pp: seq<string>, a: seq<(seq<string>, V)>, b: seq<(seq<string>, V)>)
    ensures Keyed(pp, a + b) == Keyed(pp, a) + Keyed(pp, b)
  {
  }

  lemma KeyedPrefixed<V>(pp: seq<string>, k: string, ls: seq<(seq<string>, V)>)
    ensures Keyed(pp, Prefixed(k, ls)) == Keyed(pp + [k], ls)
  {
    forall j | 0 <= j < |ls| ensures pp + ([k] + ls[j].0) == pp + [k] + ls[j].0 {
    }
  }

  lemma QualifyJoin(pp: seq<string>, k: string)
    ensures Qualify(if pp == [] then None else Some(JoinKey(pp)), k) == JoinKey(pp + [k])
  {
    if pp != [] {
      JoinSnoc(pp, k, '.');
    } else {
      assert pp + [k] == [k];
    }
  }

  /** `_flatten_dict_inner` stores each non-dict value found under the
      prefix path `pp` under the dot-joined text of its whole path. */
  lemma {:induction false} FlattenIntoLeaves<V>(out: Flat<V>, pp: seq<string>, value: Node<V>)
    requires |pp| >= 1
    ensures FlattenInto(out, JoinKey(pp), value) == AssignAll(out, Keyed(pp, NodeLeaves(value)))
    decreases value, 1
  {
    match value
    case Leaf(v) =>
      assert pp + [] == pp;
      assert Keyed(pp, NodeLeaves(value)) == [(JoinKey(pp), v)];
    case Nested(_) =>
      FlattenFromLeaves(out, pp, value, 0);
  }

  lemma {:induction false} FlattenFromLeaves<V>(out: Flat<V>, pp: seq<string>, node: Node<V>, i: nat)
    requires node.Nested? && i <= |node.entries|
    ensures FlattenFrom(out, if pp == [] then None else Some(JoinKey(pp)), node, i)
         == AssignAll(out, Keyed(pp, LeavesFrom(node, i)))
    decreases node, 0, |node.entries| - i
  {
    if i < |node.entries| {
      var prefix := if pp == [] then None else Some(JoinKey(pp));
      var (k, child) := node.entries[i];
      QualifyJoin(pp, k);
      FlattenIntoLeaves(out, pp + [k], child);
      var out1 := FlattenInto(out, Qualify(prefix, k), child);
      FlattenFromLeaves(out1, pp, node, i + 1);
      FlattenFromStep(out, pp, node, i, out1);
    }
  }

  /** One entry of the loop in `_flatten_dict`: writing the entry's leaves and
      then the later entries' leaves writes the leaves from this entry on. */
  lemma FlattenFromStep<V>(out: Flat<V>, pp: seq<string>, node: Node<V>, i: nat, out1: Flat<V>)
    requires node.Nested? && i < |node.entries|
    requires out1 == AssignAll(out, Keyed(pp + [node.entries[i].0], NodeLeaves(node.entries[i].1)))
    requires out1 == FlattenInto(out, Qualify(if pp == [] then None else Some(JoinKey(pp)), node.entries[i].0), node.entries[i].1)
    requires FlattenFrom(out1, if pp == [] then None else Some(JoinKey(pp)), node, i + 1)
          == AssignAll(out1, Keyed(pp, LeavesFrom(node, i + 1)))
    ensures FlattenFrom(out, if pp == [] then None else Some(JoinKey(pp)), node, i)
         == AssignAll(out, Keyed(pp, LeavesFrom(node, i)))
  {
    var prefix := if pp == [] then None else Some(JoinKey(pp));
    var (k, child) := node.entries[i];
    assert FlattenFrom(out, prefix, node, i) == FlattenFrom(out1, prefix, node, i + 1);
    var here, later := Prefixed(k, NodeLeaves(child)), LeavesFrom(node, i + 1);
    assert LeavesFrom(node, i) == here + later;
    KeyedPrefixed(pp, k, NodeLeaves(child));
    KeyedConcat(pp, here, later);
    AssignAllConcat(out, Keyed(pp, here), Keyed(pp, later));
  }

  /** `_flatten_dict` maps each non-dict value at nested path k1, ..., kn to the
      key "k1.....kn", writing the leaves in depth-first order: dicts never
      appear as values, and an empty sub-dict contributes no key. */
  lemma FlattenIsLeafAssignment<V>(d: Entries<V>)
    ensures Flatten(d) == AssignAll([], Keyed([], Leaves(d)))
  {
    FlattenFromLeaves([], [], Nested(d), 0);
  }

  // ---------------------------------------------------------------------------
  // Unflattening, as written: each key builds a single-path dict that is
  // merged into the result at the TOP LEVEL only (`out |= cur_dict`)

  /** The single-path dict `{p1: {p2: ... {pn: v}}}`. */
  function NestNode<V>(parts: seq<string>, v: V): Node<V> {
    if parts == [] then Leaf(v) else Nested([(parts[0], NestNode(parts[1..], v))])
  }

  /** One round of the loop in `_unflatten_dict`. */
  function UnflattenStep<V>(out: Entries<V>, key: string, v: V): Entries<V> {
    var parts := Split(key, '.');
    AssignAll(out, [(parts[0], NestNode(parts[1..], v))])
  }

  function UnflattenFrom<V>(out: Entries<V>, d: Flat<V>, i: nat): Entries<V>
    requires i <= |d|
    decreases |d| - i
  {
    if i == |d| then out else UnflattenFrom(UnflattenStep(out, d[i].0, d[i].1), d, i + 1)
  }

  /** `_unflatten_dict(d)`. */
  function Unflatten<V>(d: Flat<V>): Entries<V> {
    UnflattenFrom([], d, 0)
  }

  /** `_unflatten_dict`: split each key on ".", build the single-path dict from
      the innermost part outward, and merge it in with `out |= cur_dict`. */
  method UnflattenDict<V>(d: Flat<V>) returns (out: Entries<V>)
    ensures out == Unflatten(d)
  {
    out := [];
    for i := 0 to |d|
      invariant UnflattenFrom(out, d, i) == Unflatten(d)
    {
      var (key, value) := d[i];
      var keyParts := Split(key, '.');
      var j := |keyParts| - 1;
      var curDict := [(keyParts[j], Leaf(value))];
      while j > 0
        invariant 0 <= j < |keyParts|
        invariant Nested(curDict) == NestNode(keyParts[j..], value)
      {
        j := j - 1;
        assert keyParts[j..][1..] == keyParts[j + 1..];
        curDict := [(keyParts[j], Nested(curDict))];
      }
      assert keyParts[0..] == keyParts;
      out := AssignAll(out, curDict);
    }
  }

  /** The pair each key contributes at the top level: its first segment, and
      the single-path dict for the rest. */
  function TopPairs<V>(d: Flat<V>): (r: Entries<V>)
    ensures |r| == |d|
  {
    seq(|d|, i requires 0 <= i < |d| =>
      var parts := Split(d[i].0, '.'); (parts[0], NestNode(parts[1..], d[i].1)))
  }

  lemma {:induction false} UnflattenFromTopPairs<V>(out: Entries<V>, d: Flat<V>, i: nat)
    requires i <= |d|
    ensures UnflattenFrom(out, d, i) == AssignAll(out, TopPairs(d)[i..])
    decreases |d| - i
  {
    if i < |d| {
      var p := TopPairs(d)[i];
      AssignAllSingle(out, p);
      UnflattenFromTopPairs(Assign(out, p.0, p.1), d, i + 1);
      assert TopPairs(d)[i..] == [p] + TopPairs(d)[i + 1..];
      assert TopPairs(d)[i..][1..] == TopPairs(d)[i + 1..];
    }
  }

  /** `_unflatten_dict` is a sequence of top-level assignments: each key
      assigns its first segment the single-path dict for the rest. */
  lemma UnflattenIsTopLevelAssignment<V>(d: Flat<V>)
    ensures Unflatten(d) == AssignAll([], TopPairs(d))
  {
    UnflattenFromTopPairs([], d, 0);
    assert TopPairs(d)[0..] == TopPairs(d);
  }

  /** Merging is top-level only: under a first segment `k`, the result holds
      only the path of the LAST key that starts with `k`; the subtrees of
      earlier keys with that first segment are replaced, not merged. */
  lemma UnflattenLastWins<V>(d: Flat<V>, i: nat, k: string)
    requires i < |d| && Split(d[i].0, '.')[0] == k
    requires forall j :: i < j < |d| ==> Split(d[j].0, '.')[0] != k
    ensures Get(Unflatten(d), k) == Some(NestNode(Split(d[i].0, '.')[1..], d[i].1))
  {
    UnflattenIsTopLevelAssignment(d);
    GetAssignAllLast([], TopPairs(d), i, k);
  }

  /** The documented example `_unflatten_dict({'a.b': 1}) == {'a': {'b': 1}}`,
      for any value in place of 1. */
  lemma UnflattenExample<V>(v: V)
    ensures Unflatten([("a.b", v)]) == [("a", Nested([("b", Leaf(v))]))]
  {
    var d := [("a.b", v)];
    assert Split("a.b", '.') == ["a", "b"] by { SplitJoin(["a", "b"], '.'); }
    assert NestNode(["b"], v) == Nested([("b", Leaf(v))]);
    assert TopPairs(d) == [("a", Nested([("b", Leaf(v))]))];
    UnflattenIsTopLevelAssignment(d);
  }

  /** The documented example `_flatten_dict({'a': {'b': 1}}) == {'a.b': 1}`,
      for any value in place of 1. */
  lemma FlattenExample<V>(v: V)
    ensures Flatten([("a", Nested([("b", Leaf(v))]))]) == [("a.b", v)]
  {
    var inner := Nested([("b", Leaf(v))]);
    var top := Nested([("a", inner)]);
    assert Qualify(Some("a"), "b") == "a.b";
    assert FlattenFrom([("a.b", v)], Some("a"), inner, 1) == [("a.b", v)];
    assert FlattenInto([], "a.b", Leaf(v)) == [("a.b", v)];
    assert FlattenFrom([], Some("a"), inner, 0) == [("a.b", v)];
    assert FlattenInto([], "a", inner) == [("a.b", v)];
    assert FlattenFrom([("a.b", v)], None, top, 1) == [("a.b", v)];
  }

  /** Two keys with one first segment: the later one wins the whole subtree,
      `_unflatten_dict({'a.b': 1, 'a.c': 2}) == {'a': {'c': 2}}`. */
  lemma UnflattenSharedPrefix()
    ensures Unflatten([("a.b", 1), ("a.c", 2)]) == [("a", Nested([("c", Leaf(2))]))]
  {
    var d := [("a.b", 1), ("a.c", 2)];
    SharedPrefixText();
    SplitPair("a", "b", '.');
    SplitPair("a", "c", '.');
    assert NestNode(["b"], 1) == Nested([("b", Leaf(1))]);
    assert NestNode(["c"], 2) == Nested([("c", Leaf(2))]);
    var t := TopPairs(d);
    assert t[0] == ("a", Nested([("b", Leaf(1))]));
    assert t[1] == ("a", Nested([("c", Leaf(2))]));
    UnflattenIsTopLevelAssignment(d);
    assert AssignAll([], t) == AssignAll([t[0]], t[1..]);
    assert t[1..] == [t[1]];
    AssignAllSingle([t[0]], t[1]);
  }

  lemma SharedPrefixText()
    ensures "a.b" == "a" + ['.'] + "b" && "a.c" == "a" + ['.'] + "c"
    ensures '.' !in "a" && '.' !in "b" && '.' !in "c"
  {
  }

  /** Two words free of `sep`, joined by it, split back into themselves. */
  lemma SplitPair(x: string, y: string, sep: char)
    requires sep !in x && sep !in y
    ensures Split(x + [sep] + y, sep) == [x, y]
  {
    var parts := [x, y];
    assert parts[1..] == [y];
    assert Join(parts, sep) == x + [sep] + y;
    SplitJoin(parts, sep);
  }

  /** So a dict with two leaves under one top-level key does not survive the
      round trip: `{'a': {'b': 1, 'c': 2}}` comes back as `{'a': {'c': 2}}`. */
  lemma RoundTripLosesSiblings()
    ensures var x := [("a", Nested([("b", Leaf(1)), ("c", Leaf(2))]))];
            Unflatten(Flatten(x)) != x
  {
    var x := [("a", Nested([("b", Leaf(1)), ("c", Leaf(2))]))];
    assert JoinKey(["a", "b"]) == "a.b";
    assert JoinKey(["a", "c"]) == "a.c";
    FlattenIsLeafAssignment(x);
    var inner := Nested([("b", Leaf(1)), ("c", Leaf(2))]);
    assert LeavesFrom(inner, 2) == [];
    assert NodeLeaves(Leaf(1)) == [([], 1)] && NodeLeaves(Leaf(2)) == [([], 2)];
    assert ["b"] + [] == ["b"] && ["c"] + [] == ["c"];
    assert Prefixed("c", [([], 2)])[0] == (["c"], 2);
    assert Prefixed("b", [([], 1)])[0] == (["b"], 1);
    assert LeavesFrom(inner, 1) == [(["c"], 2)];
    assert LeavesFrom(inner, 0) == [(["b"], 1), (["c"], 2)];
    assert ["a"] + ["b"] == ["a", "b"] && ["a"] + ["c"] == ["a", "c"];
    assert Prefixed("a", [(["b"], 1), (["c"], 2)])[0] == (["a", "b"], 1);
    assert Prefixed("a", [(["b"], 1), (["c"], 2)])[1] == (["a", "c"], 2);
    assert NodeLeaves(inner) == [(["b"], 1), (["c"], 2)];
    assert LeavesFrom(Nested(x), 1) == [];
    assert Leaves(x) == [(["a", "b"], 1), (["a", "c"], 2)];
    assert Flatten(x) == [("a.b", 1), ("a.c", 2)];
    UnflattenSharedPrefix();
  }

  // ---------------------------------------------------------------------------
  // When the round trip holds

  /** No key at any depth contains ".". */
  predicate NoDottedKeys<V>(n: Node<V>) {
    match n
    case Leaf(_) => true
    case Nested(es) => forall i :: 0 <= i < |es| ==> '.' !in es[i].0 && NoDottedKeys(es[i].1)
  }

  /** No dict at any depth (this one included) is empty. */
  predicate NoEmptyDicts<V>(n: Node<V>) {
    match n
    case Leaf(_) => true
    case Nested(es) => es != [] && forall i :: 0 <= i < |es| ==> NoEmptyDicts(es[i].1)
  }

  /** A single path of one-entry dicts down to one leaf. */
  predicate IsChain<V>(n: Node<V>) {
    match n
    case Leaf(_) => true
    case Nested(es) => |es| == 1 && IsChain(es[0].1)
  }

  function ChainPath<V>(n: Node<V>): seq<string>
    requires IsChain(n)
  {
    match n
    case Leaf(_) => []
    case Nested(es) => [es[0].0] + ChainPath(es[0].1)
  }

  function ChainValue<V>(n: Node<V>): V
    requires IsChain(n)
  {
    match n
    case Leaf(v) => v
    case Nested(es) => ChainValue(es[0].1)
  }

  lemma {:induction false} LeavesFromAtLeast<V>(n: Node<V>, i: nat)
    requires n.Nested? && i <= |n.entries|
    requires forall j :: 0 <= j < |n.entries| ==> NoEmptyDicts(n.entries[j].1)
    ensures |LeavesFrom(n, i)| >= |n.entries| - i
    decreases n, 0, |n.entries| - i
  {
    if i < |n.entries| {
      NodeHasLeaf(n.entries[i].1);
      LeavesFromAtLeast(n, i + 1);
    }
  }

  lemma {:induction false} NodeHasLeaf<V>(n: Node<V>)
    requires NoEmptyDicts(n)
    ensures |NodeLeaves(n)| >= 1
    decreases n, 1
  {
    if n.Nested? {
      LeavesFromAtLeast(n, 0);
    }
  }

  /** A node without empty dicts and with at most one leaf is a chain. */
  lemma {:induction false} SingleLeafIsChain<V>(n: Node<V>)
    requires NoEmptyDicts(n) && |NodeLeaves(n)| <= 1
    ensures IsChain(n)
  {
    if n.Nested? {
      var es := n.entries;
      NodeHasLeaf(es[0].1);
      LeavesFromAtLeast(n, 1);
      assert |LeavesFrom(n, 0)| == |NodeLeaves(es[0].1)| + |LeavesFrom(n, 1)|;
      SingleLeafIsChain(es[0].1);
    }
  }

  lemma {:induction false} ChainLeaves<V>(n: Node<V>)
    requires IsChain(n)
    ensures NodeLeaves(n) == [(ChainPath(n), ChainValue(n))]
  {
    if n.Nested? {
      var (k, c) := n.entries[0];
      ChainLeaves(c);
      assert LeavesFrom(n, 1) == [];
      assert Prefixed(k, [(ChainPath(c), ChainValue(c))])[0] == ([k] + ChainPath(c), ChainValue(c));
    }
  }

  lemma {:induction false} NestChain<V>(n: Node<V>)
    requires IsChain(n)
    ensures NestNode(ChainPath(n), ChainValue(n)) == n
  {
    if n.Nested? {
      NestChain(n.entries[0].1);
      assert ChainPath(n)[1..] == ChainPath(n.entries[0].1);
      assert n.entries == [n.entries[0]];
    }
  }

  lemma {:induction false} ChainPathNoDots<V>(n: Node<V>)
    requires IsChain(n) && NoDottedKeys(n)
    ensures NoSep(ChainPath(n), '.')
  {
    if n.Nested? {
      ChainPathNoDots(n.entries[0].1);
    }
  }

  /** The (path, value) of each top-level chain. */
  function ChainPairs<V>(x: Entries<V>): (r: seq<(seq<string>, V)>)
    requires forall i :: 0 <= i < |x| ==> IsChain(x[i].1)
    ensures |r| == |x|
  {
    seq(|x|, i requires 0 <= i < |x| => ([x[i].0] + ChainPath(x[i].1), ChainValue(x[i].1)))
  }

  lemma {:induction false} ChainsLeavesFrom<V>(x: Entries<V>, i: nat)
    requires i <= |x| && forall j :: 0 <= j < |x| ==> IsChain(x[j].1)
    ensures LeavesFrom(Nested(x), i) == ChainPairs(x)[i..]
    decreases |x| - i
  {
    if i < |x| {
      ChainsLeavesFrom(x, i + 1);
      ChainLeaves(x[i].1);
      var c := x[i].1;
      assert Prefixed(x[i].0, [(ChainPath(c), ChainValue(c))]) == [ChainPairs(x)[i]];
      assert ChainPairs(x)[i..] == [ChainPairs(x)[i]] + ChainPairs(x)[i + 1..];
    }
  }

  /** `_unflatten_dict(_flatten_dict(x)) == x` when no key contains ".", no
      sub-dict is empty, and each top-level entry has at most one leaf. */
  lemma RoundTrip<V>(x: Entries<V>)
    requires UniqueKeys(x)
    requires NoDottedKeys(Nested(x))
    requires forall i :: 0 <= i < |x| ==> NoEmptyDicts(x[i].1) && |NodeLeaves(x[i].1)| <= 1
    ensures Unflatten(Flatten(x)) == x
  {
    forall i | 0 <= i < |x| ensures IsChain(x[i].1) && NoSep([x[i].0] + ChainPath(x[i].1), '.') {
      SingleLeafIsChain(x[i].1);
      ChainPathNoDots(x[i].1);
    }
    var cp := ChainPairs(x);
    ChainsLeavesFrom(x, 0);
    assert cp[0..] == cp;
    FlattenIsLeafAssignment(x);
    var pairs := Keyed([], cp);
    forall i | 0 <= i < |x| ensures pairs[i].0 == Join(cp[i].0, '.') {
      assert [] + cp[i].0 == cp[i].0;
    }
    assert UniqueKeys(pairs) by {
      forall i, j | 0 <= i < j < |pairs| ensures pairs[i].0 != pairs[j].0 {
        JoinInjective(cp[i].0, cp[j].0, '.');
        assert cp[i].0[0] == x[i].0 && cp[j].0[0] == x[j].0;
      }
    }
    assert [] + pairs == pairs;
    AssignAllFresh([], pairs);
    assert Flatten(x) == pairs;
    forall i | 0 <= i < |x| ensures TopPairs(pairs)[i] == x[i] {
      SplitJoin(cp[i].0, '.');
      assert Split(pairs[i].0, '.') == [x[i].0] + ChainPath(x[i].1);
      NestChain(x[i].1);
      assert ([x[i].0] + ChainPath(x[i].1))[1..] == ChainPath(x[i].1);
    }
    assert TopPairs(pairs) == x;
    UnflattenIsTopLevelAssignment(pairs);
    assert [] + x == x;
    AssignAllFresh([], x);
  }
}
