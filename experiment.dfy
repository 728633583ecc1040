/** `VEExperiment` and its helpers (snakemake_helper/ve_experiment.py; the
    file vr_experiment.py is the same code under the older class name): the
    output-path template with one Snakemake wildcard per parameter, the
    parameter set for every output directory, and the checks `run` makes
    before it starts a simulation. */
module Experiment {
  import opened Wrappers
  import opened OrderedDict
  import opened Text
  import opened KeySort
  import opened KeyPath
  import opened ParamGrid
  import opened ConfigMerge

  // ---------------------------------------------------------------------------
  // `_permute_parameter_grid`

  /** Every combination of one value per key, keys in sorted order and the
      last key varying fastest; nothing at all for an empty grid. */
  function Permute<V>(p: SubGrid<V>): seq<Params<V>> {
    if p == [] then [] else SubEnumerate(p)
  }

  /** There are as many combinations as the product of the value counts,
      except that an empty grid gives none (where `ParameterGrid` gives one
      empty dict); each combination has every key once, in sorted order,
      with a value from that key's list. */
  lemma PermuteYields<V>(p: SubGrid<V>, i: nat)
    ensures |Permute(p)| == if p == [] then 0 else Width(Values(p))
    ensures p == [] ==> Enumerate([p]) == [[]]
    ensures i < |Permute(p)| ==>
      |Permute(p)[i]| == |p| &&
      forall j :: 0 <= j < |p| ==>
        Permute(p)[i][j].0 == SortedItems(p)[j].0 && Permute(p)[i][j].1 in SortedItems(p)[j].1
  {
    if p != [] {
      WidthSort(p);
      if i < |Permute(p)| {
        SubEnumerateShape(p, i);
      }
    } else {
      var g: Grid<V> := [p];
      assert g[1..] == [];
    }
  }

  /** The documented example: `{'a': range(2), 'b': range(3)}` gives the six
      combinations with `b` varying fastest. */
  lemma PermuteExample()
    ensures Permute([("a", [0, 1]), ("b", [0, 1, 2])]) == [
      [("a", 0), ("b", 0)], [("a", 0), ("b", 1)], [("a", 0), ("b", 2)],
      [("a", 1), ("b", 0)], [("a", 1), ("b", 1)], [("a", 1), ("b", 2)]]
  {
    var p: SubGrid<int> := [("a", [0, 1]), ("b", [0, 1, 2])];
    TwoKeySorted(p);
    var vs := [[0, 1], [0, 1, 2]];
    assert Values(p) == vs;
    assert Keys(p) == ["a", "b"];
    RangeProduct();
    var e := Permute(p);
    assert |e| == 6;
    forall i | 0 <= i < 6
      ensures e[i] == [("a", Product(vs)[i][0]), ("b", Product(vs)[i][1])]
    {
      ProductMembers(vs, i);
      var z := Zip(["a", "b"], Product(vs)[i]);
      assert z[0] == ("a", Product(vs)[i][0]) && z[1] == ("b", Product(vs)[i][1]);
    }
  }

  lemma RangeProduct()
    ensures Product([[0, 1], [0, 1, 2]]) ==
      [[0, 0], [0, 1], [0, 2], [1, 0], [1, 1], [1, 2]]
  {
    var vs: seq<seq<int>> := [[0, 1], [0, 1, 2]];
    assert vs[..1] == [[0, 1]] && vs[..1][..0] == [];
    var p1 := Extend<int>([[]], [0, 1]);
    assert p1[0] == [0] && p1[1] == [1];
    var p2 := Extend(p1, [0, 1, 2]);
    assert p2[0] == [0, 0] && p2[1] == [0, 1] && p2[2] == [0, 2];
    assert p2[3] == [1, 0] && p2[4] == [1, 1] && p2[5] == [1, 2];
  }

  // ---------------------------------------------------------------------------
  // Paths and the output-path template

  /** A file-system path as its components; `[]` is the current directory. */
  type Path = seq<string>

  /** `Path(p).parent`. */
  function Parent(p: Path): Path {
    if p == [] then [] else p[..|p| - 1]
  }

  /** `Path(p).name`. */
  function Name(p: Path): string {
    if p == [] then "" else p[|p| - 1]
  }

  /** `str(p)`. */
  function PathText(p: Path): string {
    if p == [] then "." else Join(p, '/')
  }

  /** A component of the template: plain text, or text followed by a
      `{name}` placeholder for `str.format` (and a wildcard for Snakemake). */
  datatype Segment = Fixed(text: string) | Field(prefix: string, name: string)

  type Template = seq<Segment>

  /** The text of a component as it stands in the template string. */
  function Spell(s: Segment): string {
    match s
    case Fixed(t) => t
    case Field(prefix, name) => prefix + "{" + name + "}"
  }

  function SpellAll(t: Template): Path {
    seq(|t|, i requires 0 <= i < |t| => Spell(t[i]))
  }

  /** `f"{name}_{{{name.replace('.', '_')}}}"`. */
  function Wildcard(name: string): Segment {
    Field(name + "_", Replace(name, '.', '_'))
  }

  function Literal(root: Path): (t: Template)
  {
    seq(|root|, i requires 0 <= i < |root| => Fixed(root[i]))
  }

  /** One wildcard component per name, in the order given. */
  function Wildcards(names: seq<string>): (t: Template)
  {
    seq(|names|, i requires 0 <= i < |names| => Wildcard(names[i]))
  }

  lemma WildcardsSnoc(names: seq<string>, i: nat)
    requires i < |names|
    ensures Wildcards(names[..i + 1]) == Wildcards(names[..i]) + [Wildcard(names[i])]
  {
  }

  function Id(s: string): string {
    s
  }

  /** The root followed by one wildcard component per name, in sorted order. */
  function WildcardTemplate(root: Path, names: seq<string>): Template {
    Literal(root) + Wildcards(Sort(names, Id))
  }

  /** `_get_outpath_with_wildcards`. */
  method GetOutpathWithWildcards(root: Path, names: seq<string>) returns (outpath: Template)
    ensures outpath == WildcardTemplate(root, names)
  {
    outpath := Literal(root);
    var sorted := Sort(names, Id);
    for i := 0 to |sorted|
      invariant outpath == Literal(root) + Wildcards(sorted[..i])
    {
      WildcardsSnoc(sorted, i);
      outpath := outpath + [Wildcard(sorted[i])];
    }
    assert sorted[..|sorted|] == sorted;
  }

  /** The template keeps the root and then has one wildcard per name: the
      names read off the wildcards are the given names, each once, in
      strictly increasing order. */
  lemma WildcardTemplateShape(root: Path, names: seq<string>)
    requires DistinctKeys(names, Id)
    ensures var t := WildcardTemplate(root, names);
      var sorted := Sort(names, Id);
      |t| == |root| + |names| && SpellAll(t)[..|root|] == root &&
      (forall x :: 0 <= x < |names| ==> t[|root| + x] == Wildcard(sorted[x])) &&
      multiset(sorted) == multiset(names) && StrictlySorted(sorted, Id)
  {
    SortSorted(names, Id);
    WildcardTemplateRoot(root, names);
    WildcardTemplateAt(root, names);
  }

  lemma WildcardTemplateAt(root: Path, names: seq<string>)
    ensures var t := WildcardTemplate(root, names);
      |t| == |root| + |names| &&
      forall x :: 0 <= x < |names| ==> t[|root| + x] == Wildcard(Sort(names, Id)[x])
  {
    var sorted := Sort(names, Id);
    var l, w := Literal(root), Wildcards(sorted);
    assert |l| == |root| && |w| == |sorted| == |names|;
    forall x | 0 <= x < |names| ensures (l + w)[|root| + x] == Wildcard(sorted[x]) {
      assert w[x] == Wildcard(sorted[x]);
    }
  }

  lemma WildcardTemplateRoot(root: Path, names: seq<string>)
    ensures SpellAll(WildcardTemplate(root, names))[..|root|] == root
  {
    var t := WildcardTemplate(root, names);
    var s := SpellAll(t);
    forall i | 0 <= i < |root| ensures s[i] == root[i] {
      assert t[i] == Fixed(root[i]);
    }
  }

  /** Where an element of `Sort(names)` came from. */
  lemma SortedFrom(names: seq<string>, sorted: seq<string>, x: nat) returns (j: nat)
    requires sorted == Sort(names, Id) && x < |sorted|
    ensures j < |names| && names[j] == sorted[x]
  {
    assert sorted[x] in multiset(names);
    j :| 0 <= j < |names| && names[j] == sorted[x];
  }

  /** The template does not depend on the order in which the dict holds its
      parameters. */
  lemma TemplateIgnoresOrder(root: Path, a: seq<string>, b: seq<string>)
    requires DistinctKeys(a, Id) && multiset(a) == multiset(b)
    ensures WildcardTemplate(root, a) == WildcardTemplate(root, b)
  {
    SortIgnoresOrder(a, b, Id);
  }

  /** `_get_outpath_with_wildcards("out", ("core.param1", "core.param2"))`
      is `out/core.param1_{core_param1}/core.param2_{core_param2}`. */
  lemma OutpathExample()
    ensures SpellAll(WildcardTemplate(["out"], ["core.param1", "core.param2"])) ==
      ["out", "core.param1_{core_param1}", "core.param2_{core_param2}"]
  {
    CoreParamsOrdered();
    SpellCoreParam1();
    SpellCoreParam2();
    TwoNames(["out"], "core.param1", "core.param2",
      "core.param1_{core_param1}", "core.param2_{core_param2}");
    RootThenTwo("out", "core.param1_{core_param1}", "core.param2_{core_param2}");
  }

  lemma RootThenTwo<T>(a: T, b: T, c: T)
    ensures [a] + [b, c] == [a, b, c]
  {
  }

  lemma CoreParamsOrdered()
    ensures Less("core.param1", "core.param2")
  {
    CoreParamsText();
    LessPrefix("core.param", "1", "2");
  }

  lemma CoreParamsText()
    ensures "core.param1" == "core.param" + "1" && "core.param2" == "core.param" + "2"
  {
  }

  lemma SpellCoreParam1()
    ensures Spell(Wildcard("core.param1")) == "core.param1_{core_param1}"
  {
    CoreParam1Text();
    NoDot("param1");
    ReplaceAs("core.param1", "core", "param1", "param1", "core_param1");
    WildcardAs("core.param1", "core_param1", "core.param1_{core_param1}");
  }

  lemma CoreParam1Text()
    ensures '.' !in "core" && '.' !in "param1"
    ensures "core.param1" == "core" + "." + "param1" && "core_param1" == "core" + "_" + "param1"
    ensures "core.param1_{core_param1}" == "core.param1" + "_" + "{" + "core_param1" + "}"
  {
  }

  lemma SpellCoreParam2()
    ensures Spell(Wildcard("core.param2")) == "core.param2_{core_param2}"
  {
    CoreParam2Text();
    NoDot("param2");
    ReplaceAs("core.param2", "core", "param2", "param2", "core_param2");
    WildcardAs("core.param2", "core_param2", "core.param2_{core_param2}");
  }

  lemma CoreParam2Text()
    ensures '.' !in "core" && '.' !in "param2"
    ensures "core.param2" == "core" + "." + "param2" && "core_param2" == "core" + "_" + "param2"
    ensures "core.param2_{core_param2}" == "core.param2" + "_" + "{" + "core_param2" + "}"
  {
  }

  /** The dots of `a.b` replaced, knowing those of `b`. */
  lemma ReplaceAs(n: string, a: string, b: string, rb: string, r: string)
    requires '.' !in a && n == a + "." + b && Replace(b, '.', '_') == rb && r == a + "_" + rb
    ensures Replace(n, '.', '_') == r
  {
    ReplaceDot(a, b);
  }

  /** The wildcard of a name whose dots, replaced, read `r`. */
  lemma WildcardAs(n: string, r: string, w: string)
    requires Replace(n, '.', '_') == r && w == n + "_" + "{" + r + "}"
    ensures Spell(Wildcard(n)) == w
  {
  }

  /** The wildcard of `a.b`, for words `a` and `b` without dots. */
  lemma SpellDotted(a: string, b: string)
    requires '.' !in a && '.' !in b
    ensures Spell(Wildcard(a + "." + b)) == a + "." + b + "_{" + a + "_" + b + "}"
  {
    ReplaceDot(a, b);
    NoDot(b);
  }

  /** Replacing the dots of `a.b` for a word `a` without dots. */
  lemma ReplaceDot(a: string, b: string)
    requires '.' !in a
    ensures Replace(a + "." + b, '.', '_') == a + "_" + Replace(b, '.', '_')
  {
    ReplaceConcat(a + ".", b);
    ReplaceConcat(a, ".");
    NoDot(a);
    assert Replace(".", '.', '_') == "_";
  }

  /** Replacing characters works piece by piece. */
  lemma {:induction false} ReplaceConcat(x: string, y: string)
    ensures Replace(x + y, '.', '_') == Replace(x, '.', '_') + Replace(y, '.', '_')
  {
    if x == [] {
      assert x + y == y;
    } else {
      assert (x + y)[0] == x[0] && (x + y)[1..] == x[1..] + y;
      ReplaceConcat(x[1..], y);
    }
  }

  lemma NoDot(w: string)
    requires '.' !in w
    ensures Replace(w, '.', '_') == w
  {
    var r := Replace(w, '.', '_');
    forall i | 0 <= i < |w| ensures r[i] == w[i] {
      assert w[i] in w;
    }
  }

  /** The parameters `b.c.param` and `a.param`, given in that order, give
      the template `out/a.param_{a_param}/b.c.param_{b_c_param}`. */
  lemma OutpathSortedExample()
    ensures SpellAll(WildcardTemplate(["out"], ["b.c.param", "a.param"])) ==
      ["out", "a.param_{a_param}", "b.c.param_{b_c_param}"]
  {
    TestParamsOrdered();
    SpellAParam();
    SpellBCParam();
    TwoNames(["out"], "a.param", "b.c.param", "a.param_{a_param}", "b.c.param_{b_c_param}");
    RootThenTwo("out", "a.param_{a_param}", "b.c.param_{b_c_param}");
  }

  lemma TestParamsOrdered()
    ensures Less("a.param", "b.c.param")
  {
    assert "a.param"[..0] == "b.c.param"[..0];
  }

  lemma SpellAParam()
    ensures Spell(Wildcard("a.param")) == "a.param_{a_param}"
  {
    AParamText();
    NoDot("param");
    ReplaceAs("a.param", "a", "param", "param", "a_param");
    WildcardAs("a.param", "a_param", "a.param_{a_param}");
  }

  lemma AParamText()
    ensures '.' !in "a" && '.' !in "param"
    ensures "a.param" == "a" + "." + "param" && "a_param" == "a" + "_" + "param"
    ensures "a.param_{a_param}" == "a.param" + "_" + "{" + "a_param" + "}"
  {
  }

  lemma SpellBCParam()
    ensures Spell(Wildcard("b.c.param")) == "b.c.param_{b_c_param}"
  {
    BCParamText();
    NoDot("param");
    ReplaceAs("c.param", "c", "param", "param", "c_param");
    ReplaceAs("b.c.param", "b", "c.param", "c_param", "b_c_param");
    WildcardAs("b.c.param", "b_c_param", "b.c.param_{b_c_param}");
  }

  lemma BCParamText()
    ensures '.' !in "b" && '.' !in "c" && '.' !in "param"
    ensures "c.param" == "c" + "." + "param" && "c_param" == "c" + "_" + "param"
    ensures "b.c.param" == "b" + "." + "c.param" && "b_c_param" == "b" + "_" + "c_param"
    ensures "b.c.param_{b_c_param}" == "b.c.param" + "_" + "{" + "b_c_param" + "}"
  {
  }

  /** Two names get their wildcards in sorted order whichever comes first. */
  lemma TwoNames(root: Path, x: string, y: string, sx: string, sy: string)
    requires Less(x, y) && Spell(Wildcard(x)) == sx && Spell(Wildcard(y)) == sy
    ensures SpellAll(WildcardTemplate(root, [x, y])) == root + [sx, sy]
    ensures SpellAll(WildcardTemplate(root, [y, x])) == root + [sx, sy]
  {
    SortTwo(x, y);
    SortedTwo(root, [x, y], x, y);
    SortedTwo(root, [y, x], x, y);
    SpellTwo(root, Wildcard(x), Wildcard(y));
  }

  lemma SortedTwo(root: Path, names: seq<string>, x: string, y: string)
    requires Sort(names, Id) == [x, y]
    ensures WildcardTemplate(root, names) == Literal(root) + [Wildcard(x), Wildcard(y)]
  {
  }

  lemma SpellTwo(root: Path, a: Segment, b: Segment)
    ensures SpellAll(Literal(root) + [a, b]) == root + [Spell(a), Spell(b)]
  {
    var t := Literal(root) + [a, b];
    var s := SpellAll(t);
    var e := root + [Spell(a), Spell(b)];
    forall i | 0 <= i < |s| ensures s[i] == e[i] {
      if i < |root| {
        assert t[i] == Fixed(root[i]);
      }
    }
  }

  lemma SortTwo(x: string, y: string)
    requires Less(x, y)
    ensures Sort([x, y], Id) == [x, y] && Sort([y, x], Id) == [x, y]
  {
    LessAsymmetric(x, y);
    assert [x, y][1..] == [y] && [y][1..] == [];
    assert [y, x][1..] == [x] && [x][1..] == [];
    assert Sort([y], Id) == [y] && Sort([x], Id) == [x];
    assert Insert(y, [x], Id) == [x] + Insert(y, [], Id);
  }

  // ---------------------------------------------------------------------------
  // Filling the template: `self._outpath.format(**args_dict)`

  /** Every placeholder of `t` has an argument. */
  predicate FieldsIn<V>(t: Template, args: Dict<string, V>) {
    forall i :: 0 <= i < |t| && t[i].Field? ==> HasKey(args, t[i].name)
  }

  function FillSegment<V>(s: Segment, args: Dict<string, V>, render: V -> string): string
    requires s.Field? ==> HasKey(args, s.name)
  {
    match s
    case Fixed(t) => t
    case Field(prefix, name) => prefix + render(Get(args, name).value)
  }

  /** `str.format` on the template, `render` being how a value prints. */
  function Fill<V>(t: Template, args: Dict<string, V>, render: V -> string): Path
    requires FieldsIn(t, args)
  {
    seq(|t|, i requires 0 <= i < |t| => FillSegment(t[i], args, render))
  }

  /** `{key.replace(".", "_"): value for key, value in param_set.items()}`. */
  function ArgsOf<V>(ps: Params<V>): Dict<string, V> {
    AssignAll([], ArgPairs(ps))
  }

  function ArgPairs<V>(ps: Params<V>): (r: Dict<string, V>)
  {
    seq(|ps|, i requires 0 <= i < |ps| => (Replace(ps[i].0, '.', '_'), ps[i].1))
  }

  /** Every placeholder of `t` is named after a key of the flat grid, so
      that `str.format` never misses an argument. */
  predicate FieldsCovered<V>(t: Template, flat: SubGrid<V>) {
    forall i :: 0 <= i < |t| && t[i].Field? ==>
      exists j :: 0 <= j < |flat| && t[i].name == Replace(flat[j].0, '.', '_')
  }

  /** The wildcard template has a placeholder only for keys of the grid. */
  lemma WildcardCovers<V>(root: Path, flat: SubGrid<V>)
    ensures FieldsCovered(WildcardTemplate(root, Keys(flat)), flat)
  {
    var t := WildcardTemplate(root, Keys(flat));
    var sorted := Sort(Keys(flat), Id);
    forall i | 0 <= i < |t| && t[i].Field?
      ensures exists j :: 0 <= j < |flat| && t[i].name == Replace(flat[j].0, '.', '_')
    {
      var j := SortedFrom(Keys(flat), sorted, i - |root|);
      assert t[i] == Wildcard(flat[j].0);
    }
  }

  /** Every combination fills every placeholder of `t`. */
  predicate AllFilled<V>(t: Template, combos: seq<Params<V>>) {
    forall i :: 0 <= i < |combos| ==> FieldsIn(t, ArgsOf(combos[i]))
  }

  /** Every combination of the grid supplies an argument for every
      placeholder, whether or not an empty grid yields its one empty
      combination. */
  lemma CoveredFills<V>(t: Template, flat: SubGrid<V>)
    requires FieldsCovered(t, flat)
    ensures AllFilled(t, SubEnumerate(flat)) && AllFilled(t, Permute(flat))
  {
    var ps := SubEnumerate(flat);
    forall i, k | 0 <= i < |ps| && 0 <= k < |t| && t[k].Field? ensures HasKey(ArgsOf(ps[i]), t[k].name) {
      var j :| 0 <= j < |flat| && t[k].name == Replace(flat[j].0, '.', '_');
      ComboHasKey(flat, i, j);
      ArgsHasKey(ps[i], flat[j].0);
    }
  }

  /** Every combination of a sub-grid has every key of the sub-grid. */
  lemma ComboHasKey<V>(flat: SubGrid<V>, i: nat, j: nat)
    requires i < |SubEnumerate(flat)| && j < |flat|
    ensures exists m :: 0 <= m < |SubEnumerate(flat)[i]| && SubEnumerate(flat)[i][m].0 == flat[j].0
  {
    SubEnumerateShape(flat, i);
    assert flat[j] in multiset(SortedItems(flat));
    var m :| 0 <= m < |flat| && SortedItems(flat)[m] == flat[j];
    assert SubEnumerate(flat)[i][m].0 == flat[j].0;
  }

  /** A key of a combination gives the argument named after it. */
  lemma ArgsHasKey<V>(c: Params<V>, key: string)
    requires exists m :: 0 <= m < |c| && c[m].0 == key
    ensures HasKey(ArgsOf(c), Replace(key, '.', '_'))
  {
    var m :| 0 <= m < |c| && c[m].0 == key;
    var pairs := ArgPairs(c);
    assert pairs[m].0 == Replace(key, '.', '_');
    HasKeyAssignAll([], pairs, Replace(key, '.', '_'));
  }

  /** The directory of combination `i`. */
  function DirOf<V>(t: Template, combos: seq<Params<V>>, render: V -> string, i: nat): Path
    requires AllFilled(t, combos) && i < |combos|
  {
    Fill(t, ArgsOf(combos[i]), render)
  }

  /** One `param_set_dict[Path(outpath)] = _unflatten_dict(param_set)` per
      combination. */
  function ParamSetPairs<V>(t: Template, combos: seq<Params<V>>, render: V -> string)
    : (r: seq<(Path, Entries<V>)>)
    requires AllFilled(t, combos)
    ensures |r| == |combos|
  {
    seq(|combos|, i requires 0 <= i < |combos| => (DirOf(t, combos, render, i), Unflatten(combos[i])))
  }

  function ParamSetDict<V>(t: Template, combos: seq<Params<V>>, render: V -> string): Dict<Path, Entries<V>>
    requires AllFilled(t, combos)
  {
    AssignAll([], ParamSetPairs(t, combos, render))
  }

  /** The loop of `_get_param_set_dict`, over the combinations it is given. */
  method CollectParamSets<V>(outpath: Template, combos: seq<Params<V>>, render: V -> string)
    returns (paramSetDict: Dict<Path, Entries<V>>)
    requires AllFilled(outpath, combos)
    ensures paramSetDict == ParamSetDict(outpath, combos, render)
  {
    var pairs := ParamSetPairs(outpath, combos, render);
    paramSetDict := [];
    for i := 0 to |combos|
      invariant paramSetDict == AssignAll([], pairs[..i])
    {
      var args := ArgsOf(combos[i]);
      var dir := Fill(outpath, args, render);
      var params := UnflattenDict(combos[i]);
      AssignAllConcat([], pairs[..i], [pairs[i]]);
      AssignAllSingle(AssignAll([], pairs[..i]), pairs[i]);
      assert pairs[..i + 1] == pairs[..i] + [pairs[i]];
      paramSetDict := Assign(paramSetDict, dir, params);
    }
    assert pairs[..|combos|] == pairs;
  }

  /** `_get_param_set_dict`, over `_permute_parameter_grid`. */
  method GetParamSetDict<V>(outpath: Template, paramsFlat: SubGrid<V>, render: V -> string)
    returns (paramSetDict: Dict<Path, Entries<V>>)
    requires FieldsCovered(outpath, paramsFlat)
    ensures AllFilled(outpath, Permute(paramsFlat))
    ensures paramSetDict == ParamSetDict(outpath, Permute(paramsFlat), render)
  {
    CoveredFills(outpath, paramsFlat);
    var combos := Permute(paramsFlat);
    paramSetDict := CollectParamSets(outpath, combos, render);
  }

  /** A directory is in the dict exactly when some combination fills the
      template to it; no directory appears twice. */
  lemma ParamSetDictKeys<V>(t: Template, combos: seq<Params<V>>, render: V -> string, dir: Path)
    requires AllFilled(t, combos)
    ensures UniqueKeys(ParamSetDict(t, combos, render))
    ensures HasKey(ParamSetDict(t, combos, render), dir) <==>
      exists i :: 0 <= i < |combos| && DirOf(t, combos, render, i) == dir
  {
    var pairs := ParamSetPairs(t, combos, render);
    HasKeyAssignAll([], pairs, dir);
    AssignAllKeepsUnique([], pairs);
    if exists i :: 0 <= i < |combos| && DirOf(t, combos, render, i) == dir {
      var i :| 0 <= i < |combos| && DirOf(t, combos, render, i) == dir;
      assert pairs[i].0 == dir;
    }
  }

  /** The directory of a combination holds that combination's parameters,
      nested, unless a later combination fills the template to the same
      directory and overwrites it. */
  lemma ParamSetDictLookup<V>(t: Template, combos: seq<Params<V>>, render: V -> string, i: nat)
    requires AllFilled(t, combos) && i < |combos|
    requires forall j :: i < j < |combos| ==> DirOf(t, combos, render, j) != DirOf(t, combos, render, i)
    ensures Get(ParamSetDict(t, combos, render), DirOf(t, combos, render, i)) == Some(Unflatten(combos[i]))
  {
    var pairs := ParamSetPairs(t, combos, render);
    GetAssignAllLast([], pairs, i, DirOf(t, combos, render, i));
  }

  // ---------------------------------------------------------------------------
  // One directory per combination

  /** No two keys of the flat grid name the same placeholder, as `a.b` and
      `a_b` would. */
  ghost predicate PlaceholdersApart<V>(flat: SubGrid<V>) {
    forall a, b :: 0 <= a < |flat| && 0 <= b < |flat| && a != b ==>
      Replace(flat[a].0, '.', '_') != Replace(flat[b].0, '.', '_')
  }

  /** No two values of one value list print the same, so neither are two
      of them equal. */
  ghost predicate PrintsApart<V>(flat: SubGrid<V>, render: V -> string) {
    forall k, a, b :: 0 <= k < |flat| && 0 <= a < b < |flat[k].1| ==>
      render(flat[k].1[a]) != render(flat[k].1[b])
  }

  lemma PrintsApartDistinct<V>(flat: SubGrid<V>, render: V -> string)
    requires PrintsApart(flat, render)
    ensures DistinctValues(flat)
  {
    forall k, a, b | 0 <= k < |flat| && 0 <= a < b < |flat[k].1| ensures flat[k].1[a] != flat[k].1[b] {
      assert render(flat[k].1[a]) != render(flat[k].1[b]);
    }
  }

  /** Two different values of one value list print differently. */
  lemma PrintDiffers<V>(flat: SubGrid<V>, render: V -> string, y: nat, u: V, v: V)
    requires PrintsApart(flat, render) && y < |flat| && u in flat[y].1 && v in flat[y].1 && u != v
    ensures render(u) != render(v)
  {
    var a :| 0 <= a < |flat[y].1| && flat[y].1[a] == u;
    var b :| 0 <= b < |flat[y].1| && flat[y].1[b] == v;
    if a > b {
      assert render(flat[y].1[b]) != render(flat[y].1[a]);
    }
  }

  /** Filling a placeholder prints the argument named after it. */
  lemma FillAt<V>(t: Template, args: Dict<string, V>, render: V -> string, q: nat)
    requires FieldsIn(t, args) && q < |t| && t[q].Field?
    ensures HasKey(args, t[q].name)
    ensures Fill(t, args, render)[q] == t[q].prefix + render(Get(args, t[q].name).value)
  {
  }

  /** When no two keys of a combination share a placeholder, each
      placeholder's argument is the value of its key. */
  lemma ArgsGet<V>(c: Params<V>, m: nat)
    requires m < |c|
    requires forall a, b :: 0 <= a < b < |c| ==> Replace(c[a].0, '.', '_') != Replace(c[b].0, '.', '_')
    ensures Get(ArgsOf(c), Replace(c[m].0, '.', '_')) == Some(c[m].1)
  {
    var pairs := ArgPairs(c);
    assert pairs[m] == (Replace(c[m].0, '.', '_'), c[m].1);
    GetAssignAllLast([], pairs, m, pairs[m].0);
  }

  /** The sorted items of the flat grid keep their placeholders apart. */
  lemma SortedApart<V>(flat: SubGrid<V>)
    requires UniqueKeys(flat) && PlaceholdersApart(flat)
    ensures forall a, b :: 0 <= a < b < |flat| ==>
      Replace(SortedItems(flat)[a].0, '.', '_') != Replace(SortedItems(flat)[b].0, '.', '_')
  {
    var s := SortedItems(flat);
    assert DistinctKeys(flat, ItemKey) by {
      forall a, b | 0 <= a < b < |flat| ensures ItemKey(flat[a]) != ItemKey(flat[b]) {
      }
    }
    SortSorted(flat, ItemKey);
    forall a, b | 0 <= a < b < |flat|
      ensures Replace(s[a].0, '.', '_') != Replace(s[b].0, '.', '_')
    {
      var y := SortedItemFrom(flat, a);
      var z := SortedItemFrom(flat, b);
      assert Less(ItemKey(s[a]), ItemKey(s[b]));
      LessIrreflexive(s[a].0);
      assert y != z;
    }
  }

  /** Two different combinations differ in the value of some key. */
  lemma CombosDiffer<V>(flat: SubGrid<V>, i: nat, j: nat) returns (m: nat)
    requires flat != [] && DistinctValues(flat) && i < |Permute(flat)| && j < |Permute(flat)| && i != j
    ensures m < |flat| && m < |Permute(flat)[i]| && m < |Permute(flat)[j]|
    ensures Permute(flat)[i][m].0 == Permute(flat)[j][m].0 == SortedItems(flat)[m].0
    ensures Permute(flat)[i][m].1 != Permute(flat)[j][m].1
  {
    var c1, c2 := Permute(flat)[i], Permute(flat)[j];
    if c1 == c2 {
      SubEnumerateInjective(flat, i, j);
    }
    SubEnumerateShape(flat, i);
    SubEnumerateShape(flat, j);
    m :| 0 <= m < |flat| && c1[m] != c2[m];
  }

  /** The template of a flat grid has a placeholder for the key of every
      sorted item. */
  lemma FieldOfSorted<V>(root: Path, flat: SubGrid<V>, m: nat) returns (q: nat)
    requires m < |flat|
    ensures q < |WildcardTemplate(root, Keys(flat))|
    ensures WildcardTemplate(root, Keys(flat))[q] == Wildcard(SortedItems(flat)[m].0)
  {
    var k := SortedItems(flat)[m].0;
    var y := SortedItemFrom(flat, m);
    var sorted := Sort(Keys(flat), Id);
    assert Keys(flat)[y] == k;
    assert k in multiset(sorted);
    var x :| 0 <= x < |sorted| && sorted[x] == k;
    WildcardTemplateAt(root, Keys(flat));
    q := |root| + x;
  }

  /** When the values print apart, no value list repeats a value and no two
      keys share a placeholder, every combination of the flat grid fills
      the template to its own directory. */
  lemma DirsDistinct<V>(root: Path, flat: SubGrid<V>, render: V -> string, i: nat, j: nat)
    requires UniqueKeys(flat) && PrintsApart(flat, render) && PlaceholdersApart(flat)
    requires i < |Permute(flat)| && j < |Permute(flat)| && i != j
    ensures AllFilled(WildcardTemplate(root, Keys(flat)), Permute(flat))
    ensures DirOf(WildcardTemplate(root, Keys(flat)), Permute(flat), render, i) !=
            DirOf(WildcardTemplate(root, Keys(flat)), Permute(flat), render, j)
  {
    var t := WildcardTemplate(root, Keys(flat));
    WildcardCovers(root, flat);
    CoveredFills(t, flat);
    var combos := Permute(flat);
    PrintsApartDistinct(flat, render);
    var m := CombosDiffer(flat, i, j);
    var c1, c2 := combos[i], combos[j];
    SortedApart(flat);
    SubEnumerateShape(flat, i);
    SubEnumerateShape(flat, j);
    ArgsGet(c1, m);
    ArgsGet(c2, m);
    var q := FieldOfSorted(root, flat, m);
    var w := t[q];
    assert w.name == Replace(c1[m].0, '.', '_');
    FillAt(t, ArgsOf(c1), render, q);
    FillAt(t, ArgsOf(c2), render, q);
    var y := SortedItemFrom(flat, m);
    PrintDiffers(flat, render, y, c1[m].1, c2[m].1);
    PrefixCancel(w.prefix, render(c1[m].1), render(c2[m].1));
  }

  lemma PrefixCancel(p: string, a: string, b: string)
    requires a != b
    ensures p + a != p + b
  {
    assert a == (p + a)[|p|..] && b == (p + b)[|p|..];
  }

  /** Under the same conditions the dict holds one directory per
      combination, in order, so it has as many keys as the grid has
      combinations. */
  lemma OneDirectoryPerCombination<V>(root: Path, flat: SubGrid<V>, render: V -> string)
    requires UniqueKeys(flat) && PrintsApart(flat, render) && PlaceholdersApart(flat)
    ensures AllFilled(WildcardTemplate(root, Keys(flat)), Permute(flat))
    ensures var t := WildcardTemplate(root, Keys(flat));
      ParamSetDict(t, Permute(flat), render) == ParamSetPairs(t, Permute(flat), render) &&
      |ParamSetDict(t, Permute(flat), render)| == |Permute(flat)|
  {
    var t := WildcardTemplate(root, Keys(flat));
    WildcardCovers(root, flat);
    CoveredFills(t, flat);
    var combos := Permute(flat);
    forall a, b | 0 <= a < b < |combos|
      ensures DirOf(t, combos, render, a) != DirOf(t, combos, render, b)
    {
      DirsDistinct(root, flat, render, a, b);
    }
    DistinctDirsFresh(t, combos, render);
  }

  lemma PairAt<V>(t: Template, combos: seq<Params<V>>, render: V -> string, a: nat)
    requires AllFilled(t, combos) && a < |combos|
    ensures ParamSetPairs(t, combos, render)[a].0 == DirOf(t, combos, render, a)
  {
  }

  /** When no two combinations fill to one directory, the dict is the list
      of pairs itself. */
  lemma DistinctDirsFresh<V>(t: Template, combos: seq<Params<V>>, render: V -> string)
    requires AllFilled(t, combos)
    requires forall a, b :: 0 <= a < b < |combos| ==> DirOf(t, combos, render, a) != DirOf(t, combos, render, b)
    ensures ParamSetDict(t, combos, render) == ParamSetPairs(t, combos, render)
  {
    var pairs := ParamSetPairs(t, combos, render);
    assert UniqueKeys([] + pairs) by {
      assert [] + pairs == pairs;
      forall a, b | 0 <= a < b < |pairs| ensures pairs[a].0 != pairs[b].0 {
        PairAt(t, combos, render, a);
        PairAt(t, combos, render, b);
      }
    }
    AssignAllFresh([], pairs);
    assert [] + pairs == pairs;
  }

  // ---------------------------------------------------------------------------
  // The experiment

  const MERGE_CONFIG_FILE: string := "vr_full_model_configuration.toml"
  const LOG_FILE: string := "ve_run.log"

  /** `OUTPUT_FILES`, a set of five names. */
  const OUTPUT_FILES: set<string> :=
    {MERGE_CONFIG_FILE, LOG_FILE, "initial_state.nc", "final_state.nc", "all_continuous_data.nc"}

  /** The order in which the model visits `OUTPUT_FILES`; Python does not
      define the iteration order of a set, and no contract below depends
      on it. */
  const OUTPUT_FILE_ORDER: seq<string> :=
    [MERGE_CONFIG_FILE, LOG_FILE, "initial_state.nc", "final_state.nc", "all_continuous_data.nc"]

  /** The order lists every output file exactly once. */
  lemma OutputFileOrder()
    ensures |OUTPUT_FILE_ORDER| == |OUTPUT_FILES| == 5
    ensures forall f :: f in OUTPUT_FILES <==> f in OUTPUT_FILE_ORDER
    ensures forall i, j :: 0 <= i < j < 5 ==> OUTPUT_FILE_ORDER[i] != OUTPUT_FILE_ORDER[j]
  {
    OutputFilesDistinct();
    OutputFilesListed();
    DistinctCard(OUTPUT_FILE_ORDER);
  }

  lemma OutputFilesDistinct()
    ensures forall i, j :: 0 <= i < j < 5 ==> OUTPUT_FILE_ORDER[i] != OUTPUT_FILE_ORDER[j]
  {
    var o := OUTPUT_FILE_ORDER;
    var lengths := [32, 10, 16, 14, 22];
    assert forall i :: 0 <= i < 5 ==> |o[i]| == lengths[i];
    forall i, j | 0 <= i < j < 5 ensures o[i] != o[j] {
      assert lengths[i] != lengths[j];
    }
  }

  lemma OutputFilesListed()
    ensures OUTPUT_FILES == set f | f in OUTPUT_FILE_ORDER
  {
  }

  /** A sequence of distinct elements has as many elements as its set. */
  lemma {:induction false} DistinctCard<T>(s: seq<T>)
    requires forall i, j :: 0 <= i < j < |s| ==> s[i] != s[j]
    ensures |set x | x in s| == |s|
  {
    if s != [] {
      var rest := s[1..];
      DistinctCard(rest);
      assert (set x | x in s) == {s[0]} + (set x | x in rest);
      assert s[0] !in rest by {
        forall k | 0 <= k < |rest| ensures rest[k] != s[0] {
          assert rest[k] == s[k + 1];
        }
      }
    }
  }

  /** The dotted path `run` sets to the output directory. */
  const OUT_PATH_KEY: seq<string> := ["core", "data_output_options", "out_path"]

  /** All outputs sit in one folder, the folder of the first. */
  predicate SameFolder(output: seq<Path>)
    requires output != []
  {
    forall i :: 0 <= i < |output| ==> Parent(output[i]) == Parent(output[0])
  }

  /** Every output is one of `OUTPUT_FILES`. */
  predicate KnownFiles(output: seq<Path>) {
    forall i :: 0 <= i < |output| ==> Name(output[i]) in OUTPUT_FILES
  }

  /** Why `run` refuses: `output[0]` on an empty list, the two
      `RuntimeError`s of the checks, the `KeyError` of an unknown folder and
      the `RuntimeError` of an output path that the grid already sets. */
  datatype RunError = IndexError | NotSameFolder | UnknownFile | KeyError(dir: Path) | OutpathSetTwice

  /** The arguments `run` passes to `ve_run`. */
  datatype RunCall<V> = RunCall(cfgPaths: seq<string>, overrideParams: Entries<V>, logfile: Path)

  /** The five outputs of one directory. */
  function OutputsIn(dir: Path): (r: seq<Path>)
    ensures |r| == 5
  {
    seq(5, k requires 0 <= k < 5 => dir + [OUTPUT_FILE_ORDER[k]])
  }

  /** The five outputs of a directory pass both checks of `run`, with the
      directory as their folder. */
  lemma OutputsInAccepted(dir: Path)
    ensures SameFolder(OutputsIn(dir)) && KnownFiles(OutputsIn(dir))
    ensures forall k :: 0 <= k < 5 ==> Parent(OutputsIn(dir)[k]) == dir
  {
    OutputFileOrder();
    var o := OutputsIn(dir);
    forall k | 0 <= k < 5 ensures Parent(o[k]) == dir && Name(o[k]) in OUTPUT_FILES {
      assert o[k] == dir + [OUTPUT_FILE_ORDER[k]];
      assert OUTPUT_FILE_ORDER[k] in OUTPUT_FILE_ORDER;
    }
  }

  /** The two refusals of the test with bad outputs: a file in another
      folder, and an unknown file in the right folder. */
  lemma BadOutputsRefused()
    ensures var dir := ["out", "a.param_1", "b.c.param_2"];
      !SameFolder(OutputsIn(dir) + [["another", "folder", MERGE_CONFIG_FILE]]) &&
      SameFolder(OutputsIn(dir) + [dir + ["unknown_file.txt"]]) &&
      !KnownFiles(OutputsIn(dir) + [dir + ["unknown_file.txt"]])
  {
    var dir := ["out", "a.param_1", "b.c.param_2"];
    assert ["another", "folder", MERGE_CONFIG_FILE] == ["another", "folder"] + [MERGE_CONFIG_FILE];
    OtherFolderRefused(dir, ["another", "folder"], MERGE_CONFIG_FILE);
    assert "unknown_file.txt" !in OUTPUT_FILES by {
      assert |"unknown_file.txt"| == 16 && "unknown_file.txt"[0] != "initial_state.nc"[0];
    }
    UnknownFileRefused(dir, "unknown_file.txt");
  }

  /** An output outside the folder of the others fails the folder check. */
  lemma OtherFolderRefused(dir: Path, other: Path, f: string)
    requires other != dir
    ensures !SameFolder(OutputsIn(dir) + [other + [f]])
  {
    OutputsInAccepted(dir);
    var o := OutputsIn(dir) + [other + [f]];
    assert o[0] == OutputsIn(dir)[0];
    assert Parent(o[5]) == other by {
      assert o[5] == other + [f] && (other + [f])[..|other|] == other;
    }
  }

  /** A file outside `OUTPUT_FILES` in the right folder passes the folder
      check and fails the name check. */
  lemma UnknownFileRefused(dir: Path, f: string)
    requires f !in OUTPUT_FILES
    ensures SameFolder(OutputsIn(dir) + [dir + [f]]) && !KnownFiles(OutputsIn(dir) + [dir + [f]])
  {
    OutputsInAccepted(dir);
    var o := OutputsIn(dir) + [dir + [f]];
    assert forall i :: 0 <= i < 5 ==> o[i] == OutputsIn(dir)[i];
    assert Parent(o[5]) == dir by {
      assert (dir + [f])[..|dir|] == dir;
    }
    assert Name(o[5]) == f;
  }

  lemma NestTwo<V>(a: string, b: string, v: V)
    ensures NestNode([a, b], v) == Nested([(a, Nested([(b, Leaf(v))]))])
  {
    assert [a, b][1..] == [b] && [b][1..] == [];
    assert NestNode([b], v) == Nested([(b, NestNode([], v))]);
  }

  /** Filling a template followed by a file name gives the filled
      directory followed by that name. */
  lemma FillFile<V>(t: Template, f: string, args: Dict<string, V>, render: V -> string)
    requires FieldsIn(t, args)
    ensures FieldsIn(t + [Fixed(f)], args)
    ensures Fill(t + [Fixed(f)], args, render) == Fill(t, args, render) + [f]
  {
    var t' := t + [Fixed(f)];
    assert forall i :: 0 <= i < |t| ==> t'[i] == t[i];
    var a := Fill(t', args, render);
    var b := Fill(t, args, render) + [f];
    forall i | 0 <= i < |a| ensures a[i] == b[i] {
      if i < |t| {
        assert t'[i] == t[i];
      }
    }
  }

  /** `[dir / file for dir, file in product(d.keys(), files)]`. */
  function DirFiles<W>(d: Dict<Path, W>, files: seq<string>): (r: seq<Path>)
    ensures |r| == |d| * |files|
  {
    var n := |files|;
    if n == 0 then []
    else
      ExtendBounds(|d|, n);
      seq(|d| * n, i requires 0 <= i < |d| * n => d[i / n].0 + [files[i % n]])
  }

  /** A path is listed exactly when its folder is a key and its name one of
      the files. */
  lemma DirFilesMember<W>(d: Dict<Path, W>, files: seq<string>, p: Path)
    ensures p in DirFiles(d, files) <==> p != [] && HasKey(d, Parent(p)) && Name(p) in files
  {
    var r := DirFiles(d, files);
    if p in r {
      var i :| 0 <= i < |r| && r[i] == p;
      var j, k := DirFilesAt(d, files, i);
      assert Parent(p) == d[j].0 && Name(p) == files[k];
    }
    if p != [] && HasKey(d, Parent(p)) && Name(p) in files {
      var j :| 0 <= j < |d| && d[j].0 == Parent(p);
      var k :| 0 <= k < |files| && files[k] == Name(p);
      DirFilesIndex(d, files, j, k);
      assert p == p[..|p| - 1] + [p[|p| - 1]];
    }
  }

  lemma DirFilesAt<W>(d: Dict<Path, W>, files: seq<string>, i: nat) returns (j: nat, k: nat)
    requires i < |DirFiles(d, files)|
    ensures j < |d| && k < |files| && DirFiles(d, files)[i] == d[j].0 + [files[k]]
  {
    DivBelow(i, |d|, |files|);
    j, k := i / |files|, i % |files|;
  }

  lemma DirFilesIndex<W>(d: Dict<Path, W>, files: seq<string>, j: nat, k: nat)
    requires j < |d| && k < |files|
    ensures j * |files| + k < |DirFiles(d, files)| && DirFiles(d, files)[j * |files| + k] == d[j].0 + [files[k]]
  {
    var n := |files|;
    var i := j * n + k;
    MixedIndex(j, k, |d|, n);
    var r := DirFiles(d, files);
    assert r[i] == d[i / n].0 + [files[i % n]];
  }

  /** Digit `j` of `m` and digit `k` of `n` make the index `j * n + k`. */
  lemma MixedIndex(j: nat, k: nat, m: nat, n: nat)
    requires j < m && k < n
    ensures j * n + k < m * n && (j * n + k) / n == j && (j * n + k) % n == k
  {
    MulMonotone(j + 1, m, n);
    DivUnique(j * n + k, n, j, k);
  }

  /** `VEExperiment`: the output-path template and the parameter set of
      every output directory, both fixed when the experiment is built. */
  class VEExperiment<V> {
    /** `_outpath`. */
    const outpath: Template
    /** `_param_set_dict`. */
    const paramSetDict: Dict<Path, Entries<V>>
    /** How `str.format` prints a parameter value. */
    const render: V -> string
    /** The configuration value for a path's text. */
    const fromText: string -> V
    /** The flattened grid the experiment was built from. */
    ghost const paramsFlat: SubGrid<V>
    /** The root the template starts with. */
    ghost const outPathRoot: Path

    ghost predicate Valid() {
      UniqueKeys(paramsFlat) && outpath == WildcardTemplate(outPathRoot, Keys(paramsFlat)) &&
      AllFilled(outpath, Permute(paramsFlat)) &&
      paramSetDict == ParamSetDict(outpath, Permute(paramsFlat), render)
    }

    /** `__init__`: flatten the grid, build the template from its keys and
        the parameter set of every combination. */
    constructor(outPathRoot: Path, paramGrid: Entries<seq<V>>, render: V -> string, fromText: string -> V)
      ensures Valid() && this.render == render && this.fromText == fromText
      ensures paramsFlat == Flatten(paramGrid)
      ensures outpath == WildcardTemplate(outPathRoot, Keys(paramsFlat))
    {
      var flat := FlattenDict(paramGrid);
      var t := GetOutpathWithWildcards(outPathRoot, Keys(flat));
      WildcardCovers(outPathRoot, flat);
      var d := GetParamSetDict(t, flat, render);
      FlattenIsLeafAssignment(paramGrid);
      AssignAllKeepsUnique([], Keyed([], Leaves(paramGrid)));
      paramsFlat := flat;
      this.outPathRoot := outPathRoot;
      outpath := t;
      paramSetDict := d;
      this.render := render;
      this.fromText := fromText;
    }

    /** `all_outputs`: every output file of every directory, and nothing else. */
    function AllOutputs(): (r: seq<Path>)
      ensures |r| == |paramSetDict| * |OUTPUT_FILES|
      ensures forall p :: p in r <==>
        p != [] && HasKey(paramSetDict, Parent(p)) && Name(p) in OUTPUT_FILES
    {
      OutputFileOrder();
      forall p ensures p in DirFiles(paramSetDict, OUTPUT_FILE_ORDER) <==>
        p != [] && HasKey(paramSetDict, Parent(p)) && Name(p) in OUTPUT_FILES
      {
        DirFilesMember(paramSetDict, OUTPUT_FILE_ORDER, p);
      }
      DirFiles(paramSetDict, OUTPUT_FILE_ORDER)
    }

    /** When no two values of one list print the same and no two keys
        share a placeholder, every combination has a directory of its own,
        so `all_outputs` lists five files per combination. */
    lemma DirectoryPerCombination()
      requires Valid() && PrintsApart(paramsFlat, render) && PlaceholdersApart(paramsFlat)
      ensures |paramSetDict| == |Permute(paramsFlat)|
      ensures |AllOutputs()| == 5 * |Permute(paramsFlat)|
      ensures |AllOutputs()| == 5 * if paramsFlat == [] then 0 else Width(Values(paramsFlat))
    {
      OneDirectoryPerCombination(outPathRoot, paramsFlat, render);
      OutputFileOrder();
      PermuteYields(paramsFlat, 0);
    }

    /** `output`: the template followed by each output file. */
    function Output(): (r: seq<Template>)
      ensures |r| == |OUTPUT_FILES|
      ensures forall f :: f in OUTPUT_FILES <==> outpath + [Fixed(f)] in r
    {
      OutputFileOrder();
      var r := seq(5, k requires 0 <= k < 5 => outpath + [Fixed(OUTPUT_FILE_ORDER[k])]);
      assert forall f :: f in OUTPUT_FILES <==> outpath + [Fixed(f)] in r by {
        forall f ensures f in OUTPUT_FILES <==> outpath + [Fixed(f)] in r {
          if outpath + [Fixed(f)] in r {
            var k :| 0 <= k < 5 && r[k] == outpath + [Fixed(f)];
            assert r[k][|outpath|] == Fixed(OUTPUT_FILE_ORDER[k]);
          }
          if f in OUTPUT_FILES {
            var k :| 0 <= k < 5 && OUTPUT_FILE_ORDER[k] == f;
            assert r[k] == outpath + [Fixed(f)];
          }
        }
      }
      r
    }

    /** Filling `output` with the arguments of any combination gives files
        that `all_outputs` lists: the rule's outputs and the experiment's
        targets agree. */
    lemma FilledOutputListed(i: nat, k: nat)
      requires Valid() && i < |Permute(paramsFlat)| && k < |OUTPUT_FILES|
      ensures FieldsIn(Output()[k], ArgsOf(Permute(paramsFlat)[i]))
      ensures Fill(Output()[k], ArgsOf(Permute(paramsFlat)[i]), render) in AllOutputs()
    {
      OutputFileOrder();
      var args := ArgsOf(Permute(paramsFlat)[i]);
      var t := Output()[k];
      assert t == outpath + [Fixed(OUTPUT_FILE_ORDER[k])];
      var dir := DirOf(outpath, Permute(paramsFlat), render, i);
      FillFile(outpath, OUTPUT_FILE_ORDER[k], args, render);
      var p := Fill(t, args, render);
      ParamSetDictKeys(outpath, Permute(paramsFlat), render, dir);
      assert OUTPUT_FILE_ORDER[k] in OUTPUT_FILE_ORDER;
      assert Parent(p) == dir;
    }

    /** `run`: check the outputs, look up the parameter set of their folder,
        add the output path to it and hand it to the simulation. */
    method Run(input: seq<string>, output: seq<Path>) returns (r: Result<RunCall<V>, RunError>)
      ensures r == Err(IndexError) <==> output == []
      ensures r == Err(NotSameFolder) <==> output != [] && !SameFolder(output)
      ensures r == Err(UnknownFile) <==> output != [] && SameFolder(output) && !KnownFiles(output)
      ensures (r.Err? && r.error.KeyError?) <==>
        (output != [] && SameFolder(output) && KnownFiles(output) &&
         !HasKey(paramSetDict, Parent(output[0])))
      ensures r == Err(OutpathSetTwice) <==>
        (output != [] && SameFolder(output) && KnownFiles(output) &&
         HasKey(paramSetDict, Parent(output[0])) &&
         !Free(Get(paramSetDict, Parent(output[0])).value, OUT_PATH_KEY))
      ensures r.Ok? ==>
        (output != [] && HasKey(paramSetDict, Parent(output[0])) &&
         var dir := Parent(output[0]);
         var params := Get(paramSetDict, dir).value;
         var merged := r.value.overrideParams;
         r.value.cfgPaths == input && r.value.logfile == dir + [LOG_FILE] &&
         merged == Merge(params, [(OUT_PATH_KEY[0], NestNode(OUT_PATH_KEY[1..], fromText(PathText(dir))))]).0 &&
         Lookup(Nested(merged), OUT_PATH_KEY) == Some(fromText(PathText(dir))) &&
         forall q :: Diverge(q, OUT_PATH_KEY) ==> Lookup(Nested(merged), q) == Lookup(Nested(params), q))
    {
      if |output| == 0 {
        return Err(IndexError);
      }
      var dir := Parent(output[0]);
      var sameFolder := true;
      for i := 0 to |output|
        invariant sameFolder <==> forall j :: 0 <= j < i ==> Parent(output[j]) == dir
      {
        if Parent(output[i]) != dir {
          sameFolder := false;
        }
      }
      if !sameFolder {
        return Err(NotSameFolder);
      }
      var known := true;
      for i := 0 to |output|
        invariant known <==> forall j :: 0 <= j < i ==> Name(output[j]) in OUTPUT_FILES
      {
        if Name(output[i]) !in OUTPUT_FILES {
          known := false;
        }
      }
      if !known {
        return Err(UnknownFile);
      }
      var found := Get(paramSetDict, dir);
      if found.None? {
        return Err(KeyError(dir));
      }
      var params := found.value;
      var value := fromText(PathText(dir));
      var outpathOpt := [("core", Nested([("data_output_options", Nested([("out_path", Leaf(value))]))]))];
      assert outpathOpt == [(OUT_PATH_KEY[0], NestNode(OUT_PATH_KEY[1..], value))] by {
        NestTwo("data_output_options", "out_path", value);
        assert OUT_PATH_KEY[1..] == ["data_output_options", "out_path"];
      }
      var (merged, conflicts) := Merge(params, outpathOpt);
      MergeSetsPath(params, OUT_PATH_KEY, value);
      if conflicts != [] {
        return Err(OutpathSetTwice);
      }
      return Ok(RunCall(input, merged, dir + [LOG_FILE]));
    }
  }

  // ---------------------------------------------------------------------------
  // The grid of the package's tests

  /** `{"b": {"c": {"param": range(2, 4)}}, "a": {"param": range(2)}}`. */
  const TEST_PARAMS: Entries<seq<int>> := [
    ("b", Nested([("c", Nested([("param", Leaf([2, 3]))]))])),
    ("a", Nested([("param", Leaf([0, 1]))]))]

  /** The test grid flattened, in the order `_flatten_dict` writes it. */
  const TEST_FLAT: SubGrid<int> := [("b.c.param", [2, 3]), ("a.param", [0, 1])]

  /** A sub-dict with one entry prefixes its key. */
  lemma FlattenIntoSingle<V>(out: Flat<V>, p: string, k: string, child: Node<V>)
    ensures FlattenInto(out, p, Nested([(k, child)])) == FlattenInto(out, p + "." + k, child)
  {
    var node := Nested([(k, child)]);
    assert FlattenFrom(FlattenInto(out, p + "." + k, child), Some(p), node, 1)
      == FlattenInto(out, p + "." + k, child);
  }

  /** A dict with two entries flattens the first, then the second. */
  lemma FlattenTwo<V>(a: string, na: Node<V>, b: string, nb: Node<V>)
    ensures Flatten([(a, na), (b, nb)]) == FlattenInto(FlattenInto([], a, na), b, nb)
  {
    var node := Nested([(a, na), (b, nb)]);
    var out1 := FlattenInto([], a, na);
    var out2 := FlattenInto(out1, b, nb);
    assert FlattenFrom(out2, None, node, 2) == out2;
    assert FlattenFrom(out1, None, node, 1) == FlattenFrom(out2, None, node, 2);
  }

  lemma TestKeysText()
    ensures "b" + "." + "c" == "b.c" && "b.c" + "." + "param" == "b.c.param"
    ensures "a" + "." + "param" == "a.param" && |"b.c.param"| != |"a.param"|
  {
  }

  /** `_flatten_dict` of the test grid. */
  lemma TestGridFlat()
    ensures Flatten(TEST_PARAMS) == TEST_FLAT
  {
    var leafB: Node<seq<int>> := Leaf([2, 3]);
    var leafA: Node<seq<int>> := Leaf([0, 1]);
    var c := Nested([("param", leafB)]);
    TestKeysText();
    FlattenTwo("b", Nested([("c", c)]), "a", Nested([("param", leafA)]));
    FlattenIntoSingle([], "b", "c", c);
    FlattenIntoSingle([], "b.c", "param", leafB);
    var out1: Flat<seq<int>> := [("b.c.param", [2, 3])];
    assert FlattenInto([], "b.c.param", leafB) == out1;
    FlattenIntoSingle(out1, "a", "param", leafA);
    assert FlattenInto(out1, "a.param", leafA) == TEST_FLAT;
  }

  /** The test grid: with `str` printing 2 and 3 apart and 0 and 1 apart,
      `all_outputs` lists 2 * 2 directories of five files each, 20 paths. */
  lemma TestGridOutputs(e: VEExperiment<int>)
    requires e.Valid() && e.paramsFlat == Flatten(TEST_PARAMS)
    requires e.render(2) != e.render(3) && e.render(0) != e.render(1)
    ensures |e.paramSetDict| == 4 && |e.AllOutputs()| == 20
  {
    TestGridFlat();
    TestKeysText();
    TwoByTwo("b.c.param", 2, 3, "a.param", 0, 1, e.render);
    e.DirectoryPerCombination();
  }

  /** A flat grid of two keys with two values each, whose keys differ in
      length and whose values print apart. */
  lemma TwoByTwo<V>(x: string, u1: V, u2: V, y: string, w1: V, w2: V, render: V -> string)
    requires |x| != |y| && render(u1) != render(u2) && render(w1) != render(w2)
    ensures var flat := [(x, [u1, u2]), (y, [w1, w2])];
      PrintsApart(flat, render) && PlaceholdersApart(flat) && Width(Values(flat)) == 4
  {
    var flat := [(x, [u1, u2]), (y, [w1, w2])];
    assert PrintsApart(flat, render) by {
      forall k, a, b | 0 <= k < |flat| && 0 <= a < b < |flat[k].1|
        ensures render(flat[k].1[a]) != render(flat[k].1[b])
      {
        assert a == 0 && b == 1;
      }
    }
    assert PlaceholdersApart(flat) by {
      assert |Replace(x, '.', '_')| != |Replace(y, '.', '_')|;
      assert flat[0].0 == x && flat[1].0 == y;
    }
    var vs := Values(flat);
    assert vs == [[u1, u2], [w1, w2]];
    assert vs[..1] == [[u1, u2]] && vs[..1][..0] == [];
    assert Width(vs[..1]) == 2;
  }
}
