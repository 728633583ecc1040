/** The older helper in snakemake_helper.py: the same flatten/unflatten
    codec, but an output template that keeps the parameters in dict order,
    `sklearn`'s `ParameterGrid` for the combinations (so an empty grid gives
    one run with no parameters), four output files, and a `run` that checks
    only the folder and then overwrites the whole `core` section of the
    stored parameter set. */
module Legacy {
  import opened Wrappers
  import opened OrderedDict
  import opened Text
  import opened KeySort
  import opened KeyPath
  import opened ParamGrid
  import opened ConfigMerge
  import opened Experiment

  /** The `__main__` self-test: `{"a": {"b": "value"}}` flattens to
      `{"a.b": "value"}` and unflattens back. */
  lemma SelfTest()
    ensures Flatten([("a", Nested([("b", Leaf("value"))]))]) == [("a.b", "value")]
    ensures Unflatten([("a.b", "value")]) == [("a", Nested([("b", Leaf("value"))]))]
  {
    FlattenExample("value");
    UnflattenExample("value");
  }

  // ---------------------------------------------------------------------------
  // The output template, in dict order

  /** The root followed by one wildcard per name, in the order given. */
  function DictOrderTemplate(root: Path, names: seq<string>): Template {
    Literal(root) + Wildcards(names)
  }

  /** `_get_outpath_with_wildcards`, which does not sort the names. */
  method GetOutpathInDictOrder(root: Path, names: seq<string>) returns (outpath: Template)
    ensures outpath == DictOrderTemplate(root, names)
  {
    outpath := Literal(root);
    for i := 0 to |names|
      invariant outpath == Literal(root) + Wildcards(names[..i])
    {
      WildcardsSnoc(names, i);
      outpath := outpath + [Wildcard(names[i])];
    }
    assert names[..|names|] == names;
  }

  /** When the dict already holds its parameters in sorted order, the old
      template is the new one. */
  lemma SortedNamesAgree(root: Path, names: seq<string>)
    requires StrictlySorted(names, Id)
    ensures DictOrderTemplate(root, names) == WildcardTemplate(root, names)
  {
    SortSorted(names, Id) by {
      assert DistinctKeys(names, Id) by {
        forall i, j | 0 <= i < j < |names| ensures names[i] != names[j] {
          LessIrreflexive(names[i]);
        }
      }
    }
    SortedUnique(Sort(names, Id), names, Id);
  }

  /** Otherwise the order matters: `b` before `a` puts the `b` wildcard
      first, where the sorted template puts it second. */
  lemma DictOrderMatters()
    ensures DictOrderTemplate(["out"], ["b", "a"]) != DictOrderTemplate(["out"], ["a", "b"])
    ensures WildcardTemplate(["out"], ["b", "a"]) == WildcardTemplate(["out"], ["a", "b"])
  {
    assert DictOrderTemplate(["out"], ["b", "a"])[1] == Wildcard("b");
    assert DictOrderTemplate(["out"], ["a", "b"])[1] == Wildcard("a");
    assert Wildcard("b").prefix[0] != Wildcard("a").prefix[0];
    assert Less("a", "b") by {
      assert "a"[..0] == "b"[..0];
    }
    SortTwo("a", "b");
  }

  /** The template has a placeholder only for keys of the grid. */
  lemma DictOrderCovers<V>(root: Path, flat: SubGrid<V>)
    ensures FieldsCovered(DictOrderTemplate(root, Keys(flat)), flat)
  {
    var t := DictOrderTemplate(root, Keys(flat));
    forall i | 0 <= i < |t| && t[i].Field?
      ensures exists j :: 0 <= j < |flat| && t[i].name == Replace(flat[j].0, '.', '_')
    {
      assert t[i] == Wildcard(flat[i - |root|].0);
    }
  }

  /** `ParameterGrid(params_flat)` yields the combinations of the single
      dict it is given; for an empty dict that is one empty combination. */
  lemma SingleGridCombinations<V>(flat: SubGrid<V>)
    ensures Enumerate([flat]) == SubEnumerate(flat)
  {
    var g: Grid<V> := [flat];
    assert g[1..] == [];
    assert SubEnumerate(flat) + [] == SubEnumerate(flat);
  }

  /** `_get_param_set_dict`, over `ParameterGrid(params_flat)`. */
  method GetGridParamSetDict<V>(outpath: Template, paramsFlat: SubGrid<V>, render: V -> string)
    returns (paramSetDict: Dict<Path, Entries<V>>)
    requires FieldsCovered(outpath, paramsFlat)
    ensures AllFilled(outpath, Enumerate([paramsFlat]))
    ensures paramSetDict == ParamSetDict(outpath, Enumerate([paramsFlat]), render)
  {
    CoveredFills(outpath, paramsFlat);
    SingleGridCombinations(paramsFlat);
    var combos := Iterate([paramsFlat]);
    paramSetDict := CollectParamSets(outpath, combos, render);
  }

  /** For an empty grid the old helper plans one run, in the root folder and
      with no parameters, where the new one plans none. */
  lemma EmptyGridContrast<V>(root: Path, render: V -> string)
    ensures AllFilled(DictOrderTemplate(root, []), Enumerate<V>([[]]))
    ensures ParamSetDict(DictOrderTemplate(root, []), Enumerate<V>([[]]), render) == [(root, [])]
    ensures AllFilled(WildcardTemplate(root, []), Permute<V>([]))
    ensures ParamSetDict(WildcardTemplate(root, []), Permute<V>([]), render) == []
  {
    var t := DictOrderTemplate(root, []);
    DictOrderCovers<V>(root, []);
    CoveredFills<V>(t, []);
    SingleGridCombinations<V>([]);
    var combos := Enumerate<V>([[]]);
    assert combos == [[]];
    assert ArgsOf<V>([]) == [];
    assert Fill(t, ArgsOf<V>([]), render) == root;
    assert Unflatten<V>([]) == [];
    var pairs := ParamSetPairs(t, combos, render);
    assert pairs == [(root, [])];
    AssignAllSingle([], pairs[0]);
    assert pairs[1..] == [];
    WildcardCovers<V>(root, []);
    CoveredFills<V>(WildcardTemplate(root, []), []);
  }

  // ---------------------------------------------------------------------------
  // Setting the output path by overwriting `core`

  /** `params |= {"core": {"data_output_options": {"out_path": v}}}`. */
  function SetOutPath<V>(params: Entries<V>, v: V): Entries<V> {
    AssignAll(params, [("core", NestNode(["data_output_options", "out_path"], v))])
  }

  /** The output path is set, every section other than `core` is kept, and
      every other setting under `core` is lost. */
  lemma SetOutPathClobbers<V>(params: Entries<V>, v: V, q: seq<string>)
    ensures Lookup(Nested(SetOutPath(params, v)), OUT_PATH_KEY) == Some(v)
    ensures q != [] && q[0] != "core" ==>
      Lookup(Nested(SetOutPath(params, v)), q) == Lookup(Nested(params), q)
    ensures q != [] && q[0] == "core" && Diverge(q, OUT_PATH_KEY) ==>
      Lookup(Nested(SetOutPath(params, v)), q) == None
  {
    var rest := ["data_output_options", "out_path"];
    assert OUT_PATH_KEY[1..] == rest;
    var core := NestNode(rest, v);
    AssignAllSingle(params, ("core", core));
    var p := Assign(params, "core", core);
    GetAssign(params, "core", core, "core");
    LookupNest(rest, v, rest);
    if q != [] {
      GetAssign(params, "core", core, q[0]);
      if q[0] == "core" && Diverge(q, OUT_PATH_KEY) {
        var i :| 0 <= i < |q| && i < |OUT_PATH_KEY| && q[i] != OUT_PATH_KEY[i];
        assert q[1..][i - 1] != rest[i - 1];
        LookupNest(rest, v, q[1..]);
      }
    }
  }

  /** The setting the overlapping-parameters test relies on: a grid setting
      `core.b.param` keeps it through the recursive merge of the new `run`,
      and loses it to the assignment of the old one. */
  lemma ClobberedSetting<V>(params: Entries<V>, v: V, x: V)
    requires Lookup(Nested(params), ["core", "b", "param"]) == Some(x)
    ensures Lookup(Nested(SetOutPath(params, v)), ["core", "b", "param"]) == None
    ensures Lookup(Nested(Merge(params, [(OUT_PATH_KEY[0], NestNode(OUT_PATH_KEY[1..], v))]).0),
                   ["core", "b", "param"]) == Some(x)
  {
    var q := ["core", "b", "param"];
    SiblingPath();
    SetOutPathClobbers(params, v, q);
    MergeKeeps(params, OUT_PATH_KEY, v, q);
  }

  /** A merged path leaves a diverging path as it was. */
  lemma MergeKeeps<V>(params: Entries<V>, path: seq<string>, v: V, q: seq<string>)
    requires path != [] && Diverge(q, path)
    ensures Lookup(Nested(Merge(params, [(path[0], NestNode(path[1..], v))]).0), q) == Lookup(Nested(params), q)
  {
    MergeSetsPath(params, path, v);
  }

  /** `core.b.param` sits under `core` and parts from the output path. */
  lemma SiblingPath()
    ensures var q := ["core", "b", "param"];
      q != [] && q[0] == "core" && Diverge(q, OUT_PATH_KEY)
  {
    var q := ["core", "b", "param"];
    assert q[1] != OUT_PATH_KEY[1] by {
      assert |q[1]| == 1 && |OUT_PATH_KEY[1]| == 19;
    }
  }

  /** Setting the output path twice is setting it once. */
  lemma SetOutPathIdempotent<V>(params: Entries<V>, v: V)
    ensures SetOutPath(SetOutPath(params, v), v) == SetOutPath(params, v)
  {
    var core := NestNode(["data_output_options", "out_path"], v);
    AssignAllSingle(params, ("core", core));
    AssignAllSingle(Assign(params, "core", core), ("core", core));
    AssignTwice(params, "core", core);
  }

  /** Because `run` changes the stored parameter set in place, a second
      `run` for the same folder finds the output path already set and leaves
      the stored dict as the first one left it. */
  lemma RunTwiceSameState<V>(d: Dict<Path, Entries<V>>, dir: Path, v: V)
    requires HasKey(d, dir)
    ensures var d1 := Assign(d, dir, SetOutPath(Get(d, dir).value, v));
      Get(d1, dir) == Some(SetOutPath(Get(d, dir).value, v)) &&
      Assign(d1, dir, SetOutPath(Get(d1, dir).value, v)) == d1
  {
    var p1 := SetOutPath(Get(d, dir).value, v);
    var d1 := Assign(d, dir, p1);
    GetAssign(d, dir, p1, dir);
    SetOutPathIdempotent(Get(d, dir).value, v);
    AssignTwice(d, dir, p1);
  }

  // ---------------------------------------------------------------------------
  // The experiment

  /** `OUTPUT_FILES`, a tuple of four names. */
  const LEGACY_OUTPUT_FILES: seq<string> :=
    [MERGE_CONFIG_FILE, "initial_state.nc", "final_state.nc", "all_continuous_data.nc"]

  /** The arguments `run` passes to `vr_run`: the inputs, the parameter set
      and the path of the merged configuration file. */
  datatype LegacyCall<V> = LegacyCall(cfgPaths: seq<string>, params: Entries<V>, mergeFile: Path)

  /** `VRExperiment`: the template, and the parameter sets, which `run`
      changes. */
  class VRExperiment<V> {
    /** `_outpath`. */
    const outpath: Template
    /** `_param_set_dict`. */
    var paramSetDict: Dict<Path, Entries<V>>
    /** How `str.format` prints a parameter value. */
    const render: V -> string
    /** The configuration value for a path's text. */
    const fromText: string -> V
    /** The flattened grid the experiment was built from. */
    ghost const paramsFlat: SubGrid<V>

    /** `__init__`. `ParameterGrid` refuses a grid with an empty list of
        values, so such grids are outside this model. */
    constructor(outPathRoot: Path, paramGrid: Entries<seq<V>>, render: V -> string, fromText: string -> V)
      requires NonEmptyValues(Flatten(paramGrid))
      ensures this.render == render && this.fromText == fromText
      ensures paramsFlat == Flatten(paramGrid)
      ensures outpath == DictOrderTemplate(outPathRoot, Keys(paramsFlat))
      ensures AllFilled(outpath, Enumerate([paramsFlat]))
      ensures paramSetDict == ParamSetDict(outpath, Enumerate([paramsFlat]), render)
    {
      var flat := FlattenDict(paramGrid);
      var t := GetOutpathInDictOrder(outPathRoot, Keys(flat));
      DictOrderCovers(outPathRoot, flat);
      var d := GetGridParamSetDict(t, flat, render);
      paramsFlat := flat;
      outpath := t;
      paramSetDict := d;
      this.render := render;
      this.fromText := fromText;
    }

    /** `all_outputs`: each of the four files in each directory, and nothing
        else. */
    function AllOutputs(): (r: seq<Path>)
      reads this
      ensures |r| == |paramSetDict| * |LEGACY_OUTPUT_FILES|
      ensures forall p :: p in r <==>
        p != [] && HasKey(paramSetDict, Parent(p)) && Name(p) in LEGACY_OUTPUT_FILES
    {
      forall p ensures p in DirFiles(paramSetDict, LEGACY_OUTPUT_FILES) <==>
        p != [] && HasKey(paramSetDict, Parent(p)) && Name(p) in LEGACY_OUTPUT_FILES
      {
        DirFilesMember(paramSetDict, LEGACY_OUTPUT_FILES, p);
      }
      DirFiles(paramSetDict, LEGACY_OUTPUT_FILES)
    }

    /** `output`: the template followed by each of the four files, in the
        tuple's order. */
    function Output(): (r: seq<Template>)
      ensures |r| == |LEGACY_OUTPUT_FILES|
      ensures forall k :: 0 <= k < |r| ==>
        |r[k]| == |outpath| + 1 && r[k][..|outpath|] == outpath && r[k][|outpath|..] == [Fixed(LEGACY_OUTPUT_FILES[k])]
    {
      seq(4, k requires 0 <= k < 4 => outpath + [Fixed(LEGACY_OUTPUT_FILES[k])])
    }

    /** `run`: check that the outputs share a folder, add the output path to
        that folder's parameter set by overwriting `core`, in place, and
        hand the set to the simulation. The names of the files are not
        checked, and nothing reports an output path the grid already set. */
    method Run(input: seq<string>, output: seq<Path>) returns (r: Result<LegacyCall<V>, RunError>)
      modifies this
      ensures r == Err(IndexError) <==> output == []
      ensures r == Err(NotSameFolder) <==> output != [] && !SameFolder(output)
      ensures (r.Err? && r.error.KeyError?) <==>
        (output != [] && SameFolder(output) && !old(HasKey(paramSetDict, Parent(output[0]))))
      ensures r != Err(UnknownFile) && r != Err(OutpathSetTwice)
      ensures r.Err? ==> paramSetDict == old(paramSetDict)
      ensures r.Ok? ==>
        (output != [] && old(HasKey(paramSetDict, Parent(output[0]))) &&
         var dir := Parent(output[0]);
         var params := SetOutPath(old(Get(paramSetDict, dir)).value, fromText(PathText(dir)));
         r.value == LegacyCall(input, params, dir + [MERGE_CONFIG_FILE]) &&
         paramSetDict == Assign(old(paramSetDict), dir, params))
    {
      if |output| == 0 {
        return Err(IndexError);
      }
      var dir := Parent(output[0]);
      var sameFolder := true;
      for i := 0 to |output|
        invariant sameFolder <==> forall j :: 0 <= j < i ==> Parent(output[j]) == dir
      {
        if Parent(output[i]) != dir {
          sameFolder := false;
        }
      }
      if !sameFolder {
        return Err(NotSameFolder);
      }
      var found := Get(paramSetDict, dir);
      if found.None? {
        return Err(KeyError(dir));
      }
      var params := SetOutPath(found.value, fromText(PathText(dir)));
      paramSetDict := Assign(paramSetDict, dir, params);
      return Ok(LegacyCall(input, params, dir + [MERGE_CONFIG_FILE]));
    }
  }
}
