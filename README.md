# Snakemake parameter-sweep helper, modelled in Dafny

This project models the core of the `virtual_rainforest_snakemake_template`
helper. The helper takes a nested grid of simulator parameters and plans one
simulation per combination of values. Each run writes into its own output
directory, and the directory's name spells out the parameter values.

The model covers:

- **the key codec**: `_flatten_dict` and `_unflatten_dict` (module `KeyPath`, on ordered
  dicts from `OrderedDict`). `_flatten_dict` turns `{'a': {'b': 1}}` into
  `{'a.b': 1}` and `_unflatten_dict` turns it back.
- **the parameter grid**: scikit-learn's `ParameterGrid` (module `ParamGrid`), with its
  validation, its iteration order, its length and its mixed-radix indexing.
  Also `_permute_parameter_grid` (in `Experiment`), which yields nothing for an
  empty grid.
- **the experiment**: `VEExperiment` (module `Experiment`). It covers:
  - the output-path template, with one sorted `name_{name_with_underscores}` wildcard per parameter;
  - the map from each output directory to its parameter set;
  - the list of expected outputs;
  - the checks `run` makes before it hands the simulation its arguments.

  `snakemake_helper/vr_experiment.py` is the same code under the old class name, so both files are modelled once.
- **the legacy helper**: `snakemake_helper.py` (module `Legacy`). Its template keeps dict
  order and it has four output files. Its `run` checks only the folder, and it
  overwrites the whole `core` section of the stored parameter set in place.
- **the qsub wrapper**: `pbs-icl/pbs-submit.py` (module `PbsSubmit`). It builds the
  `HH:MM:00` walltime and rounds the memory request up to whole gigabytes with a
  floor of one. It also builds the `qsub` argument vector.

Modelling choices:

- **Dicts** are sequences of key/value pairs in insertion order.
  - `Assign` is `d[k] = v`: an existing key keeps its place.
  - `AssignAll` is `d |= other`.
- **Paths** are sequences of components.
  - `Parent` drops the last component.
  - `Name` is the last component.
- **Value rendering**:
  - `render: V -> string` stands for how `str.format` prints a value.
  - `fromText: string -> V` stands for the configuration value that holds a directory's text.
- **`_unflatten_dict`** is documented as the opposite of `_flatten_dict`. The code
  merges each key's nested dict with `out |= ...`, at the top level only. The
  model follows the code, so the round trip holds only under the preconditions of
  `KeyPath.RoundTrip`. `KeyPath.RoundTripLosesSiblings` shows what is lost
  otherwise.

## Model

| member | source | states |
|---|---|---|
| OrderedDict.GetAssign | snakemake_helper/vr_experiment.py:79 | after `d[k] = v`, `k` maps to `v` and every other key keeps its value |
| OrderedDict.KeysAssign | snakemake_helper/vr_experiment.py:79 | `d[k] = v` keeps the key order and appends `k` only when it is new |
| OrderedDict.GetAssignAllLast | snakemake_helper/vr_experiment.py:101 | after the in-place union of `d` with `pairs`, a key holds the value of its last occurrence in `pairs` |
| OrderedDict.HasKeyAssignAll | snakemake_helper/vr_experiment.py:101 | a key is present after the in-place union of `d` with `pairs` exactly when it was in `d` or in `pairs` |
| OrderedDict.AssignAllKeepsUnique | snakemake_helper/vr_experiment.py:101 | the in-place union never creates a duplicate key |
| Text.Replace | snakemake_helper/vr_experiment.py:119 | `str.replace` of one character keeps the length and changes exactly the matching characters |
| Text.SplitJoin | snakemake_helper/vr_experiment.py:97 | splitting on `.` the dot-join of dot-free parts gives the parts back |
| KeySort.SortSorted | snakemake_helper/vr_experiment.py:118 | `sorted` of distinct names is strictly increasing in code-point order (and a permutation, by `Sort`'s ensures) |
| KeySort.SortIgnoresOrder | snakemake_helper/vr_experiment.py:118 | sorting the same names given in any order gives the same list |
| KeyPath.FlattenDict | snakemake_helper/vr_experiment.py:43-61 | the loop over the top-level entries computes `Flatten` |
| KeyPath.FlattenDictInner | snakemake_helper/vr_experiment.py:64-79 | the recursive walk that fills `out` computes `FlattenInto` |
| KeyPath.FlattenIsLeafAssignment | snakemake_helper/vr_experiment.py:43-79 | flattening assigns each leaf, keyed by its dot-joined path, depth first; dicts never appear as values and an empty sub-dict adds no key (the same code is at snakemake_helper.py:15-35) |
| KeyPath.FlattenExample | snakemake_helper/vr_experiment.py:54-56 | `{'a': {'b': v}}` flattens to `{'a.b': v}` |
| KeyPath.UnflattenDict | snakemake_helper/vr_experiment.py:82-102 | the loop that rebinds `cur_dict` and merges into `out` computes `Unflatten` |
| KeyPath.UnflattenIsTopLevelAssignment | snakemake_helper/vr_experiment.py:95-101 | unflattening is a top-level in-place union of one single-path nested dict per key (the same code is at snakemake_helper.py:38-51) |
| KeyPath.UnflattenLastWins | snakemake_helper/vr_experiment.py:96-101 | the last key with a given first segment decides that entry's whole subtree |
| KeyPath.UnflattenExample | snakemake_helper/vr_experiment.py:91-93 | `{'a.b': v}` unflattens to `{'a': {'b': v}}` |
| KeyPath.UnflattenSharedPrefix | snakemake_helper/vr_experiment.py:101 | `{'a.b': 1, 'a.c': 2}` unflattens to `{'a': {'c': 2}}` |
| KeyPath.RoundTripLosesSiblings | snakemake_helper/vr_experiment.py:43-102 | `{'a': {'b': 1, 'c': 2}}` does not survive the round trip |
| KeyPath.RoundTrip | snakemake_helper/vr_experiment.py:43-102 | unflatten undoes flatten when no key holds a dot, there are no empty sub-dicts, and each top-level entry has one leaf |
| ParamGrid.New | snakemake_helper/parameter_grid.py:48-85 | a bare mapping is wrapped; the grid is accepted exactly when every sub-grid is a dict of non-empty sequences; otherwise the error is the first problem in visiting order. That problem raises ValueError exactly when the offending value is a sequence with no items, and TypeError exactly when the argument is neither a mapping nor an iterable, the offending sub-grid is not a dict, or the offending value is not a sequence |
| ParamGrid.Iterate | snakemake_helper/parameter_grid.py:87-105 | the nested loop yields `Enumerate`: the sub-grids in order, each one's combinations in turn |
| ParamGrid.IterateSubGrid | snakemake_helper/parameter_grid.py:96-105 | one sub-grid yields its sorted-key product, or one `{}` when empty |
| ParamGrid.ProductInjective | snakemake_helper/parameter_grid.py:103 | when no pool repeats a value, `product` yields every tuple once: equal tuples come from the same index |
| ParamGrid.SubEnumerateInjective | snakemake_helper/parameter_grid.py:96-105 | when no value list repeats a value, a non-empty sub-grid never yields the same dict twice |
| ParamGrid.SubEnumerateShape | snakemake_helper/parameter_grid.py:102-105 | every yielded dict has its sub-grid's keys in sorted order, each with a value from that key's sequence |
| ParamGrid.ProductDigit | snakemake_helper/parameter_grid.py:103 | in `product`, the value at position `j` of combination `i` is digit `j` of `i` in mixed radix, so the last key varies fastest |
| ParamGrid.LengthCounts | snakemake_helper/parameter_grid.py:107-113 | iteration yields exactly `len` dicts: the sum of the products of the sequence lengths, with an empty sub-grid counting 1 |
| ParamGrid.GetItem | snakemake_helper/parameter_grid.py:115-154 | for `0 <= ind < len` it returns `list(self)[ind]`, with keys in reverse sorted order; for `ind >= len` it raises IndexError |
| ParamGrid.Decode | snakemake_helper/parameter_grid.py:148-152 | the `divmod` loop fills one entry per key, with the key's value at the current digit |
| ParamGrid.ExtendBounds | snakemake_helper/parameter_grid.py:150 | for `0 <= ind < m*n`, `divmod(ind, n)` gives a quotient below `m` and an offset below `n`, so `v_list[offset]` is in range |
| ParamGrid.UnpackProduct | snakemake_helper/parameter_grid.py:139-152 | decoding over the reversed sorted keys gives the `ind`-th product combination, reversed |
| ParamGrid.LocateAgrees | snakemake_helper/parameter_grid.py:115-154 | indexing agrees with iteration for every `0 <= ind < len` and fails for every `ind >= len` |
| ParamGrid.NegativeIndexCounterexample | snakemake_helper/parameter_grid.py:130-154 | as written, `grid[-1]` of `[{'a': [1, 2]}, {'b': [3]}]` is `{'a': 2}`, while `list(grid)[-1]` is `{'b': 3}` |
| ParamGrid.LocateFromEndAgrees | snakemake_helper/parameter_grid.py:115-127 | with negative indices counted from `len`, indexing agrees with `list(self)[ind]` for every integer and fails exactly where the list index fails |
| ParamGrid.IterationExample | snakemake_helper/parameter_grid.py:33-37 | `{'a': [1, 2], 'b': [True, False]}` yields the four dicts of the docstring, in order |
| ParamGrid.GetItemExample | snakemake_helper/parameter_grid.py:39-45 | for the kernel/gamma grid, item 1 is `{'kernel': 'rbf', 'gamma': 1}` |
| Experiment.PermuteYields | snakemake_helper/vr_experiment.py:16-40 | the number of combinations is the product of the value counts, and zero for an empty grid (where `ParameterGrid` yields one `{}`); each has every key once, sorted, with a value from its list |
| Experiment.PermuteExample | snakemake_helper/vr_experiment.py:30-32 | `{'a': range(2), 'b': range(3)}` gives the six dicts of the docstring, `b` fastest |
| Experiment.GetOutpathWithWildcards | snakemake_helper/vr_experiment.py:105-120 | the loop of `/=` builds the root followed by one wildcard per name, in sorted order |
| Experiment.WildcardTemplateShape | snakemake_helper/vr_experiment.py:117-120 | the template is the root, then exactly one wildcard per distinct name, in strictly increasing name order |
| Experiment.SpellDotted | snakemake_helper/vr_experiment.py:119 | the wildcard of `a.b` reads `a.b_{a_b}` |
| Experiment.TemplateIgnoresOrder | snakemake_helper/vr_experiment.py:118 | the template does not depend on the order in which the names are given |
| Experiment.OutpathExample | tests/test_ve_experiment.py:31-35 | `out` with `core.param1`, `core.param2` gives `out/core.param1_{core_param1}/core.param2_{core_param2}` |
| Experiment.OutpathSortedExample | tests/test_ve_experiment.py:44-46 | names given as `b.c.param`, `a.param` give `out/a.param_{a_param}/b.c.param_{b_c_param}` |
| Experiment.WildcardCovers | snakemake_helper/ve_experiment.py:146-147 | every placeholder of the template names a grid key with dots replaced by underscores |
| Experiment.CoveredFills | snakemake_helper/ve_experiment.py:169-174 | so `format(**args_dict)` finds every placeholder it needs, for every combination |
| Experiment.CollectParamSets | snakemake_helper/ve_experiment.py:168-176 | the loop stores the unflattened combination under its filled-in directory, a later one overwriting an earlier one |
| Experiment.GetParamSetDict | snakemake_helper/ve_experiment.py:160-176 | `_get_param_set_dict` over `_permute_parameter_grid` computes `ParamSetDict` |
| Experiment.ParamSetDictKeys | snakemake_helper/ve_experiment.py:168-176 | the dict has no repeated directory, and a directory is a key exactly when some combination fills the template to it |
| Experiment.DirsDistinct | snakemake_helper/ve_experiment.py:168-176 | when no two values of one list print the same and no two keys share a placeholder, two different combinations fill the template to different directories |
| Experiment.OneDirectoryPerCombination | snakemake_helper/ve_experiment.py:160-176 | under the same conditions the dict holds one directory per combination, in order, so it has as many keys as there are combinations |
| Experiment.ParamSetDictLookup | snakemake_helper/ve_experiment.py:175 | a directory maps to the unflattened combination that last produced it |
| Experiment.OutputFileOrder | snakemake_helper/ve_experiment.py:126-134 | `OUTPUT_FILES` is a set of five names, and the order used to list it holds each exactly once |
| Experiment.OutputsInAccepted | snakemake_helper/ve_experiment.py:195-199 | the five outputs of one directory pass both checks of `run`, and their parent is the directory |
| Experiment.BadOutputsRefused | tests/test_ve_experiment.py:96-108 | a file in another folder fails the folder check; an unknown file in the right folder passes it and fails the name check |
| Experiment.DirFilesMember | snakemake_helper/ve_experiment.py:155-158 | a path is listed exactly when its parent is a known directory and its name is an output file |
| Experiment.VEExperiment.constructor | snakemake_helper/ve_experiment.py:136-150 | it flattens the grid, builds the sorted template from the flat keys, and stores `ParamSetDict` over `_permute_parameter_grid` |
| Experiment.VEExperiment.AllOutputs | snakemake_helper/ve_experiment.py:152-158 | there are (directories × 5) outputs, and a path is among them exactly when it is a known directory plus an output file |
| Experiment.VEExperiment.DirectoryPerCombination | snakemake_helper/ve_experiment.py:152-176 | under the same conditions `all_outputs` has five paths per combination, that is five times the product of the value counts |
| Experiment.TestGridFlat | tests/test_ve_experiment.py:14-17 | the test grid flattens to `b.c.param` with `[2, 3]`, then `a.param` with `[0, 1]` |
| Experiment.TestGridOutputs | tests/test_ve_experiment.py:58-69 | for the test grid, with values that print apart, there are 4 directories and `all_outputs` has 20 paths |
| Experiment.VEExperiment.Output | snakemake_helper/ve_experiment.py:183-186 | five templates, and a file is an output file exactly when the template plus that file is listed |
| Experiment.VEExperiment.FilledOutputListed | snakemake_helper/ve_experiment.py:152-186 | filling any output template with any combination gives a path listed in `all_outputs` |
| Experiment.VEExperiment.Run | snakemake_helper/ve_experiment.py:188-210 | the checks fail in order: empty output, mixed folders, unknown file, unknown directory, out_path already set. On success it passes the inputs unchanged, the recursive merge that sets `core.data_output_options.out_path` and keeps every other setting, and `dir/ve_run.log` |
| ConfigMerge.MergeSetsPath | snakemake_helper/ve_experiment.py:203-207 | the stand-in merge sets the path, keeps every diverging path, and reports a conflict exactly when the path is not free |
| ConfigMerge.FreeMeansUnset | snakemake_helper/ve_experiment.py:205-207 | a free path holds no value yet |
| Legacy.SelfTest | snakemake_helper.py:139-144 | `{"a": {"b": "value"}}` flattens to `{"a.b": "value"}` and unflattens back |
| Legacy.GetOutpathInDictOrder | snakemake_helper.py:54-62 | the loop builds the root followed by one wildcard per name, in the given order |
| Legacy.SortedNamesAgree | snakemake_helper.py:60 | when the names already come sorted, the legacy template equals the sorted one |
| Legacy.DictOrderMatters | snakemake_helper.py:60-61 | names `b`, `a` and `a`, `b` give different legacy templates but the same sorted template |
| Legacy.DictOrderCovers | snakemake_helper.py:110 | every placeholder names a grid key with dots replaced by underscores |
| Legacy.SingleGridCombinations | snakemake_helper.py:105 | `ParameterGrid(params_flat)` yields the combinations of that one dict |
| Legacy.GetGridParamSetDict | snakemake_helper.py:100-112 | `_get_param_set_dict` over `ParameterGrid` computes `ParamSetDict` |
| Legacy.EmptyGridContrast | snakemake_helper.py:105 | an empty grid plans one run, in the root with no parameters; the package version plans none |
| Legacy.SetOutPathClobbers | snakemake_helper.py:133 | the in-place union with `{"core": ...}` sets the out path, keeps every other section, and loses every other setting under `core` |
| Legacy.ClobberedSetting | snakemake_helper.py:133 | a grid setting `core.b.param` loses it here but keeps it through the recursive merge |
| Legacy.SetOutPathIdempotent | snakemake_helper.py:133 | setting the out path twice is setting it once |
| Legacy.RunTwiceSameState | snakemake_helper.py:130-133 | after `run` has changed the stored set in place, a second `run` for the same folder leaves it as it is |
| Legacy.VRExperiment.constructor | snakemake_helper.py:76-90 | it flattens the grid, builds the dict-order template, and stores `ParamSetDict` over `ParameterGrid` |
| Legacy.VRExperiment.AllOutputs | snakemake_helper.py:92-98 | there are (directories × 4) outputs, and a path is among them exactly when it is a known directory plus one of the four files |
| Legacy.VRExperiment.Output | snakemake_helper.py:119-122 | four templates, each the template plus the file at that position of the tuple |
| Legacy.VRExperiment.Run | snakemake_helper.py:124-136 | it fails only on an empty output list, on mixed folders and on an unknown directory, and then leaves the state unchanged. On success it stores the clobbered set in place and passes the inputs, that set, and `dir/vr_full_model_configuration.toml` |
| PbsSubmit.DivMod60 | pbs-icl/pbs-submit.py:11 | `hours*60 + mins == runtime_min` and `0 <= mins < 60` |
| PbsSubmit.Pad2 | pbs-icl/pbs-submit.py:12 | `{n:02}` is `max(2, len(str(n)))` long, reads back as `n` for `n >= 0`, and is `str(n)` for negatives |
| PbsSubmit.RuntimeFields | pbs-icl/pbs-submit.py:9-12 | the walltime has three colon fields: the padded hours (any number of digits), two minute digits below 60, and `00` |
| PbsSubmit.RuntimeRoundTrip | pbs-icl/pbs-submit.py:9-12 | for `runtime_min >= 0`, the walltime reads back as `runtime_min` |
| PbsSubmit.RuntimeStrInjective | pbs-icl/pbs-submit.py:9-12 | different non-negative runtimes give different walltimes |
| PbsSubmit.RuntimeExamples | pbs-icl/pbs-submit.py:9-12 | 90 minutes is `01:30:00` and 6000 minutes is `100:00:00` |
| PbsSubmit.NegativeRuntime | pbs-icl/pbs-submit.py:11-12 | a negative runtime is not refused: -1 is `-1:59:00` |
| PbsSubmit.CeilThousand | pbs-icl/pbs-submit.py:18 | `ceil(a / 1000)` is the `q` with `(q-1)*1000 < a <= q*1000` |
| PbsSubmit.MemGb | pbs-icl/pbs-submit.py:17-18 | `mem_gb >= 1`; it is 1 up to 1000 MB, and otherwise the whole number of gigabytes that just holds `mem_mb` |
| PbsSubmit.MemGbLeast | pbs-icl/pbs-submit.py:18 | no smaller whole number of gigabytes (at least 1) holds the request |
| PbsSubmit.MemGbMonotone | pbs-icl/pbs-submit.py:18 | more memory never asks for fewer gigabytes |
| PbsSubmit.SelectFields | pbs-icl/pbs-submit.py:24 | the `-lselect` argument splits into `-lselect=1`, `ncpus=<threads>` and `mem=<mem_gb>gb`, and the numbers read back |
| PbsSubmit.QsubArgsFields | pbs-icl/pbs-submit.py:20-27 | the argument vector is `qsub`, the resource request, `-lwalltime=` plus a walltime that reads back as the runtime, and the job script |

## Left out

- `ve_run` and `vr_run` are not called. `run` returns the record of the arguments it would pass instead.
- `execvp`, `sys.argv` parsing, `usage`/`sys.exit` in pbs-icl/pbs-submit.py, and the `print` calls of the legacy self-test are process and I/O plumbing.
- `config_merge` of virtual_ecosystem is not part of this model. `ConfigMerge` is an assumed stand-in. It is a recursive merge that reports each path it overwrites, and only what the package's tests rely on is proved about it.
- `str.format` rendering of Python values is abstract: the `render` parameter.
- The configuration value of a directory's text is abstract: the `fromText` parameter.
- pathlib normalisation is not modelled: paths are component lists, and a template is its list of segments.
- Whether two combinations fill to the same directory depends on `render`. The model proves what the dict holds in either case, and that directories are distinct when values print apart and no two keys share a placeholder (`Experiment.DirsDistinct`).
- Two keys such as `a.b` and `a_b` share the placeholder `a_b`. The model keeps Python's behaviour, where the later one wins in `args_dict`, and proves nothing about such grids beyond that.
- Experiment.Fill: `str.format` parses the whole template text, but the model looks up each placeholder by keyword. Parameter names and the root are assumed to be plain identifiers for `str.format`.
- Experiment.Fill: a parameter name made only of digits becomes a positional field such as `{1}`, which raises IndexError in Python; the model fills it.
- Experiment.Fill: a name containing `[`, `:`, `!`, `{` or `}` makes Python raise KeyError or ValueError; the model fills it.
- Experiment.Fill: a brace in `out_path_root` is parsed too in Python, and `{{` turns into `{`; the model keeps the root as it is.
- Experiment.VEExperiment.constructor: every leaf of the grid is assumed to be iterable (the type `Entries<seq<V>>`). A leaf that is not makes `product` raise TypeError in `_permute_parameter_grid`, and that error is not modelled.
- Experiment.VEExperiment.Run: `config_merge` is assumed to return a new dict and leave `params` unchanged. If it updated `params` in place, the stored parameter set would change, which this model does not capture.
- `OUTPUT_FILES` in the package is a Python set, so its iteration order is unspecified. The model lists it in one fixed order, and states membership and counts, not order.
- numpy arrays are left out: the `ndim > 1` check of `ParameterGrid.__init__`, and `np.prod`'s fixed-width integers. Sequences are plain lists and counts are unbounded.
- `math.ceil(mem_mb / 1000)` goes through floating point. The model uses exact integer ceiling division, which agrees for every realistic `mem_mb`.
- ParamGrid.New: `RawDicts` requires that no input dict repeats a key, which Python dicts guarantee. It does not model the value types numpy allows.
- Legacy.VRExperiment.constructor: requires every value list of the flattened grid to be non-empty. The ValueError that scikit-learn's `ParameterGrid` raises otherwise is not modelled here; it is modelled in `ParamGrid.New`.
- Legacy.VRExperiment.Run: the stored dict is changed in place through the alias `params`. The model shows this as the class's `paramSetDict` changing. Other aliases of that dict are not modelled.
- scikit-learn's own `ParameterGrid`, used by the legacy helper, is taken to behave as the copy in snakemake_helper/parameter_grid.py.
- Snakemake's `Namedlist` is taken to be a plain list, and the unittest mocks are left out.

## Findings

| source | as written | input that shows it | evidently intended | confidence | as-written member | corrected member |
|---|---|---|---|---|---|---|
| snakemake_helper/parameter_grid.py:130-154 | a negative `ind` is decoded inside the first non-empty sub-grid, because `divmod` of a negative index still succeeds | `ParameterGrid([{'a': [1, 2]}, {'b': [3]}])[-1]` gives `{'a': 2}` | `self[ind] == list(self)[ind]`, as the docstring says, so `{'b': 3}` | not executed; medium | ParamGrid.NegativeIndexCounterexample | ParamGrid.LocateFromEndAgrees |
| snakemake_helper.py:133 | the in-place union of `params` with `{"core": {...}}` replaces the whole `core` section of the parameter set | a grid `{"core": {"b": {"param": [0, 1]}}}`; the run loses `core.b.param` | a recursive merge that keeps the grid's `core` settings, as the package version does and its overlapping-parameters test (tests/test_ve_experiment.py:111-141) requires | not executed; medium | Legacy.ClobberedSetting | Experiment.VEExperiment.Run |
