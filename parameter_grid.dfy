/** `ParameterGrid` of snakemake_helper/parameter_grid.py (taken from
    scikit-learn): it checks a list of sub-grids, each a dict from parameter
    name to the list of values to try, and enumerates their combinations in
    three ways -- by iteration, by a length formula, and by index. */
module ParamGrid {
  import opened Wrappers
  import opened OrderedDict
  import opened Text
  import opened KeySort

  // ---------------------------------------------------------------------------
  // What `__init__` is given

  /** A parameter's value in the input: a sequence (list, tuple, range), a
      str, or anything else. */
  datatype RawValue<V> = Sequence(items: seq<V>) | Str(text: string) | Other

  /** One element of the grid list: a dict, or anything else. */
  datatype RawSubGrid<V> = DictGrid(entries: Dict<string, RawValue<V>>) | NotDict

  /** The argument of `__init__`: a Mapping (wrapped into a one-element list),
      an iterable of sub-grids, or neither. */
  datatype RawGrid<V> =
    | Mapping(single: RawSubGrid<V>)
    | Iterable(subGrids: seq<RawSubGrid<V>>)
    | NeitherMappingNorIterable

  /** The reasons `__init__` raises; positions index the (wrapped) sub-grid
      list and the items of that sub-grid. */
  datatype GridError =
    | NotDictOrList
    | SubGridNotDict(grid: nat)
    | NotAList(grid: nat, entry: nat)
    | EmptyValues(grid: nat, entry: nat)

  datatype ErrorKind = TypeError | ValueError

  /** The Python exception class raised for each reason. */
  function Kind(e: GridError): (k: ErrorKind)
  {
    if e.EmptyValues? then ValueError else TypeError
  }

  // ---------------------------------------------------------------------------
  // A checked grid

  type SubGrid<V> = Dict<string, seq<V>>
  type Grid<V> = seq<SubGrid<V>>
  type Params<V> = Dict<string, V>

  /** What a constructed `ParameterGrid` holds: dicts whose value lists are
      non-empty. */
  predicate ValidGrid<V>(g: Grid<V>) {
    forall p :: 0 <= p < |g| ==> UniqueKeys(g[p]) && NonEmptyValues(g[p])
  }

  predicate NonEmptyValues<V>(p: SubGrid<V>) {
    forall j :: 0 <= j < |p| ==> |p[j].1| > 0
  }

  /** The sub-grid list after a bare mapping has been wrapped. */
  function SubGridsOf<V>(raw: RawGrid<V>): Option<seq<RawSubGrid<V>>> {
    match raw
    case Mapping(single) => Some([single])
    case Iterable(gs) => Some(gs)
    case NeitherMappingNorIterable => None
  }

  predicate ValueAccepted<V>(v: RawValue<V>) {
    v.Sequence? && |v.items| > 0
  }

  predicate SubGridAccepted<V>(s: RawSubGrid<V>) {
    s.DictGrid? && forall j :: 0 <= j < |s.entries| ==> ValueAccepted(s.entries[j].1)
  }

  /** Python dicts never repeat a key. */
  predicate RawDicts<V>(raw: RawGrid<V>) {
    SubGridsOf(raw).Some? ==>
      forall p :: 0 <= p < |SubGridsOf(raw).value| ==>
        var s := SubGridsOf(raw).value[p];
        s.DictGrid? ==> UniqueKeys(s.entries)
  }

  /** The sub-grid with each value sequence taken as the list of its items. */
  function Accepted<V>(s: RawSubGrid<V>): (p: SubGrid<V>)
    requires SubGridAccepted(s)
  {
    seq(|s.entries|, j requires 0 <= j < |s.entries| => (s.entries[j].0, s.entries[j].1.items))
  }

  /** `e` is the first problem `__init__`'s loops run into: everything visited
      before it passed. */
  ghost predicate FirstProblem<V>(raw: RawGrid<V>, e: GridError) {
    match e
    case NotDictOrList => raw.NeitherMappingNorIterable?
    case SubGridNotDict(p) =>
      SubGridsOf(raw).Some? && FineBefore(SubGridsOf(raw).value, p) &&
      SubGridsOf(raw).value[p].NotDict?
    case NotAList(p, j) =>
      SubGridsOf(raw).Some? && FineBefore(SubGridsOf(raw).value, p) &&
      EntryAt(SubGridsOf(raw).value[p], j) && ValuesFineBefore(SubGridsOf(raw).value[p], j) &&
      !SubGridsOf(raw).value[p].entries[j].1.Sequence?
    case EmptyValues(p, j) =>
      SubGridsOf(raw).Some? && FineBefore(SubGridsOf(raw).value, p) &&
      EntryAt(SubGridsOf(raw).value[p], j) && ValuesFineBefore(SubGridsOf(raw).value[p], j) &&
      SubGridsOf(raw).value[p].entries[j].1.Sequence? &&
      |SubGridsOf(raw).value[p].entries[j].1.items| == 0
  }

  predicate FineBefore<V>(gs: seq<RawSubGrid<V>>, p: nat) {
    p < |gs| && forall q :: 0 <= q < p ==> SubGridAccepted(gs[q])
  }

  predicate EntryAt<V>(s: RawSubGrid<V>, j: nat) {
    s.DictGrid? && j < |s.entries|
  }

  predicate ValuesFineBefore<V>(s: RawSubGrid<V>, j: nat)
    requires EntryAt(s, j)
  {
    forall i :: 0 <= i < j ==> ValueAccepted(s.entries[i].1)
  }

  /** The sub-grid an error is about, when it is about one that is not a dict. */
  function OffendingSubGrid<V>(raw: RawGrid<V>, e: GridError): Option<RawSubGrid<V>> {
    match e
    case SubGridNotDict(p) =>
      if SubGridsOf(raw).Some? && p < |SubGridsOf(raw).value| then Some(SubGridsOf(raw).value[p]) else None
    case _ => None
  }

  /** The value an error is about, when it is about a value. */
  function OffendingValue<V>(raw: RawGrid<V>, e: GridError): Option<RawValue<V>> {
    match e
    case NotAList(p, j) => ValueAt(raw, p, j)
    case EmptyValues(p, j) => ValueAt(raw, p, j)
    case _ => None
  }

  function ValueAt<V>(raw: RawGrid<V>, p: nat, j: nat): Option<RawValue<V>> {
    if SubGridsOf(raw).Some? && p < |SubGridsOf(raw).value| && EntryAt(SubGridsOf(raw).value[p], j)
    then Some(SubGridsOf(raw).value[p].entries[j].1)
    else None
  }

  /** `ParameterGrid.__init__`: wrap a bare mapping, then check every sub-grid
      and every value in order, stopping at the first problem, which raises
      ValueError for a sequence with no items and TypeError otherwise. */
  method New<V>(raw: RawGrid<V>) returns (r: Result<Grid<V>, GridError>)
    requires RawDicts(raw)
    ensures r.Ok? <==> (SubGridsOf(raw).Some? &&
      forall p :: 0 <= p < |SubGridsOf(raw).value| ==> SubGridAccepted(SubGridsOf(raw).value[p]))
    ensures r.Ok? ==> (|r.value| == |SubGridsOf(raw).value| && ValidGrid(r.value) &&
      forall p :: 0 <= p < |r.value| ==> r.value[p] == Accepted(SubGridsOf(raw).value[p]))
    ensures r.Err? ==> FirstProblem(raw, r.error)
    ensures r.Err? ==> (Kind(r.error) == ValueError <==>
      OffendingValue(raw, r.error).Some? && OffendingValue(raw, r.error).value.Sequence? &&
      |OffendingValue(raw, r.error).value.items| == 0)
    ensures r.Err? ==> (Kind(r.error) == TypeError <==>
      raw.NeitherMappingNorIterable? ||
      (OffendingSubGrid(raw, r.error).Some? && OffendingSubGrid(raw, r.error).value.NotDict?) ||
      (OffendingValue(raw, r.error).Some? && !OffendingValue(raw, r.error).value.Sequence?))
  {
    if raw.NeitherMappingNorIterable? {
      return Err(NotDictOrList);
    }
    var grids := if raw.Mapping? then [raw.single] else raw.subGrids;
    assert grids == SubGridsOf(raw).value;
    for p := 0 to |grids|
      invariant forall q :: 0 <= q < p ==> SubGridAccepted(grids[q])
    {
      var s := grids[p];
      if s.NotDict? {
        return Err(SubGridNotDict(p));
      }
      for j := 0 to |s.entries|
        invariant forall i :: 0 <= i < j ==> ValueAccepted(s.entries[i].1)
      {
        var value := s.entries[j].1;
        if !value.Sequence? {
          return Err(NotAList(p, j));
        }
        if |value.items| == 0 {
          return Err(EmptyValues(p, j));
        }
      }
    }
    var g := seq(|grids|, p requires 0 <= p < |grids| && SubGridAccepted(grids[p]) => Accepted(grids[p]));
    assert ValidGrid(g) by {
      forall p | 0 <= p < |g| ensures UniqueKeys(g[p]) && NonEmptyValues(g[p]) {
        assert UniqueKeys(grids[p].entries);
      }
    }
    return Ok(g);
  }

  // ---------------------------------------------------------------------------
  // Arithmetic for mixed radix numbers

  lemma DivBelow(i: int, m: nat, n: nat)
    requires 0 <= i < m * n
    ensures n > 0 && 0 <= i / n < m && 0 <= i % n < n
  {
    assert n != 0;
    assert (i / n) * n <= i;
    MulLessCancel(i / n, m, n);
  }

  lemma MulLessCancel(a: int, b: int, n: nat)
    requires a * n < b * n
    ensures a < b
  {
    assert (b - a) * n > 0;
  }

  lemma MulMonotone(a: int, b: int, n: nat)
    requires a <= b
    ensures a * n <= b * n
  {
  }

  /** Euclidean quotient by `q * d + s` with `0 <= s < d` is `q`. */
  lemma DivUnique(i: int, d: int, q: int, s: int)
    requires d > 0 && i == q * d + s && 0 <= s < d
    ensures i / d == q && i % d == s
  {
    var q' := i / d;
    var s' := i % d;
    assert q' * d + s' == q * d + s;
    if q' > q {
      assert (q' - q) * d == s - s';
      MulMonotone(1, q' - q, d);
    } else if q' < q {
      assert (q - q') * d == s' - s;
      MulMonotone(1, q - q', d);
    }
  }

  /** Dividing by `a` and then by `b` is dividing by `b * a`. */
  lemma DivDiv(i: int, a: int, b: int)
    requires a > 0 && b > 0
    ensures (i / a) / b == i / (b * a)
  {
    var q := i / a;
    var r := i % a;
    var q2 := q / b;
    var r2 := q % b;
    assert i == q2 * (b * a) + (r2 * a + r) by {
      assert i == q * a + r;
      assert q == q2 * b + r2;
    }
    assert r2 * a + r < b * a by {
      MulMonotone(r2, b - 1, a);
    }
    DivUnique(i, b * a, q2, r2 * a + r);
  }

  // ---------------------------------------------------------------------------
  // `itertools.product` and the size of a product

  /** `reduce(operator.mul, (len(v) for v in values))`, a left fold; 1 for no
      values. */
  function Width<V>(vs: seq<seq<V>>): nat {
    if vs == [] then 1 else Width(vs[..|vs| - 1]) * |vs[|vs| - 1]|
  }

  /** One round of `product`: every earlier tuple followed by every element of
      `w`, the new element varying fastest. */
  function Extend<V>(ts: seq<seq<V>>, w: seq<V>): (r: seq<seq<V>>)
    ensures |r| == |ts| * |w|
    ensures forall i :: 0 <= i < |r| ==>
      0 <= i / |w| < |ts| && 0 <= i % |w| < |w| && r[i] == ts[i / |w|] + [w[i % |w|]]
  {
    if |w| == 0 then []
    else
      ExtendBounds(|ts|, |w|);
      seq(|ts| * |w|, i requires 0 <= i < |ts| * |w| => ts[i / |w|] + [w[i % |w|]])
  }

  lemma ExtendBounds(m: nat, n: nat)
    requires n > 0
    ensures forall i :: 0 <= i < m * n ==> 0 <= i / n < m && 0 <= i % n < n
  {
    forall i | 0 <= i < m * n ensures 0 <= i / n < m && 0 <= i % n < n {
      DivBelow(i, m, n);
    }
  }

  /** `itertools.product(*vs)`: one pool after the other, the last pool
      varying fastest. */
  function Product<V>(vs: seq<seq<V>>): (r: seq<seq<V>>)
    ensures |r| == Width(vs)
  {
    if vs == [] then [[]]
    else Extend(Product(vs[..|vs| - 1]), vs[|vs| - 1])
  }

  /** Each product tuple takes one element from each pool, in pool order. */
  lemma {:induction false} ProductMembers<V>(vs: seq<seq<V>>, i: nat)
    requires i < Width(vs)
    ensures |Product(vs)[i]| == |vs|
    ensures forall j :: 0 <= j < |vs| ==> Product(vs)[i][j] in vs[j]
  {
    if vs != [] {
      var m := |vs|;
      var n := |vs[m - 1]|;
      var init := vs[..m - 1];
      DivBelow(i, Width(init), n);
      ProductMembers(init, i / n);
      var t := Product(init)[i / n] + [vs[m - 1][i % n]];
      assert Product(vs)[i] == t;
      forall j | 0 <= j < m ensures t[j] in vs[j] {
        if j < m - 1 {
          assert init[j] == vs[j];
        }
      }
    }
  }

  predicate NonEmptyPools<V>(vs: seq<seq<V>>) {
    forall k :: 0 <= k < |vs| ==> |vs[k]| > 0
  }

  lemma {:induction false} WidthPositive<V>(vs: seq<seq<V>>)
    requires NonEmptyPools(vs)
    ensures Width(vs) > 0
  {
    if vs != [] {
      WidthPositive(vs[..|vs| - 1]);
    }
  }

  /** The last pool varies fastest: position `j` of tuple `i` is digit `j` of
      `i` in the mixed radix whose place values are products of later sizes. */
  lemma {:induction false} ProductDigit<V>(vs: seq<seq<V>>, i: nat, j: nat)
    requires i < Width(vs) && j < |vs| && NonEmptyPools(vs)
    ensures |vs[j]| > 0 && |Product(vs)[i]| == |vs| && Width(vs[j + 1..]) > 0
    ensures Product(vs)[i][j] == vs[j][(i / Width(vs[j + 1..])) % |vs[j]|]
  {
    ProductMembers(vs, i);
    WidthPositive(vs[j + 1..]);
    var m := |vs|;
    var init := vs[..m - 1];
    var n := |vs[m - 1]|;
    DivBelow(i, Width(init), n);
    var t := Product(init)[i / n] + [vs[m - 1][i % n]];
    assert Product(vs)[i] == t;
    if j == m - 1 {
      assert vs[j + 1..] == [];
      assert Product(vs)[i][j] == vs[j][i % n];
    } else {
      ProductDigit(init, i / n, j);
      var w := Width(init[j + 1..]);
      assert Product(vs)[i][j] == vs[j][((i / n) / w) % |vs[j]|] by {
        assert t[j] == Product(init)[i / n][j] && init[j] == vs[j];
      }
      assert Width(vs[j + 1..]) == w * n by {
        assert vs[j + 1..][..|vs[j + 1..]| - 1] == init[j + 1..];
      }
      DivDiv(i, n, w);
    }
  }

  lemma {:induction false} WidthCons<V>(x: seq<V>, vs: seq<seq<V>>)
    ensures Width([x] + vs) == |x| * Width(vs)
    decreases |vs|
  {
    if vs != [] {
      var m := |vs|;
      assert ([x] + vs)[..m] == [x] + vs[..m - 1];
      WidthCons(x, vs[..m - 1]);
    } else {
      assert ([x] + vs)[..0] == [];
    }
  }

  /** The product size does not depend on the order of the pools. */
  lemma {:induction false} WidthReverse<V>(vs: seq<seq<V>>)
    ensures Width(Reverse(vs)) == Width(vs)
  {
    if vs != [] {
      var m := |vs|;
      assert vs == vs[..m - 1] + [vs[m - 1]];
      ReverseSnoc(vs[..m - 1], vs[m - 1]);
      WidthCons(vs[m - 1], Reverse(vs[..m - 1]));
      WidthReverse(vs[..m - 1]);
    }
  }

  function ItemKey<V>(item: (string, seq<V>)): string {
    item.0
  }

  /** `sorted(p.items())`. */
  function SortedItems<V>(p: SubGrid<V>): (s: SubGrid<V>)
    ensures |s| == |p| && multiset(s) == multiset(p)
  {
    Sort(p, ItemKey)
  }

  lemma ValuesCons<K, V>(x: (K, V), d: Dict<K, V>)
    ensures Values([x] + d) == [x.1] + Values(d)
  {
  }

  lemma {:induction false} WidthInsert<V>(x: (string, seq<V>), s: SubGrid<V>)
    ensures Width(Values(Insert(x, s, ItemKey))) == |x.1| * Width(Values(s))
  {
    if s == [] {
      WidthValuesCons(x, []);
    } else if Less(ItemKey(s[0]), ItemKey(x)) {
      var rest := Insert(x, s[1..], ItemKey);
      InsertPast(x, s);
      WidthValuesCons(s[0], rest);
      WidthInsert(x, s[1..]);
      assert s == [s[0]] + s[1..];
      WidthValuesCons(s[0], s[1..]);
      MulSwap(|s[0].1|, |x.1|, Width(Values(s[1..])));
    } else {
      assert Insert(x, s, ItemKey) == [x] + s;
      WidthValuesCons(x, s);
    }
  }

  lemma InsertPast<V>(x: (string, seq<V>), s: SubGrid<V>)
    requires s != [] && Less(ItemKey(s[0]), ItemKey(x))
    ensures Insert(x, s, ItemKey) == [s[0]] + Insert(x, s[1..], ItemKey)
  {
  }

  lemma WidthValuesCons<V>(y: (string, seq<V>), rest: SubGrid<V>)
    ensures Width(Values([y] + rest)) == |y.1| * Width(Values(rest))
  {
    ValuesCons(y, rest);
    WidthCons(y.1, Values(rest));
  }

  lemma MulSwap(a: int, b: int, c: int)
    ensures a * (b * c) == b * (a * c)
  {
  }

  /** Sorting the items leaves the product size unchanged. */
  lemma {:induction false} WidthSort<V>(p: SubGrid<V>)
    ensures Width(Values(SortedItems(p))) == Width(Values(p))
  {
    if p != [] {
      WidthSort(p[1..]);
      WidthInsert(p[0], SortedItems(p[1..]));
      assert p == [p[0]] + p[1..];
      ValuesCons(p[0], p[1..]);
      WidthCons(p[0].1, Values(p[1..]));
    }
  }

  // ---------------------------------------------------------------------------
  // `__iter__` and `__len__`

  /** `dict(zip(keys, values))` for distinct keys. */
  function Zip<V>(ks: seq<string>, vs: seq<V>): (r: Params<V>)
    requires |ks| == |vs|
    ensures |r| == |ks| && forall j :: 0 <= j < |r| ==> r[j] == (ks[j], vs[j])
  {
    seq(|ks|, j requires 0 <= j < |ks| => (ks[j], vs[j]))
  }

  /** What `__iter__` yields for one sub-grid. */
  function SubEnumerate<V>(p: SubGrid<V>): (r: seq<Params<V>>)
  {
    var items := SortedItems(p);
    if items == [] then [[]]
    else
      var ks := Keys(items);
      var ps := Product(Values(items));
      seq(|ps|, i requires 0 <= i < |ps| =>
        ProductMembers(Values(items), i);
        Zip(ks, ps[i]))
  }

  /** `list(grid)`: every sub-grid in turn. */
  function Enumerate<V>(g: Grid<V>): seq<Params<V>> {
    if g == [] then [] else SubEnumerate(g[0]) + Enumerate(g[1..])
  }

  /** `__iter__`, with the yielded dicts collected in order. */
  method Iterate<V>(g: Grid<V>) returns (out: seq<Params<V>>)
    ensures out == Enumerate(g)
  {
    out := [];
    for k := 0 to |g|
      invariant out == EnumeratePrefix(g, k)
    {
      var yielded := IterateSubGrid(g[k]);
      out := out + yielded;
    }
    EnumeratePrefixAll(g);
  }

  /** What the first `k` sub-grids yield, collected left to right. */
  function EnumeratePrefix<V>(g: Grid<V>, k: nat): seq<Params<V>>
    requires k <= |g|
  {
    if k == 0 then [] else EnumeratePrefix(g, k - 1) + SubEnumerate(g[k - 1])
  }

  /** Collecting sub-grid by sub-grid gives the whole enumeration. */
  lemma EnumeratePrefixAll<V>(g: Grid<V>)
    ensures EnumeratePrefix(g, |g|) == Enumerate(g)
  {
    assert g[|g|..] == [];
    EnumeratePrefixSplit(g, |g|);
  }

  lemma {:induction false} EnumeratePrefixSplit<V>(g: Grid<V>, k: nat)
    requires k <= |g|
    ensures EnumeratePrefix(g, k) + Enumerate(g[k..]) == Enumerate(g)
  {
    if k > 0 {
      EnumeratePrefixSplit(g, k - 1);
      EnumerateSuffix(g, k - 1);
      var a, b, c := EnumeratePrefix(g, k - 1), SubEnumerate(g[k - 1]), Enumerate(g[k..]);
      assert (a + b) + c == a + (b + c);
    }
  }

  lemma EnumerateSuffix<V>(g: Grid<V>, k: nat)
    requires k < |g|
    ensures Enumerate(g[k..]) == SubEnumerate(g[k]) + Enumerate(g[k + 1..])
  {
    assert g[k..][1..] == g[k + 1..];
  }

  /** The body of `__iter__`'s outer loop: what it yields for one sub-grid. */
  method IterateSubGrid<V>(p: SubGrid<V>) returns (out: seq<Params<V>>)
    ensures out == SubEnumerate(p)
  {
    var items := SortedItems(p);
    if items == [] {
      return [[]];
    }
    var keys := Keys(items);
    var ps := Product(Values(items));
    forall t | 0 <= t < |ps| ensures |ps[t]| == |keys| {
      SubEnumerateAt(p, t);
    }
    out := ZipEach(keys, ps);
    SubEnumerateLength(p);
    forall t | 0 <= t < |ps| ensures out[t] == SubEnumerate(p)[t] {
      SubEnumerateAt(p, t);
    }
  }

  /** The loop `for v in product(*values): yield dict(zip(keys, v))`. */
  method ZipEach<V>(keys: seq<string>, ps: seq<seq<V>>) returns (out: seq<Params<V>>)
    requires forall t :: 0 <= t < |ps| ==> |ps[t]| == |keys|
    ensures |out| == |ps| && forall t :: 0 <= t < |ps| ==> out[t] == Zip(keys, ps[t])
  {
    out := [];
    for i := 0 to |ps|
      invariant |out| == i && forall t :: 0 <= t < i ==> out[t] == Zip(keys, ps[t])
    {
      out := out + [Zip(keys, ps[i])];
    }
  }

  /** A non-empty sub-grid yields one dict per product tuple. */
  lemma SubEnumerateLength<V>(p: SubGrid<V>)
    requires SortedItems(p) != []
    ensures |SubEnumerate(p)| == |Product(Values(SortedItems(p)))|
  {
  }

  /** The `t`-th dict a non-empty sub-grid yields zips the sorted keys with
      the `t`-th product tuple. */
  lemma SubEnumerateAt<V>(p: SubGrid<V>, t: nat)
    requires SortedItems(p) != [] && t < |Product(Values(SortedItems(p)))|
    ensures |Product(Values(SortedItems(p)))[t]| == |Keys(SortedItems(p))|
    ensures SubEnumerate(p)[t] == Zip(Keys(SortedItems(p)), Product(Values(SortedItems(p)))[t])
  {
    ProductMembers(Values(SortedItems(p)), t);
  }

  /** The size of one sub-grid's share: the product of its value counts, in
      dict order, or 1 for an empty sub-grid. */
  function SubLength<V>(p: SubGrid<V>): nat {
    if p == [] then 1 else Width(Values(p))
  }

  /** `__len__`. */
  function Length<V>(g: Grid<V>): nat {
    if g == [] then 0 else SubLength(g[0]) + Length(g[1..])
  }

  /** Iteration yields exactly `len(grid)` dicts. */
  lemma {:induction false} LengthCounts<V>(g: Grid<V>)
    ensures |Enumerate(g)| == Length(g)
  {
    if g != [] {
      WidthSort(g[0]);
      LengthCounts(g[1..]);
    }
  }

  /** Every dict yielded for a sub-grid has its keys, in sorted order, with
      each value taken from that key's list. */
  lemma SubEnumerateShape<V>(p: SubGrid<V>, i: nat)
    requires i < |SubEnumerate(p)|
    ensures |SubEnumerate(p)[i]| == |p|
    ensures forall j :: 0 <= j < |p| ==>
      SubEnumerate(p)[i][j].0 == SortedItems(p)[j].0 &&
      SubEnumerate(p)[i][j].1 in SortedItems(p)[j].1
  {
    if p != [] {
      ProductMembers(Values(SortedItems(p)), i);
    }
  }

  /** No pool lists a value twice. */
  ghost predicate DistinctPools<V>(vs: seq<seq<V>>) {
    forall k, a, b :: 0 <= k < |vs| && 0 <= a < b < |vs[k]| ==> vs[k][a] != vs[k][b]
  }

  /** No value list of the sub-grid lists a value twice. */
  ghost predicate DistinctValues<V>(p: SubGrid<V>) {
    forall k, a, b :: 0 <= k < |p| && 0 <= a < b < |p[k].1| ==> p[k].1[a] != p[k].1[b]
  }

  /** When no pool repeats a value, `product` never yields a tuple twice. */
  lemma {:induction false} ProductInjective<V>(vs: seq<seq<V>>, i: nat, j: nat)
    requires DistinctPools(vs) && i < Width(vs) && j < Width(vs)
    requires Product(vs)[i] == Product(vs)[j]
    ensures i == j
  {
    if vs != [] {
      var m := |vs|;
      var init := vs[..m - 1];
      var n := |vs[m - 1]|;
      ProductSplit(vs, i);
      ProductSplit(vs, j);
      assert DistinctPools(init) by {
        forall k, a, b | 0 <= k < |init| && 0 <= a < b < |init[k]| ensures init[k][a] != init[k][b] {
          assert init[k] == vs[k];
        }
      }
      ProductInjective(init, i / n, j / n);
      assert Product(vs)[i][m - 1] == Product(vs)[j][m - 1];
      DigitsEqual(i, j, n);
    }
  }

  /** Tuple `i` of a product is tuple `i / n` of the earlier pools followed
      by element `i % n` of the last pool, of size `n`. */
  lemma ProductSplit<V>(vs: seq<seq<V>>, i: nat)
    requires vs != [] && i < Width(vs)
    ensures var init, n := vs[..|vs| - 1], |vs[|vs| - 1]|;
      n > 0 && i / n < Width(init) && i % n < n && |Product(vs)[i]| == |vs| &&
      Product(vs)[i][..|init|] == Product(init)[i / n] &&
      Product(vs)[i][|init|] == vs[|vs| - 1][i % n]
  {
    var m := |vs|;
    var init := vs[..m - 1];
    var n := |vs[m - 1]|;
    DivBelow(i, Width(init), n);
    ProductMembers(init, i / n);
    var t := Product(init)[i / n];
    assert Product(vs)[i] == t + [vs[m - 1][i % n]];
    assert (t + [vs[m - 1][i % n]])[..|init|] == t;
  }

  /** Two numbers with the same quotient and the same remainder are equal. */
  lemma DigitsEqual(i: nat, j: nat, n: nat)
    requires n > 0 && i / n == j / n && i % n == j % n
    ensures i == j
  {
  }

  /** A sorted item is one of the sub-grid's items. */
  lemma SortedItemFrom<V>(p: SubGrid<V>, m: nat) returns (y: nat)
    requires m < |p|
    ensures y < |p| && SortedItems(p)[m] == p[y]
  {
    assert SortedItems(p)[m] in multiset(p);
    y :| 0 <= y < |p| && p[y] == SortedItems(p)[m];
  }

  /** When no value list repeats a value, the dicts yielded for one
      non-empty sub-grid are all different. */
  lemma SubEnumerateInjective<V>(p: SubGrid<V>, i: nat, j: nat)
    requires p != [] && DistinctValues(p)
    requires i < |SubEnumerate(p)| && j < |SubEnumerate(p)|
    requires SubEnumerate(p)[i] == SubEnumerate(p)[j]
    ensures i == j
  {
    var items := SortedItems(p);
    var vs := Values(items);
    assert DistinctPools(vs) by {
      forall k, a, b | 0 <= k < |vs| && 0 <= a < b < |vs[k]| ensures vs[k][a] != vs[k][b] {
        var y := SortedItemFrom(p, k);
      }
    }
    SubEnumerateLength(p);
    SubEnumerateAt(p, i);
    SubEnumerateAt(p, j);
    var ps := Product(vs);
    assert ps[i] == ps[j] by {
      var zi := Zip(Keys(items), ps[i]);
      var zj := Zip(Keys(items), ps[j]);
      forall x | 0 <= x < |ps[i]| ensures ps[i][x] == ps[j][x] {
        assert zi[x] == (Keys(items)[x], ps[i][x]) && zj[x] == (Keys(items)[x], ps[j][x]);
      }
    }
    ProductInjective(vs, i, j);
  }

  // ---------------------------------------------------------------------------
  // `__getitem__`

  datatype IndexError = IndexOutOfRange

  /** The dict the inner loop of `__getitem__` builds: for each item of
      `items` (sorted keys, reversed) `divmod` peels off one digit of `ind`. */
  function Unpack<V>(items: SubGrid<V>, ind: int): (r: Params<V>)
    requires NonEmptyValues(items)
    ensures |r| == |items| && forall j :: 0 <= j < |r| ==> r[j].0 == items[j].0
  {
    if items == [] then []
    else
      var n := |items[0].1|;
      assert NonEmptyValues(items[1..]) by {
        forall j | 0 <= j < |items[1..]| ensures |items[1..][j].1| > 0 {
          assert items[1..][j] == items[j + 1];
        }
      }
      [(items[0].0, items[0].1[ind % n])] + Unpack(items[1..], ind / n)
  }

  /** What one pass of `__getitem__`'s outer loop does with a sub-grid:
      either it finds the dict, or it skips the sub-grid's `count` dicts. */
  datatype Step<V> = Found(params: Params<V>) | Skip(count: nat)

  function SubLocate<V>(p: SubGrid<V>, ind: int): Step<V>
    requires NonEmptyValues(p)
  {
    if p == [] then
      if ind == 0 then Found([]) else Skip(1)
    else
      var items := Reverse(SortedItems(p));
      ReversedSortedValues(p);
      var total := Width(Values(items));
      if ind >= total then Skip(total) else Found(Unpack(items, ind))
  }

  /** `__getitem__`, pass by pass as the code does it. */
  function Locate<V>(g: Grid<V>, ind: int): Result<Params<V>, IndexError>
    requires ValidGrid(g)
  {
    if g == [] then Err(IndexOutOfRange)
    else
      assert ValidGrid(g[1..]) by { ValidGridTail(g); }
      match SubLocate(g[0], ind)
      case Found(d) => Ok(d)
      case Skip(n) => Locate(g[1..], ind - n)
  }

  lemma ValidGridTail<V>(g: Grid<V>)
    requires ValidGrid(g) && g != []
    ensures ValidGrid(g[1..])
  {
    forall p | 0 <= p < |g[1..]| ensures UniqueKeys(g[1..][p]) && NonEmptyValues(g[1..][p]) {
      assert g[1..][p] == g[p + 1];
    }
  }

  lemma ReversedSortedValues<V>(p: SubGrid<V>)
    requires NonEmptyValues(p)
    ensures NonEmptyValues(Reverse(SortedItems(p)))
    ensures UniqueKeys(p) ==> UniqueKeys(Reverse(SortedItems(p)))
    ensures Width(Values(Reverse(SortedItems(p)))) == Width(Values(p))
  {
    ReversedNonEmpty(p);
    if UniqueKeys(p) {
      ReversedUnique(p);
    }
    ReversedWidth(p);
  }

  lemma ReversedNonEmpty<V>(p: SubGrid<V>)
    requires NonEmptyValues(p)
    ensures NonEmptyValues(Reverse(SortedItems(p)))
  {
    var r := Reverse(SortedItems(p));
    forall j | 0 <= j < |r| ensures |r[j].1| > 0 {
      assert r[j] in multiset(p);
    }
  }

  lemma ReversedUnique<V>(p: SubGrid<V>)
    requires UniqueKeys(p)
    ensures UniqueKeys(Reverse(SortedItems(p)))
  {
    var s := SortedItems(p);
    var r := Reverse(s);
    assert DistinctKeys(p, ItemKey);
    SortSorted(p, ItemKey);
    forall i, j | 0 <= i < j < |r| ensures r[i].0 != r[j].0 {
      assert Less(ItemKey(s[|s| - 1 - j]), ItemKey(s[|s| - 1 - i]));
      LessIrreflexive(r[i].0);
    }
  }

  lemma ReversedWidth<V>(p: SubGrid<V>)
    ensures Width(Values(Reverse(SortedItems(p)))) == Width(Values(p))
  {
    var s := SortedItems(p);
    assert Values(Reverse(s)) == Reverse(Values(s));
    WidthReverse(Values(s));
    WidthSort(p);
  }

  /** `__getitem__`: skip whole sub-grids while `ind` is past them, then
      decode `ind` in the mixed radix of the reverse-sorted value counts. */
  method GetItem<V>(g: Grid<V>, ind: int) returns (r: Result<Params<V>, IndexError>)
    requires ValidGrid(g)
    ensures r == Locate(g, ind)
    ensures 0 <= ind < Length(g) ==>
      |Enumerate(g)| == Length(g) && r == Ok(Reverse(Enumerate(g)[ind]))
    ensures ind >= Length(g) ==> r == Err(IndexOutOfRange)
  {
    LocateAgrees(g, ind);
    var i := ind;
    assert g[0..] == g;
    for k := 0 to |g|
      invariant ValidGrid(g[k..])
      invariant Locate(g[k..], i) == Locate(g, ind)
    {
      LocateCons(g, k);
      var subGrid := g[k];
      if subGrid == [] {
        if i == 0 {
          LocateFound(g, k, i, []);
          return Ok([]);
        }
        LocateSkip(g, k, i, 1);
        i := i - 1;
        continue;
      }
      var items := Reverse(SortedItems(subGrid));
      ReversedSortedValues(subGrid);
      var total := Width(Values(items));
      if i >= total {
        LocateSkip(g, k, i, total);
        i := i - total;
      } else {
        var out := Decode(items, i);
        LocateFound(g, k, i, out);
        return Ok(out);
      }
    }
    assert g[|g|..] == [];
    return Err(IndexOutOfRange);
  }

  lemma LocateCons<V>(g: Grid<V>, k: nat)
    requires k < |g| && ValidGrid(g[k..])
    ensures NonEmptyValues(g[k]) && UniqueKeys(g[k]) && ValidGrid(g[k + 1..])
  {
    assert g[k..][0] == g[k];
    assert g[k..][1..] == g[k + 1..];
    ValidGridTail(g[k..]);
  }

  lemma LocateSkip<V>(g: Grid<V>, k: nat, i: int, n: nat)
    requires k < |g| && ValidGrid(g[k..]) && NonEmptyValues(g[k]) && ValidGrid(g[k + 1..])
    requires SubLocate(g[k], i) == Skip(n)
    ensures Locate(g[k..], i) == Locate(g[k + 1..], i - n)
  {
    assert g[k..][0] == g[k];
    assert g[k..][1..] == g[k + 1..];
  }

  lemma LocateFound<V>(g: Grid<V>, k: nat, i: int, d: Params<V>)
    requires k < |g| && ValidGrid(g[k..]) && NonEmptyValues(g[k])
    requires SubLocate(g[k], i) == Found(d)
    ensures Locate(g[k..], i) == Ok(d)
  {
    assert g[k..][0] == g[k];
  }

  /** The inner loop of `__getitem__`: `ind, offset = divmod(ind, n)` for
      each reverse-sorted item, storing that item's value at `offset`. */
  method Decode<V>(items: SubGrid<V>, ind: int) returns (out: Params<V>)
    requires NonEmptyValues(items) && UniqueKeys(items)
    ensures out == Unpack(items, ind)
  {
    out := [];
    var i := ind;
    for j := 0 to |items|
      invariant (out, i) == DecodeAfter(items, ind, j)
    {
      var key := items[j].0;
      var vList := items[j].1;
      var n := |vList|;
      var offset := i % n;
      i := i / n;
      DecodeFresh(items, ind, j);
      AssignNew(out, key, vList[offset]);
      out := Assign(out, key, vList[offset]);
    }
    DecodeAll(items, ind);
  }

  /** Where `__getitem__`'s inner loop stands after its first `j` passes:
      the entries filled in so far, and the index still to be split. */
  function DecodeAfter<V>(items: SubGrid<V>, ind: int, j: nat): (st: (Params<V>, int))
    requires NonEmptyValues(items) && j <= |items|
    ensures |st.0| == j && forall t :: 0 <= t < j ==> st.0[t].0 == items[t].0
  {
    if j == 0 then ([], ind)
    else
      var (out, i) := DecodeAfter(items, ind, j - 1);
      var n := |items[j - 1].1|;
      (out + [(items[j - 1].0, items[j - 1].1[i % n])], i / n)
  }

  /** The key the next pass writes is not yet in the dict, so it goes at
      the end. */
  lemma DecodeFresh<V>(items: SubGrid<V>, ind: int, j: nat)
    requires NonEmptyValues(items) && UniqueKeys(items) && j < |items|
    ensures !HasKey(DecodeAfter(items, ind, j).0, items[j].0)
  {
  }

  /** After the last pass the dict is the whole unpacked index. */
  lemma DecodeAll<V>(items: SubGrid<V>, ind: int)
    requires NonEmptyValues(items)
    ensures DecodeAfter(items, ind, |items|).0 == Unpack(items, ind)
  {
    DecodeSplit(items, ind, |items|);
    assert items[|items|..] == [];
  }

  lemma {:induction false} DecodeSplit<V>(items: SubGrid<V>, ind: int, k: nat)
    requires NonEmptyValues(items) && k <= |items|
    ensures NonEmptyValues(items[k..])
    ensures DecodeAfter(items, ind, k).0 + Unpack(items[k..], DecodeAfter(items, ind, k).1) == Unpack(items, ind)
  {
    NonEmptySuffix(items, k);
    if k > 0 {
      NonEmptySuffix(items, k - 1);
      DecodeSplit(items, ind, k - 1);
      DecodeStep(items, ind, k);
    }
  }

  /** One pass moves one entry from what is left to unpack into the dict. */
  lemma DecodeStep<V>(items: SubGrid<V>, ind: int, k: nat)
    requires NonEmptyValues(items) && 0 < k <= |items|
    requires NonEmptyValues(items[k - 1..]) && NonEmptyValues(items[k..])
    ensures DecodeAfter(items, ind, k - 1).0 + Unpack(items[k - 1..], DecodeAfter(items, ind, k - 1).1)
         == DecodeAfter(items, ind, k).0 + Unpack(items[k..], DecodeAfter(items, ind, k).1)
  {
    var (a, i) := DecodeAfter(items, ind, k - 1);
    var x := items[k - 1];
    assert DecodeAfter(items, ind, k) == (a + [(x.0, x.1[i % |x.1|])], i / |x.1|);
    assert items[k - 1..] == [x] + items[k..];
    UnpackAppend(a, x, items[k..], i);
  }

  lemma UnpackAppend<V>(a: Params<V>, x: (string, seq<V>), rest: SubGrid<V>, i: int)
    requires |x.1| > 0 && NonEmptyValues(rest)
    ensures NonEmptyValues([x] + rest)
    ensures a + Unpack([x] + rest, i) == (a + [(x.0, x.1[i % |x.1|])]) + Unpack(rest, i / |x.1|)
  {
    UnpackCons(x, rest, i);
    var e, c := [(x.0, x.1[i % |x.1|])], Unpack(rest, i / |x.1|);
    assert (a + e) + c == a + (e + c);
  }

  lemma NonEmptySuffix<V>(items: SubGrid<V>, k: nat)
    requires NonEmptyValues(items) && k <= |items|
    ensures NonEmptyValues(items[k..])
  {
    forall t | 0 <= t < |items[k..]| ensures |items[k..][t].1| > 0 {
      assert items[k..][t] == items[k + t];
    }
  }

  /** A sub-grid is skipped whole by any index at or past its size. */
  lemma SubLocatePast<V>(p: SubGrid<V>, ind: int)
    requires NonEmptyValues(p) && ind >= SubLength(p)
    ensures SubLocate(p, ind) == Skip(SubLength(p))
  {
    if p != [] {
      ReversedNonEmpty(p);
      ReversedWidth(p);
    }
  }

  /** An index below a sub-grid's size is decoded within it. */
  lemma SubLocateWithin<V>(p: SubGrid<V>, ind: int)
    requires NonEmptyValues(p) && 0 <= ind < SubLength(p)
    ensures ind < |SubEnumerate(p)|
    ensures SubLocate(p, ind) == Found(Reverse(SubEnumerate(p)[ind]))
  {
    if p != [] {
      SubLocateFound(p, ind);
    }
  }

  lemma SubLengthCounts<V>(p: SubGrid<V>)
    ensures |SubEnumerate(p)| == SubLength(p)
  {
    WidthSort(p);
  }

  lemma SubLocateFound<V>(p: SubGrid<V>, ind: nat)
    requires NonEmptyValues(p) && p != [] && ind < Width(Values(p))
    ensures ind < |SubEnumerate(p)|
    ensures SubLocate(p, ind) == Found(Reverse(SubEnumerate(p)[ind]))
  {
    WidthSort(p);
    ReversedSortedValues(p);
    var s := SortedItems(p);
    assert SubLocate(p, ind) == Found(Unpack(Reverse(s), ind));
    SortedNonEmpty(p);
    UnpackProduct(s, ind);
    SubEnumerateAt(p, ind);
    SubEnumerateLength(p);
  }

  lemma SortedNonEmpty<V>(p: SubGrid<V>)
    requires NonEmptyValues(p)
    ensures NonEmptyValues(SortedItems(p))
  {
    var s := SortedItems(p);
    forall j | 0 <= j < |s| ensures |s[j].1| > 0 {
      assert s[j] in multiset(p);
    }
  }

  /** Indexing agrees with iteration: for `0 <= ind < len(grid)` the dict at
      `ind` holds the same entries as `list(grid)[ind]` (with its keys in the
      reverse order), and any larger index is out of range. */
  lemma LocateAgrees<V>(g: Grid<V>, ind: int)
    requires ValidGrid(g)
    ensures |Enumerate(g)| == Length(g)
    ensures 0 <= ind < Length(g) ==> Locate(g, ind) == Ok(Reverse(Enumerate(g)[ind]))
    ensures ind >= Length(g) ==> Locate(g, ind) == Err(IndexOutOfRange)
  {
    LengthCounts(g);
    if ind >= Length(g) {
      LocatePastEnd(g, ind);
    } else if ind >= 0 {
      LocateInRange(g, ind);
    }
  }

  /** One pass of `__getitem__`'s outer loop over the first sub-grid. */
  lemma LocateFirst<V>(g: Grid<V>, ind: int)
    requires ValidGrid(g) && g != [] && ValidGrid(g[1..])
    ensures SubLocate(g[0], ind).Found? ==> Locate(g, ind) == Ok(SubLocate(g[0], ind).params)
    ensures SubLocate(g[0], ind).Skip? ==>
      Locate(g, ind) == Locate(g[1..], ind - SubLocate(g[0], ind).count)
  {
  }

  /** An index past the first sub-grid's size is looked up in the rest,
      shifted down by that size. */
  lemma LocatePastFirst<V>(g: Grid<V>, ind: int)
    requires ValidGrid(g) && g != [] && ind >= SubLength(g[0])
    ensures ValidGrid(g[1..])
    ensures Locate(g, ind) == Locate(g[1..], ind - SubLength(g[0]))
  {
    ValidGridTail(g);
    SubLocatePast(g[0], ind);
    LocateFirst(g, ind);
  }

  /** Any index at or past `len(grid)` runs through every sub-grid. */
  lemma {:induction false} LocatePastEnd<V>(g: Grid<V>, ind: int)
    requires ValidGrid(g) && ind >= Length(g)
    ensures Locate(g, ind) == Err(IndexOutOfRange)
  {
    if g != [] {
      ValidGridTail(g);
      var n := SubLength(g[0]);
      LocatePastFirst(g, ind);
      LocatePastEnd(g[1..], ind - n);
    }
  }

  /** An index below `len(grid)` is found in the sub-grid that holds it, as
      the dict iteration yields there. */
  lemma {:induction false} LocateInRange<V>(g: Grid<V>, ind: int)
    requires ValidGrid(g) && 0 <= ind < Length(g)
    ensures |Enumerate(g)| == Length(g)
    ensures Locate(g, ind) == Ok(Reverse(Enumerate(g)[ind]))
    decreases |g|, 1
  {
    if ind >= SubLength(g[0]) {
      LocateInRest(g, ind);
    } else {
      LocateInHead(g, ind);
    }
  }

  /** Past the first sub-grid, the rest of the grid is searched. */
  lemma {:induction false} LocateInRest<V>(g: Grid<V>, ind: int)
    requires ValidGrid(g) && g != [] && SubLength(g[0]) <= ind < Length(g)
    ensures |Enumerate(g)| == Length(g)
    ensures Locate(g, ind) == Ok(Reverse(Enumerate(g)[ind]))
    decreases |g|, 0
  {
    SubLengthCounts(g[0]);
    SubLocatePast(g[0], ind);
    EnumeratePastFirst(g, ind);
    LocatePastFirst(g, ind);
    LocateInRange(g[1..], ind - SubLength(g[0]));
  }

  /** Past the first sub-grid's dicts, iteration continues with the rest. */
  lemma EnumeratePastFirst<V>(g: Grid<V>, ind: int)
    requires ValidGrid(g) && g != [] && SubLength(g[0]) <= ind < Length(g)
    ensures ValidGrid(g[1..]) && 0 <= ind - SubLength(g[0]) < Length(g[1..])
    ensures |Enumerate(g)| == Length(g) && |Enumerate(g[1..])| == Length(g[1..])
    ensures Enumerate(g)[ind] == Enumerate(g[1..])[ind - SubLength(g[0])]
  {
    ValidGridTail(g);
    LengthCounts(g);
    LengthCounts(g[1..]);
    SubLengthCounts(g[0]);
    assert Length(g) == SubLength(g[0]) + Length(g[1..]);
    EnumerateShift(g, ind);
  }

  /** Indexing the concatenation past the head's dicts. */
  lemma EnumerateShift<V>(g: Grid<V>, ind: int)
    requires g != [] && |SubEnumerate(g[0])| <= ind < |Enumerate(g)|
    ensures Enumerate(g)[ind] == Enumerate(g[1..])[ind - |SubEnumerate(g[0])|]
  {
    var a, b := SubEnumerate(g[0]), Enumerate(g[1..]);
    assert Enumerate(g) == a + b;
  }

  /** Inside the first sub-grid, the dict is decoded there. */
  lemma LocateInHead<V>(g: Grid<V>, ind: int)
    requires ValidGrid(g) && g != [] && 0 <= ind < SubLength(g[0])
    ensures |Enumerate(g)| == Length(g)
    ensures Locate(g, ind) == Ok(Reverse(Enumerate(g)[ind]))
  {
    LengthCounts(g);
    ValidGridTail(g);
    SubLengthCounts(g[0]);
    assert Enumerate(g) == SubEnumerate(g[0]) + Enumerate(g[1..]);
    SubLocateWithin(g[0], ind);
    LocateFirst(g, ind);
    assert Enumerate(g)[ind] == SubEnumerate(g[0])[ind];
  }

  /** Decoding `ind` digit by digit over the reversed items gives tuple `ind`
      of the product, zipped with the keys and reversed. */
  lemma {:induction false} UnpackProduct<V>(s: SubGrid<V>, ind: nat)
    requires NonEmptyValues(s) && ind < Width(Values(s))
    ensures NonEmptyValues(Reverse(s))
    ensures |Product(Values(s))[ind]| == |s|
    ensures Unpack(Reverse(s), ind) == Reverse(Zip(Keys(s), Product(Values(s))[ind]))
  {
    ProductMembers(Values(s), ind);
    ReverseNonEmpty(s);
    if s != [] {
      var m := |s|;
      var init := s[..m - 1];
      var x := s[m - 1];
      assert s == init + [x];
      assert NonEmptyValues(init);
      ValuesSnoc(init, x);
      assert Values(s)[..m - 1] == Values(init);
      DivBelow(ind, Width(Values(init)), |x.1|);
      UnpackProduct(init, ind / |x.1|);
      UnpackSnoc(init, x, ind);
    }
  }

  /** The step of `UnpackProduct`: the last item's digit is peeled off
      first, and the rest is the earlier items' tuple. */
  lemma UnpackSnoc<V>(init: SubGrid<V>, x: (string, seq<V>), ind: nat)
    requires |x.1| > 0 && NonEmptyValues(init) && ind < Width(Values(init + [x]))
    requires ind / |x.1| < Width(Values(init))
    requires |Product(Values(init))[ind / |x.1|]| == |init|
    requires Unpack(Reverse(init), ind / |x.1|) ==
      Reverse(Zip(Keys(init), Product(Values(init))[ind / |x.1|]))
    ensures NonEmptyValues(Reverse(init + [x]))
    ensures |Product(Values(init + [x]))[ind]| == |init| + 1
    ensures Unpack(Reverse(init + [x]), ind) ==
      Reverse(Zip(Keys(init + [x]), Product(Values(init + [x]))[ind]))
  {
    ProductSnocAt(init, x, ind);
    UnpackZipSnoc(init, x, ind, Product(Values(init))[ind / |x.1|]);
  }

  /** Tuple `ind` of the product with one more pool. */
  lemma ProductSnocAt<V>(init: SubGrid<V>, x: (string, seq<V>), ind: nat)
    requires |x.1| > 0 && ind < Width(Values(init + [x]))
    ensures ind / |x.1| < Width(Values(init))
    ensures Product(Values(init + [x]))[ind] ==
      Product(Values(init))[ind / |x.1|] + [x.1[ind % |x.1|]]
  {
    var vs := Values(init + [x]);
    ValuesSnoc(init, x);
    assert vs[..|vs| - 1] == Values(init) && vs[|vs| - 1] == x.1;
    ProductAt(vs, ind);
  }

  /** Decoding with one more item in front of the reversed items, for any
      tuple `t0` the earlier items decode to. */
  lemma UnpackZipSnoc<V>(init: SubGrid<V>, x: (string, seq<V>), ind: nat, t0: seq<V>)
    requires |x.1| > 0 && NonEmptyValues(init) && |t0| == |init|
    requires Unpack(Reverse(init), ind / |x.1|) == Reverse(Zip(Keys(init), t0))
    ensures NonEmptyValues(Reverse(init + [x]))
    ensures Unpack(Reverse(init + [x]), ind) ==
      Reverse(Zip(Keys(init + [x]), t0 + [x.1[ind % |x.1|]]))
  {
    var n := |x.1|;
    var v := x.1[ind % n];
    KeysSnoc(init, x);
    ZipSnoc(Keys(init), t0, x.0, v);
    var z := Zip(Keys(init), t0);
    ReverseSnoc(z, (x.0, v));
    ReverseSnoc(init, x);
    ReverseNonEmpty(init);
    ReverseNonEmpty(init + [x]);
    UnpackCons(x, Reverse(init), ind);
    calc {
      Unpack(Reverse(init + [x]), ind);
      Unpack([x] + Reverse(init), ind);
      [(x.0, v)] + Unpack(Reverse(init), ind / n);
      [(x.0, v)] + Reverse(z);
      Reverse(z + [(x.0, v)]);
      Reverse(Zip(Keys(init + [x]), t0 + [v]));
    }
  }

  lemma ReverseNonEmpty<V>(s: SubGrid<V>)
    requires NonEmptyValues(s)
    ensures NonEmptyValues(Reverse(s))
  {
    forall j | 0 <= j < |s| ensures |Reverse(s)[j].1| > 0 {
      assert Reverse(s)[j] == s[|s| - 1 - j];
    }
  }

  /** Tuple `i` of a product is a tuple of the shorter product followed by an
      element of the last pool. */
  lemma ProductAt<V>(vs: seq<seq<V>>, i: nat)
    requires vs != [] && i < Width(vs)
    ensures |vs[|vs| - 1]| > 0 && i / |vs[|vs| - 1]| < Width(vs[..|vs| - 1])
    ensures Product(vs)[i] ==
      Product(vs[..|vs| - 1])[i / |vs[|vs| - 1]|] + [vs[|vs| - 1][i % |vs[|vs| - 1]|]]
  {
    DivBelow(i, Width(vs[..|vs| - 1]), |vs[|vs| - 1]|);
  }

  lemma ZipSnoc<V>(ks: seq<string>, vs: seq<V>, k: string, v: V)
    requires |ks| == |vs|
    ensures Zip(ks + [k], vs + [v]) == Zip(ks, vs) + [(k, v)]
  {
  }

  lemma ReverseSnoc<T>(a: seq<T>, e: T)
    ensures Reverse(a + [e]) == [e] + Reverse(a)
  {
  }

  lemma UnpackCons<V>(x: (string, seq<V>), rest: SubGrid<V>, ind: int)
    requires |x.1| > 0 && NonEmptyValues(rest)
    ensures NonEmptyValues([x] + rest)
    ensures Unpack([x] + rest, ind) == [(x.0, x.1[ind % |x.1|])] + Unpack(rest, ind / |x.1|)
  {
    assert ([x] + rest)[1..] == rest;
  }

  // ---------------------------------------------------------------------------
  // Negative indices

  /** Python's `list(grid)[ind]`: negative indices count from the end. */
  function ListIndex<T>(xs: seq<T>, ind: int): Option<T> {
    if 0 <= ind < |xs| then Some(xs[ind])
    else if -|xs| <= ind < 0 then Some(xs[|xs| + ind])
    else None
  }

  /** As written, a negative `ind` is decoded inside the first non-empty
      sub-grid, so `grid[-1]` is not the last dict of `list(grid)`: for
      `[{'a': [1, 2]}, {'b': [3]}]` it is `{'a': 2}`, not `{'b': 3}`. */
  lemma NegativeIndexCounterexample()
    ensures var g: Grid<int> := [[("a", [1, 2])], [("b", [3])]];
      ValidGrid(g) &&
      Locate(g, -1) == Ok([("a", 2)]) &&
      ListIndex(Enumerate(g), -1) == Some([("b", 3)])
  {
    var p0: SubGrid<int> := [("a", [1, 2])];
    var p1: SubGrid<int> := [("b", [3])];
    NegativeIndexLocate(p0, p1);
    NegativeIndexList(p0, p1);
  }

  lemma NegativeIndexLocate(p0: SubGrid<int>, p1: SubGrid<int>)
    requires p0 == [("a", [1, 2])] && p1 == [("b", [3])]
    ensures ValidGrid([p0, p1]) && Locate([p0, p1], -1) == Ok([("a", 2)])
  {
    SingleKeyLocate(p0, -1);
    assert SubLocate(p0, -1) == Found([("a", 2)]) by {
      assert -1 % 2 == 1;
    }
  }

  lemma NegativeIndexList(p0: SubGrid<int>, p1: SubGrid<int>)
    requires p0 == [("a", [1, 2])] && p1 == [("b", [3])]
    ensures ListIndex(Enumerate([p0, p1]), -1) == Some([("b", 3)])
  {
    var g := [p0, p1];
    SingleKeyEnumerate(p0);
    SingleKeyEnumerate(p1);
    assert g[1..] == [p1] && [p1][1..] == [];
    assert Enumerate(g) == SubEnumerate(p0) + Enumerate([p1]);
  }

  /** A sub-grid with one key. */
  lemma SingleKeyEnumerate<V>(p: SubGrid<V>)
    requires |p| == 1
    ensures SortedItems(p) == p && Width(Values(p)) == |p[0].1|
    ensures |SubEnumerate(p)| == |p[0].1|
    ensures forall i :: 0 <= i < |p[0].1| ==> SubEnumerate(p)[i] == [(p[0].0, p[0].1[i])]
  {
    assert p[1..] == [];
    var vs := Values(p);
    assert vs == [p[0].1];
    assert vs[..0] == [];
    assert Product(vs) == Extend([[]], p[0].1);
    forall i | 0 <= i < |p[0].1| ensures SubEnumerate(p)[i] == [(p[0].0, p[0].1[i])] {
      assert Product(vs)[i] == [p[0].1[i]];
      assert Keys(p) == [p[0].0];
    }
  }

  lemma SingleKeyLocate<V>(p: SubGrid<V>, ind: int)
    requires |p| == 1 && |p[0].1| > 0 && ind < 0
    ensures SubLocate(p, ind) == Found([(p[0].0, p[0].1[ind % |p[0].1|])])
  {
    assert p[1..] == [];
    assert SortedItems(p) == p;
    assert Reverse(p) == p;
    assert Values(p) == [p[0].1] && [p[0].1][..0] == [];
    assert Unpack(p, ind) == [(p[0].0, p[0].1[ind % |p[0].1|])];
  }

  /** `grid[ind]` with Python's list indexing: negative indices count back
      from `len(grid)`. */
  function LocateFromEnd<V>(g: Grid<V>, ind: int): Result<Params<V>, IndexError>
    requires ValidGrid(g)
  {
    if ind < 0 then
      if ind + Length(g) < 0 then Err(IndexOutOfRange) else Locate(g, ind + Length(g))
    else Locate(g, ind)
  }

  /** With negative indices counted from the end, indexing agrees with
      `list(grid)[ind]` for every `ind`, and fails exactly where the list
      index fails. */
  lemma LocateFromEndAgrees<V>(g: Grid<V>, ind: int)
    requires ValidGrid(g)
    ensures LocateFromEnd(g, ind).Ok? <==> ListIndex(Enumerate(g), ind).Some?
    ensures LocateFromEnd(g, ind).Ok? ==>
      LocateFromEnd(g, ind).value == Reverse(ListIndex(Enumerate(g), ind).value)
  {
    var e := Enumerate(g);
    var n := Length(g);
    LengthCounts(g);
    var j := if ind < 0 then ind + n else ind;
    assert LocateFromEnd(g, ind) == if j < 0 then Err(IndexOutOfRange) else Locate(g, j);
    assert ListIndex(e, ind) == if 0 <= j < |e| then Some(e[j]) else None;
    if j >= 0 {
      LocateAgrees(g, j);
    }
  }

  // ---------------------------------------------------------------------------
  // The docstring examples

  /** A value of any Python type used in the examples. */
  datatype Py = PyInt(i: int) | PyBool(b: bool) | PyStr(s: string)

  /** `list(ParameterGrid({'a': [1, 2], 'b': [True, False]}))`. */
  lemma IterationExample()
    ensures Enumerate([[("a", [PyInt(1), PyInt(2)]), ("b", [PyBool(true), PyBool(false)])]]) == [
      [("a", PyInt(1)), ("b", PyBool(true))], [("a", PyInt(1)), ("b", PyBool(false))],
      [("a", PyInt(2)), ("b", PyBool(true))], [("a", PyInt(2)), ("b", PyBool(false))]]
  {
    var p: SubGrid<Py> := [("a", [PyInt(1), PyInt(2)]), ("b", [PyBool(true), PyBool(false)])];
    TwoKeySorted(p);
    var vs := [[PyInt(1), PyInt(2)], [PyBool(true), PyBool(false)]];
    assert Values(p) == vs;
    assert Keys(p) == ["a", "b"];
    ExampleProduct();
    var e := SubEnumerate(p);
    assert |e| == 4;
    forall i | 0 <= i < 4
      ensures e[i] == [("a", Product(vs)[i][0]), ("b", Product(vs)[i][1])]
    {
      ProductMembers(vs, i);
      var z := Zip(["a", "b"], Product(vs)[i]);
      assert z[0] == ("a", Product(vs)[i][0]) && z[1] == ("b", Product(vs)[i][1]);
    }
    var g: Grid<Py> := [p];
    assert g[1..] == [];
    assert Enumerate(g) == e + [];
  }

  lemma TwoKeySorted<V>(p: SubGrid<V>)
    requires |p| == 2 && p[0].0 == "a" && p[1].0 == "b"
    ensures SortedItems(p) == p
  {
    assert p[1..][1..] == [];
    assert Less("a", "b");
    assert Insert(p[1], [], ItemKey) == [p[1]];
    assert p == [p[0]] + [p[1]];
  }

  lemma ExampleProduct()
    ensures Product([[PyInt(1), PyInt(2)], [PyBool(true), PyBool(false)]]) == [
      [PyInt(1), PyBool(true)], [PyInt(1), PyBool(false)],
      [PyInt(2), PyBool(true)], [PyInt(2), PyBool(false)]]
  {
    var vs := [[PyInt(1), PyInt(2)], [PyBool(true), PyBool(false)]];
    assert vs[..1] == [[PyInt(1), PyInt(2)]] && vs[..1][..0] == [];
    var p1 := Extend([[]], [PyInt(1), PyInt(2)]);
    assert p1[0] == [PyInt(1)] && p1[1] == [PyInt(2)];
    var p2 := Extend(p1, [PyBool(true), PyBool(false)]);
    assert p2[0] == [PyInt(1), PyBool(true)];
    assert p2[1] == [PyInt(1), PyBool(false)];
    assert p2[2] == [PyInt(2), PyBool(true)];
    assert p2[3] == [PyInt(2), PyBool(false)];
  }

  /** `ParameterGrid([{'kernel': ['linear']}, {'kernel': ['rbf'], 'gamma': [1, 10]}])[1]`
      is `{'kernel': 'rbf', 'gamma': 1}`. */
  lemma GetItemExample()
    ensures var g: Grid<Py> := [[("kernel", [PyStr("linear")])],
                                [("kernel", [PyStr("rbf")]), ("gamma", [PyInt(1), PyInt(10)])]];
      ValidGrid(g) && Locate(g, 1) == Ok([("kernel", PyStr("rbf")), ("gamma", PyInt(1))])
  {
    var p0: SubGrid<Py> := [("kernel", [PyStr("linear")])];
    var p1: SubGrid<Py> := [("kernel", [PyStr("rbf")]), ("gamma", [PyInt(1), PyInt(10)])];
    LinearSkip();
    KernelGammaLocate();
    KernelGammaValid(p0, p1);
    LocateSecond(p0, p1, 1, 1, [("kernel", PyStr("rbf")), ("gamma", PyInt(1))]);
  }

  lemma KernelGammaValid(p0: SubGrid<Py>, p1: SubGrid<Py>)
    requires p0 == [("kernel", [PyStr("linear")])]
    requires p1 == [("kernel", [PyStr("rbf")]), ("gamma", [PyInt(1), PyInt(10)])]
    ensures ValidGrid([p0, p1])
  {
  }

  /** A dict found in the second sub-grid after skipping the first. */
  lemma LocateSecond<V>(p0: SubGrid<V>, p1: SubGrid<V>, ind: int, n: nat, d: Params<V>)
    requires ValidGrid([p0, p1]) && NonEmptyValues(p0) && NonEmptyValues(p1)
    requires SubLocate(p0, ind) == Skip(n) && SubLocate(p1, ind - n) == Found(d)
    ensures Locate([p0, p1], ind) == Ok(d)
  {
    var g := [p0, p1];
    assert g[1..] == [p1];
    ValidGridTail(g);
  }

  lemma LinearSkip()
    ensures var p0: SubGrid<Py> := [("kernel", [PyStr("linear")])];
      NonEmptyValues(p0) && SubLocate(p0, 1) == Skip(1)
  {
    var p0: SubGrid<Py> := [("kernel", [PyStr("linear")])];
    SingleKeyEnumerate(p0);
    assert Reverse(p0) == p0;
  }

  lemma KernelGammaLocate()
    ensures var p1: SubGrid<Py> := [("kernel", [PyStr("rbf")]), ("gamma", [PyInt(1), PyInt(10)])];
      NonEmptyValues(p1) && SubLocate(p1, 0) == Found([("kernel", PyStr("rbf")), ("gamma", PyInt(1))])
  {
    var p1: SubGrid<Py> := [("kernel", [PyStr("rbf")]), ("gamma", [PyInt(1), PyInt(10)])];
    var sorted := [p1[1], p1[0]];
    assert SortedItems(p1) == sorted by {
      assert p1[1..][1..] == [];
      assert Less("gamma", "kernel");
      assert Insert(p1[0], [p1[1]], ItemKey) == [p1[1]] + Insert(p1[0], [], ItemKey);
    }
    assert Reverse(sorted) == p1;
    assert Values(p1) == [[PyStr("rbf")], [PyInt(1), PyInt(10)]];
    assert Width(Values(p1)) == 2 by {
      var vs := Values(p1);
      assert vs[..1] == [[PyStr("rbf")]] && vs[..1][..0] == [];
      assert Width(vs[..1]) == 1;
    }
    assert Unpack(p1, 0) == [("kernel", PyStr("rbf")), ("gamma", PyInt(1))] by {
      assert p1[1..] == [("gamma", [PyInt(1), PyInt(10)])] && p1[1..][1..] == [];
    }
  }
}
