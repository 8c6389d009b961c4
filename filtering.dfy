/** Selection masks of `calour/filtering.py`: the five per-row data predicates,
    `filter_by_data`, `filter_by_metadata`, `filter_taxonomy` and the index
    selection of `downsample`. The filters return the mask or the index list
    that the source hands to `Experiment.reorder`. */
module Filtering {
  import opened Results
  import opened Seqs
  import opened Text
  import opened Metadata

  // ---------------------------------------------------------------------------
  // The five data predicates. Values, cutoffs and fractions are exact reals.

  /** `_sum_abundance`: the total over the row reaches the cutoff. Abundances are not
      negative, so such a row passes every cutoff up to 0. */
  function SumAbundance(x: seq<real>, cutoff: real): (r: bool)
    ensures (forall i | 0 <= i < |x| :: x[i] >= 0.0) && cutoff <= 0.0 ==> r
  {
    SumLowerBound(x, 0.0);
    Sum(x) >= cutoff
  }

  /** More samples never drop a feature from the sum filter: a row that passes still
      passes with further non-negative abundances appended. */
  lemma SumAbundanceMoreSamples(x: seq<real>, more: seq<real>, cutoff: real)
    requires SumAbundance(x, cutoff)
    requires forall i | 0 <= i < |more| :: more[i] >= 0.0
    ensures SumAbundance(x + more, cutoff)
  {
    SumAppend(x, more);
    SumLowerBound(more, 0.0);
  }

  /** `_mean_abundance`. numpy's mean of an empty row is nan, and nan compares false. */
  function MeanAbundance(x: seq<real>, cutoff: real): (r: bool)
    ensures r <==> |x| > 0 && Sum(x) >= cutoff * |x| as real
  {
    |x| > 0 && Sum(x) / |x| as real >= cutoff
  }

  /** Number of entries of `x` at or above `cutoff`, i.e. `np.sum(x >= cutoff)`. */
  function CountAtLeast(x: seq<real>, cutoff: real): (n: nat)
    ensures n == |set i | 0 <= i < |x| && x[i] >= cutoff|
  {
    if x == [] then 0
    else
      var init := x[..|x| - 1];
      var n := CountAtLeast(init, cutoff) + if x[|x| - 1] >= cutoff then 1 else 0;
      assert (set i | 0 <= i < |x| && x[i] >= cutoff)
          == (set i | 0 <= i < |init| && init[i] >= cutoff)
             + (if x[|x| - 1] >= cutoff then {|x| - 1} else {});
      n
  }

  /** `_prevalence`: the fraction of entries at or above `cutoff` reaches `fraction`.
      An empty row gives 0/0, which numpy turns into nan, so the answer is false. */
  function Prevalence(x: seq<real>, cutoff: real, fraction: real): (r: bool)
    ensures r <==> |x| > 0 && CountAtLeast(x, cutoff) as real >= fraction * |x| as real
  {
    if |x| == 0 then false
    else
      DivAtLeast(CountAtLeast(x, cutoff) as real, |x| as real, fraction);
      CountAtLeast(x, cutoff) as real / |x| as real >= fraction
  }

  /** `_unique_cut`: the number of distinct values over the length reaches `unique`.
      Python's integer division by `len(x) == 0` raises ZeroDivisionError. */
  function UniqueCut(x: seq<real>, unique: real): (r: Result<bool>)
    ensures r.Err? <==> |x| == 0
    ensures r.Err? ==> r.error == ZeroDivisionError
    ensures r.Ok? ==> (r.value <==> (|Elements(x)|) as real >= unique * |x| as real)
  {
    if |x| == 0 then Err(ZeroDivisionError)
    else
      DistinctFraction(x, unique);
      Ok(|Distinct(x)| as real / |x| as real >= unique)
  }

  /** How often each distinct value occurs, in order of first appearance
      (`np.unique` sorts them instead; only the two largest counts are used). */
  function ValueCounts(x: seq<real>): (c: seq<nat>)
    ensures |c| == |Distinct(x)|
    ensures forall i | 0 <= i < |c| :: c[i] == multiset(x)[Distinct(x)[i]]
  {
    seq(|Distinct(x)|, i requires 0 <= i < |Distinct(x)| => multiset(x)[Distinct(x)[i]])
  }

  /** `c[i]` is a largest entry and `c[j]` a largest among the others. */
  ghost predicate TopTwoAt(c: seq<nat>, i: int, j: int) {
    && 0 <= i < |c| && 0 <= j < |c| && i != j
    && (forall k | 0 <= k < |c| :: c[k] <= c[i])
    && (forall k | 0 <= k < |c| && k != i :: c[k] <= c[j])
  }

  /** Positions of the two values `heapq.nlargest(2, c)` returns. */
  function TopTwo(c: seq<nat>): (t: (nat, nat))
    requires |c| >= 2
    ensures TopTwoAt(c, t.0, t.1)
  {
    if |c| == 2 then (if c[0] >= c[1] then (0, 1) else (1, 0))
    else
      var n := |c| - 1;
      var (i, j) := TopTwo(c[..n]);
      if c[n] > c[i] then (n, i)
      else if c[n] > c[j] then (i, n)
      else (i, j)
  }

  /** `_freq_ratio`: the count of the most common value divided by the count of the
      second most common is at most `ratio`. With fewer than two distinct values the
      two-way unpack of `nlargest(2, counts)` raises ValueError. */
  function FreqRatio(x: seq<real>, ratio: real): (r: Result<bool>)
    ensures r.Err? <==> |Elements(x)| < 2
    ensures r.Err? ==> r.error == ValueError
    ensures r.Ok? ==> forall i, j | TopTwoAt(ValueCounts(x), i, j) ::
      r.value <==> WithinRatio(ValueCounts(x)[i], ValueCounts(x)[j], ratio)
  {
    DistinctCard(x);
    if |Distinct(x)| < 2 then Err(ValueError)
    else
      var c := ValueCounts(x);
      var t := TopTwo(c);
      CountsPositive(x, t.1);
      CountRatio(c[t.0], c[t.1], ratio);
      forall i, j | TopTwoAt(c, i, j) ensures c[i] == c[t.0] && c[j] == c[t.1] {
        TopTwoValuesUnique(c, i, j, t.0, t.1);
      }
      Ok(c[t.0] as real / c[t.1] as real <= ratio)
  }

  /** Whatever positions a tie leads to, the largest and second largest counts are the same. */
  lemma TopTwoValuesUnique(c: seq<nat>, i: int, j: int, i': int, j': int)
    requires TopTwoAt(c, i, j) && TopTwoAt(c, i', j')
    ensures c[i] == c[i'] && c[j] == c[j']
  {
    if i != i' {
      assert c[j] >= c[i'] && c[j'] >= c[i];
    }
  }

  lemma BelowOne(a: nat, b: nat, ratio: real)
    requires a >= b > 0 && ratio < 1.0
    ensures !WithinRatio(a, b, ratio)
  {
    assert (1.0 - ratio) * b as real > 0.0;
  }

  lemma CountsPositive(x: seq<real>, k: int)
    requires 0 <= k < |ValueCounts(x)|
    ensures ValueCounts(x)[k] > 0
  {
    assert Distinct(x)[k] in x;
  }

  /** `a` is at most `ratio` times `b`: the division-free form of `a / b <= ratio`. */
  predicate WithinRatio(a: nat, b: nat, ratio: real) {
    a as real <= ratio * b as real
  }

  lemma CountRatio(a: nat, b: nat, ratio: real)
    requires b > 0
    ensures a as real / b as real <= ratio <==> WithinRatio(a, b, ratio)
  {
    DivAtMost(a as real, b as real, ratio);
  }

  lemma DistinctFraction(x: seq<real>, unique: real)
    requires |x| > 0
    ensures |Distinct(x)| as real / |x| as real >= unique
        <==> |Elements(x)| as real >= unique * |x| as real
  {
    DistinctCard(x);
    DivAtLeast(|Distinct(x)| as real, |x| as real, unique);
  }

  lemma DivAtMost(a: real, b: real, t: real)
    requires b > 0.0
    ensures a / b <= t <==> a <= t * b
  {
    assert a == (a / b) * b;
    if a / b <= t { assert (a / b) * b <= t * b; }
    if a <= t * b { assert a / b <= (t * b) / b; }
  }

  lemma DivAtLeast(a: real, b: real, t: real)
    requires b > 0.0
    ensures a / b >= t <==> a >= t * b
  {
    assert a == (a / b) * b;
    if a / b >= t { assert (a / b) * b >= t * b; }
    if a >= t * b { assert a / b >= (t * b) / b; }
  }

  // ---------------------------------------------------------------------------
  // Properties of the predicates, and their documented examples.

  lemma SumAbundanceExamples()
    ensures SumAbundance([0.0, 1.0, 1.0], 2.0)
    ensures !SumAbundance([0.0, 1.0, 1.0], 2.01)
  {
    var x := [0.0, 1.0, 1.0];
    assert x[..2] == [0.0, 1.0] && x[..2][..1] == [0.0] && x[..2][..1][..0] == [];
    assert Sum([0.0]) == 0.0;
    assert Sum([0.0, 1.0]) == 1.0;
    assert Sum(x) == 2.0;
  }

  lemma MeanAbundanceExamples()
    ensures !MeanAbundance([0.0, 0.0, 1.0, 1.0], 0.51)
    ensures MeanAbundance([0.0, 0.0, 1.0, 1.0], 0.5)
  {
    var x := [0.0, 0.0, 1.0, 1.0];
    assert x[..3] == [0.0, 0.0, 1.0] && x[..3][..2] == [0.0, 0.0];
    assert x[..3][..2][..1] == [0.0] && x[..3][..2][..1][..0] == [];
    assert Sum([0.0]) == 0.0;
    assert Sum([0.0, 0.0]) == 0.0;
    assert Sum([0.0, 0.0, 1.0]) == 1.0;
    assert Sum(x) == 2.0;
  }

  /** On a non-empty row the mean test is the sum test with the cutoff scaled by the length. */
  lemma MeanIsScaledSum(x: seq<real>, cutoff: real)
    requires |x| > 0
    ensures MeanAbundance(x, cutoff) == SumAbundance(x, cutoff * |x| as real)
  {
  }

  lemma PrevalenceExamples()
    ensures Prevalence([0.0, 1.0], 1.0 / 10000.0, 0.5)
    ensures Prevalence([0.0, 1.0, 2.0, 3.0], 2.0, 0.5)
    ensures !Prevalence([0.0, 1.0, 2.0], 2.0, 0.51)
  {
    assert CountAtLeast([0.0, 1.0], 1.0 / 10000.0) == 1 by {
      assert [0.0, 1.0][..1] == [0.0];
    }
    assert CountAtLeast([0.0, 1.0, 2.0, 3.0], 2.0) == 2 by {
      assert [0.0, 1.0, 2.0, 3.0][..3] == [0.0, 1.0, 2.0];
      assert [0.0, 1.0, 2.0][..2] == [0.0, 1.0];
      assert [0.0, 1.0][..1] == [0.0];
    }
    assert CountAtLeast([0.0, 1.0, 2.0], 2.0) == 1 by {
      assert [0.0, 1.0, 2.0][..2] == [0.0, 1.0];
      assert [0.0, 1.0][..1] == [0.0];
    }
  }

  lemma {:induction false} CountAtLeastAntitone(x: seq<real>, lo: real, hi: real)
    requires lo <= hi
    ensures CountAtLeast(x, hi) <= CountAtLeast(x, lo)
  {
    if x != [] {
      CountAtLeastAntitone(x[..|x| - 1], lo, hi);
    }
  }

  /** Lowering the cutoff never makes a prevalent row non-prevalent. */
  lemma PrevalenceAntitoneInCutoff(x: seq<real>, lo: real, hi: real, fraction: real)
    requires lo <= hi && Prevalence(x, hi, fraction)
    ensures Prevalence(x, lo, fraction)
  {
    CountAtLeastAntitone(x, lo, hi);
  }

  lemma UniqueCutExamples()
    ensures UniqueCut([0.0, 0.0], 0.49) == Ok(true)
    ensures UniqueCut([0.0, 0.0], 0.51) == Ok(false)
    ensures UniqueCut([0.0, 1.0], 1.01) == Ok(false)
  {
    assert Elements([0.0, 0.0]) == {0.0};
    assert Elements([0.0, 1.0]) == {0.0, 1.0};
  }

  /** On a non-empty row `_unique_cut` always holds for `unique <= 1/len` (there is at
      least one distinct value) and never for `unique > 1` (there are at most `len`). */
  lemma UniqueCutBounds(x: seq<real>, unique: real)
    requires |x| > 0
    ensures unique <= 1.0 / |x| as real ==> UniqueCut(x, unique) == Ok(true)
    ensures unique > 1.0 ==> UniqueCut(x, unique) == Ok(false)
  {
    ElementCountBounds(x);
    FractionBounds(|Elements(x)| as real, |x| as real, unique);
  }

  lemma FractionBounds(d: real, n: real, unique: real)
    requires 1.0 <= d <= n
    ensures unique <= 1.0 / n ==> d >= unique * n
    ensures unique > 1.0 ==> d < unique * n
  {
    if unique <= 1.0 / n {
      DivAtLeast(1.0, n, unique);
    }
    if unique > 1.0 {
      assert (unique - 1.0) * n > 0.0;
    }
  }

  lemma CountsExampleSkewed()
    ensures ValueCounts([0.0, 0.0, 1.0, 2.0]) == [2, 1, 1]
  {
    var a := [0.0, 0.0, 1.0, 2.0];
    assert a[..3] == [0.0, 0.0, 1.0] && a[..3][..2] == [0.0, 0.0] && a[..3][..2][..1] == [0.0];
    assert Distinct(a) == [0.0, 1.0, 2.0];
  }

  lemma CountsExampleEven()
    ensures ValueCounts([0.0, 0.0, 1.0, 1.0]) == [2, 2]
  {
    var b := [0.0, 0.0, 1.0, 1.0];
    assert b[..3] == [0.0, 0.0, 1.0] && b[..3][..2] == [0.0, 0.0] && b[..3][..2][..1] == [0.0];
    assert Distinct(b) == [0.0, 1.0];
  }

  /** Counts 2, 1, 1 have ratio 2; counts 2, 2 have ratio 1. */
  lemma FreqRatioExamples()
    ensures FreqRatio([0.0, 0.0, 1.0, 2.0], 2.0) == Ok(true)
    ensures FreqRatio([0.0, 0.0, 1.0, 2.0], 1.99) == Ok(false)
  {
    CountsExampleSkewed();
    var a := [0.0, 0.0, 1.0, 2.0];
    assert TopTwoAt(ValueCounts(a), 0, 1);
    assert 0.0 in a && 1.0 in a;
    assert Elements(a) >= {0.0, 1.0};
  }

  lemma FreqRatioEvenExample()
    ensures FreqRatio([0.0, 0.0, 1.0, 1.0], 1.01) == Ok(true)
  {
    CountsExampleEven();
    var b := [0.0, 0.0, 1.0, 1.0];
    assert TopTwoAt(ValueCounts(b), 0, 1);
    assert 0.0 in b && 1.0 in b;
    assert Elements(b) >= {0.0, 1.0};
  }

  /** The most common value is at least as common as the second, so a ratio below 1 never holds. */
  lemma FreqRatioBelowOne(x: seq<real>, ratio: real)
    requires ratio < 1.0
    ensures FreqRatio(x, ratio) != Ok(true)
  {
    var r := FreqRatio(x, ratio);
    if r.Ok? {
      DistinctCard(x);
      var c := ValueCounts(x);
      var t := TopTwo(c);
      CountsPositive(x, t.1);
      assert TopTwoAt(c, t.0, t.1);
      BelowOne(c[t.0], c[t.1], ratio);
    }
  }

  // ---------------------------------------------------------------------------
  // Masks shared by the filters.

  /** numpy's `~select` on a boolean mask. */
  function Negated(mask: seq<bool>): (r: seq<bool>)
    ensures |r| == |mask| && forall i | 0 <= i < |r| :: r[i] != mask[i]
  {
    seq(|mask|, i requires 0 <= i < |mask| => !mask[i])
  }

  /** `np.sum(select)`: how many entries a mask keeps. */
  function CountTrue(mask: seq<bool>): (n: nat)
    ensures n <= |mask|
    ensures n == 0 <==> forall i | 0 <= i < |mask| :: !mask[i]
  {
    if mask == [] then 0
    else
      var init := mask[..|mask| - 1];
      assert forall i | 0 <= i < |init| :: init[i] == mask[i];
      CountTrue(init) + if mask[|mask| - 1] then 1 else 0
  }

  /** Negating a mask keeps exactly the entries it dropped. */
  lemma {:induction false} CountTrueNegated(mask: seq<bool>)
    ensures CountTrue(Negated(mask)) == |mask| - CountTrue(mask)
    ensures CountTrue(mask) <= |mask|
  {
    if mask != [] {
      var init := mask[..|mask| - 1];
      assert Negated(mask)[..|mask| - 1] == Negated(init);
      CountTrueNegated(init);
    }
  }

  // ---------------------------------------------------------------------------
  // filter_by_data

  /** The `predicate` argument of `filter_by_data`: one of the five named predicates
      with its keyword arguments, or a callable supplied by the caller. */
  datatype RowPredicate =
    | SumAbundanceWith(cutoff: real)
    | MeanAbundanceWith(cutoff: real)
    | PrevalenceWith(cutoff: real, fraction: real)
    | UniqueCutWith(unique: real)
    | FreqRatioWith(ratio: real)
    | Callable(f: seq<real> -> bool)

  /** Looking a predicate name up in the `func` table; the named predicate comes with
      its default keyword arguments. An unknown name is a KeyError. */
  function PredicateNamed(name: string): (r: Result<RowPredicate>)
    ensures r.Ok? <==> name in ["sum_abundance", "freq_ratio", "unique_cut", "mean_abundance", "prevalence"]
    ensures r.Err? ==> r.error == KeyError
    ensures r.Ok? ==> !r.value.Callable?
  {
    if name == "sum_abundance" then Ok(SumAbundanceWith(10.0))
    else if name == "freq_ratio" then Ok(FreqRatioWith(2.0))
    else if name == "unique_cut" then Ok(UniqueCutWith(0.05))
    else if name == "mean_abundance" then Ok(MeanAbundanceWith(0.01))
    else if name == "prevalence" then Ok(PrevalenceWith(1.0 / 10000.0, 0.5))
    else Err(KeyError)
  }

  /** Each name runs its own predicate with the defaults of its signature:
      `cutoff=10`, `ratio=2`, `unique=0.05`, `cutoff=0.01`, and `cutoff=1/10000, fraction=0.5`. */
  lemma PredicateNamedDefaults(x: seq<real>)
    ensures Apply(PredicateNamed("sum_abundance").value, x) == Ok(SumAbundance(x, 10.0))
    ensures Apply(PredicateNamed("freq_ratio").value, x) == FreqRatio(x, 2.0)
    ensures Apply(PredicateNamed("unique_cut").value, x) == UniqueCut(x, 0.05)
    ensures Apply(PredicateNamed("mean_abundance").value, x) == Ok(MeanAbundance(x, 0.01))
    ensures Apply(PredicateNamed("prevalence").value, x) == Ok(Prevalence(x, 1.0 / 10000.0, 0.5))
  {
  }

  /** Calling the predicate on one row or column; two of the named ones can raise. */
  function Apply(p: RowPredicate, x: seq<real>): (r: Result<bool>)
    ensures r.Err? ==> p.UniqueCutWith? || p.FreqRatioWith?
  {
    match p
    case SumAbundanceWith(c) => Ok(SumAbundance(x, c))
    case MeanAbundanceWith(c) => Ok(MeanAbundance(x, c))
    case PrevalenceWith(c, f) => Ok(Prevalence(x, c, f))
    case UniqueCutWith(u) => UniqueCut(x, u)
    case FreqRatioWith(q) => FreqRatio(x, q)
    case Callable(f) => Ok(f(x))
  }

  /** The data matrix: one row per sample, `cols` columns (features) in every row. */
  predicate IsMatrix(data: seq<seq<real>>, cols: nat) {
    forall i | 0 <= i < |data| :: |data[i]| == cols
  }

  /** Length of the mask along `axis`: the number of samples (0) or of features (1). */
  function Extent(data: seq<seq<real>>, cols: nat, axis: int): nat
    requires axis == 0 || axis == 1
  {
    if axis == 0 then |data| else cols
  }

  /** Row `i` (axis 0) or column `i` (axis 1) of the matrix, as a dense vector. */
  function Slice(data: seq<seq<real>>, cols: nat, axis: int, i: nat): (v: seq<real>)
    requires IsMatrix(data, cols) && (axis == 0 || axis == 1) && i < Extent(data, cols, axis)
    ensures axis == 0 ==> v == data[i]
    ensures axis == 1 ==> |v| == |data| && forall k | 0 <= k < |data| :: v[k] == data[k][i]
  {
    if axis == 0 then data[i] else seq(|data|, k requires 0 <= k < |data| => data[k][i])
  }

  /** The slices of the matrix along `axis`: its rows (axis 0) or columns (axis 1). */
  function Slices(data: seq<seq<real>>, cols: nat, axis: int): (s: seq<seq<real>>)
    requires IsMatrix(data, cols) && (axis == 0 || axis == 1)
    ensures |s| == Extent(data, cols, axis)
    ensures forall i | 0 <= i < |s| :: s[i] == Slice(data, cols, axis, i)
  {
    seq(Extent(data, cols, axis), i requires 0 <= i < Extent(data, cols, axis) => Slice(data, cols, axis, i))
  }

  /** The predicate loop of `filter_by_data` on sparse storage: the predicate is
      evaluated slice by slice into a preallocated array; the first slice whose
      predicate raises ends the call. */
  method SelectSlices(slices: seq<seq<real>>, p: RowPredicate) returns (r: Result<seq<bool>>)
    ensures r.Ok? <==> forall i | 0 <= i < |slices| :: Apply(p, slices[i]).Ok?
    ensures r.Ok? ==>
      && |r.value| == |slices|
      && forall i | 0 <= i < |r.value| :: r.value[i] == Apply(p, slices[i]).value
    ensures r.Err? ==>
      exists i | 0 <= i < |slices| ::
        && Apply(p, slices[i]) == Err(r.error)
        && forall j | 0 <= j < i :: Apply(p, slices[j]).Ok?
  {
    var n := |slices|;
    var select := new bool[n](_ => true);
    var i := 0;
    while i < n
      invariant 0 <= i <= n
      invariant forall k | 0 <= k < i :: Apply(p, slices[k]).Ok?
      invariant forall k | 0 <= k < i :: select[k] == Apply(p, slices[k]).value
    {
      var v := Apply(p, slices[i]);
      if v.Err? {
        return Err(v.error);
      }
      select[i] := v.value;
      i := i + 1;
    }
    r := Ok(select[..]);
  }

  /** `filter_by_data` on sparse storage: `n = shape[axis]` (a tuple index, so only
      -2..1 are in range; -2 and -1 then fall through to the unknown-axis error),
      then the mask of the predicate over the slices, negated on request. */
  method FilterByData(data: seq<seq<real>>, cols: nat, p: RowPredicate, axis: int, negate: bool)
    returns (r: Result<seq<bool>>)
    requires IsMatrix(data, cols)
    ensures (axis < -2 || axis > 1) ==> r == Err(IndexError)
    ensures (axis == -2 || axis == -1) ==> r == Err(ValueError)
    ensures (axis == 0 || axis == 1) ==>
      (r.Ok? <==> forall i | 0 <= i < Extent(data, cols, axis) :: Apply(p, Slice(data, cols, axis, i)).Ok?)
    ensures r.Ok? ==>
      && (axis == 0 || axis == 1)
      && |r.value| == Extent(data, cols, axis)
      && forall i | 0 <= i < |r.value| :: r.value[i] == (Apply(p, Slice(data, cols, axis, i)).value != negate)
    ensures r.Err? && (axis == 0 || axis == 1) ==>
      exists i | 0 <= i < Extent(data, cols, axis) ::
        && Apply(p, Slice(data, cols, axis, i)) == Err(r.error)
        && forall j | 0 <= j < i :: Apply(p, Slice(data, cols, axis, j)).Ok?
  {
    if axis < -2 || axis > 1 {
      return Err(IndexError);
    }
    if axis != 0 && axis != 1 {
      return Err(ValueError);
    }
    var select := SelectSlices(Slices(data, cols, axis), p);
    if select.Err? {
      return select;
    }
    var mask := select.value;
    r := Ok(if negate then Negated(mask) else mask);
  }

  // ---------------------------------------------------------------------------
  // filter_by_metadata

  /** A list or tuple of values, or a single value that the filter wraps into a list. */
  datatype Values<V> = Listed(items: seq<V>) | Scalar(item: V) {
    function AsList(): (l: seq<V>)
      ensures Scalar? ==> l == [item]
    {
      if Listed? then items else [item]
    }
  }

  /** The `pick` argument of `filter_by_metadata`: values to keep, or a callable that
      maps the metadata column to a mask. */
  datatype Pick<!V> = ByValues(vals: Values<V>) | ByCallable(f: seq<V> -> seq<bool>)

  /** `filter_by_metadata`: the selection mask over samples (axis 0) or features (axis 1). */
  function FilterByMetadata<V(==)>(sampleMd: Table<V>, featureMd: Table<V>, field: string,
                                   pick: Pick<V>, axis: int, negate: bool): (r: Result<seq<bool>>)
    ensures axis != 0 && axis != 1 ==> r == Err(ValueError)
    ensures (axis == 0 || axis == 1) ==>
      var md := AxisTable(sampleMd, featureMd, axis).value;
      && (field !in md ==> r == Err(KeyError))
      && (field in md ==> r.Ok?)
      && (field in md && pick.ByValues? ==>
            |r.value| == |md[field]|
            && forall i | 0 <= i < |md[field]| ::
                 r.value[i] == ((md[field][i] in pick.vals.AsList()) != negate))
      && (field in md && pick.ByCallable? ==>
            r.value == if negate then Negated(pick.f(md[field])) else pick.f(md[field]))
  {
    match AxisTable(sampleMd, featureMd, axis)
    case None => Err(ValueError)
    case Some(md) =>
      if field !in md then Err(KeyError)
      else
        var column := md[field];
        var select := match pick
          case ByCallable(f) => f(column)
          case ByValues(vals) =>
            var items := vals.AsList();
            seq(|column|, i requires 0 <= i < |column| => column[i] in items);
        Ok(if negate then Negated(select) else select)
  }

  /** A single value picks exactly what the one-element list holding it picks. */
  lemma ScalarPickIsSingletonList<V>(sampleMd: Table<V>, featureMd: Table<V>, field: string,
                                     v: V, axis: int, negate: bool)
    ensures FilterByMetadata(sampleMd, featureMd, field, ByValues(Scalar(v)), axis, negate)
         == FilterByMetadata(sampleMd, featureMd, field, ByValues(Listed([v])), axis, negate)
  {
  }

  /** `negate=True` keeps exactly what `negate=False` drops. */
  lemma NegateComplements<V>(sampleMd: Table<V>, featureMd: Table<V>, field: string,
                             pick: Pick<V>, axis: int)
    requires FilterByMetadata(sampleMd, featureMd, field, pick, axis, false).Ok?
    ensures var kept := FilterByMetadata(sampleMd, featureMd, field, pick, axis, false).value;
      && FilterByMetadata(sampleMd, featureMd, field, pick, axis, true) == Ok(Negated(kept))
      && CountTrue(Negated(kept)) == |kept| - CountTrue(kept)
  {
    CountTrueNegated(FilterByMetadata(sampleMd, featureMd, field, pick, axis, false).value);
  }

  // ---------------------------------------------------------------------------
  // filter_taxonomy

  /** `';'.join(x).lower()` for one taxonomy entry. */
  function TaxonomyText(e: TaxEntry): string {
    Lower(Join(";", Iterated(e)))
  }

  /** One value matches one lowered taxonomy string: as a substring, or exactly. */
  predicate ValueMatches(value: string, tax: string, substring: bool) {
    if substring then IsSubstring(Lower(value), tax) else Lower(value) == tax
  }

  /** The OR of the per-value matches that the loop accumulates into `select`. */
  predicate AnyValueMatches(values: seq<string>, tax: string, substring: bool)
    ensures AnyValueMatches(values, tax, substring)
        <==> exists k | 0 <= k < |values| :: ValueMatches(values[k], tax, substring)
  {
    if values == [] then false
    else
      var init := values[..|values| - 1];
      assert forall k | 0 <= k < |init| :: init[k] == values[k];
      AnyValueMatches(init, tax, substring) || ValueMatches(values[|values| - 1], tax, substring)
  }

  lemma AnyValueMatchesPrefix(values: seq<string>, k: nat, tax: string, substring: bool)
    requires k < |values|
    ensures AnyValueMatches(values[..k + 1], tax, substring)
        == (AnyValueMatches(values[..k], tax, substring) || ValueMatches(values[k], tax, substring))
  {
    assert values[..k + 1][..k] == values[..k];
  }

  /** The inner loop of `filter_taxonomy`: OR one value's matches into the mask. */
  method MarkMatches(select: array<bool>, taxstr: seq<string>, value: string, substring: bool)
    requires select.Length == |taxstr|
    modifies select
    ensures forall j | 0 <= j < |taxstr| :: select[j] == (old(select[j]) || ValueMatches(value, taxstr[j], substring))
  {
    var j := 0;
    while j < |taxstr|
      invariant 0 <= j <= |taxstr|
      invariant forall j' | 0 <= j' < j :: select[j'] == (old(select[j']) || ValueMatches(value, taxstr[j'], substring))
      invariant forall j' | j <= j' < |taxstr| :: select[j'] == old(select[j'])
    {
      select[j] := select[j] || ValueMatches(value, taxstr[j], substring);
      j := j + 1;
    }
  }

  /** `filter_taxonomy`: None without a `taxonomy` column; otherwise a feature is kept
      when some lowered value occurs in (or, with `substring=False`, equals) its lowered
      `';'`-joined taxonomy, flipped by `negate`. */
  method FilterTaxonomy(taxonomy: Option<seq<TaxEntry>>, values: Values<string>,
                        negate: bool, substring: bool) returns (r: Option<seq<bool>>)
    ensures r.None? <==> taxonomy.None?
    ensures r.Some? ==>
      && |r.value| == |taxonomy.value|
      && forall j | 0 <= j < |r.value| ::
           r.value[j] == (AnyValueMatches(values.AsList(), TaxonomyText(taxonomy.value[j]), substring) != negate)
  {
    if taxonomy.None? {
      return None;
    }
    var vals := values.AsList();
    var column := taxonomy.value;
    var taxstr := seq(|column|, j requires 0 <= j < |column| => TaxonomyText(column[j]));
    var select := new bool[|column|](_ => false);
    var k := 0;
    while k < |vals|
      invariant 0 <= k <= |vals|
      invariant forall j | 0 <= j < |column| :: select[j] == AnyValueMatches(vals[..k], taxstr[j], substring)
    {
      MarkMatches(select, taxstr, vals[k], substring);
      forall j | 0 <= j < |column|
        ensures select[j] == AnyValueMatches(vals[..k + 1], taxstr[j], substring)
      {
        AnyValueMatchesPrefix(vals, k, taxstr[j], substring);
      }
      k := k + 1;
    }
    assert vals[..|vals|] == vals;
    var mask := select[..];
    r := Some(if negate then Negated(mask) else mask);
  }

  /** A value equal, ignoring case, to one of a feature's levels selects that feature
      when matching by substring. */
  lemma LevelSelectsFeature(levels: seq<string>, m: nat, value: string)
    requires m < |levels| && Lower(value) == Lower(levels[m])
    ensures ValueMatches(value, TaxonomyText(Levels(levels)), true)
  {
    JoinContainsPart(";", levels, m);
    SubstringLower(levels[m], Join(";", levels));
  }

  /** An exact match is also a substring match, so `substring=False` keeps a subset. */
  lemma ExactMatchIsSubstringMatch(value: string, tax: string)
    requires ValueMatches(value, tax, false)
    ensures ValueMatches(value, tax, true)
  {
    assert OccursAt(Lower(value), tax, 0);
  }

  // ---------------------------------------------------------------------------
  // downsample. Category values are integers; numpy's helpers become functions.

  predicate StrictlySorted(s: seq<int>) {
    forall i, j | 0 <= i < j < |s| :: s[i] < s[j]
  }

  /** Insertion into a strictly sorted sequence, dropping a value already present. */
  function InsertSorted(s: seq<int>, x: int): (r: seq<int>)
    requires StrictlySorted(s)
    ensures StrictlySorted(r)
    ensures Elements(r) == Elements(s) + {x}
  {
    if s == [] then [x]
    else if x < s[0] then
      ConsSorted(x, s);
      [x] + s
    else if x == s[0] then
      assert s == [s[0]] + s[1..];
      s
    else
      SortedTail(s);
      var rest := InsertSorted(s[1..], x);
      assert forall y | y in rest :: s[0] < y by {
        forall y | y in rest
          ensures s[0] < y
        {
          assert y in Elements(rest);
        }
      }
      ConsSorted(s[0], rest);
      [s[0]] + rest
  }

  /** The tail of a strictly sorted sequence is strictly sorted and above its head. */
  lemma SortedTail(s: seq<int>)
    requires StrictlySorted(s) && |s| > 0
    ensures StrictlySorted(s[1..])
    ensures forall y | y in s[1..] :: s[0] < y
    ensures Elements(s) == {s[0]} + Elements(s[1..])
  {
    assert s == [s[0]] + s[1..];
  }

  /** Putting a value below every element in front keeps a sequence strictly sorted. */
  lemma ConsSorted(h: int, t: seq<int>)
    requires StrictlySorted(t) && forall y | y in t :: h < y
    ensures StrictlySorted([h] + t)
    ensures Elements([h] + t) == {h} + Elements(t)
  {
    var c := [h] + t;
    forall i, j | 0 <= i < j < |c|
      ensures c[i] < c[j]
    {
      if i > 0 {
        assert c[i] == t[i - 1] && c[j] == t[j - 1];
      } else {
        assert c[j] in t;
      }
    }
  }

  /** `np.unique(values)`: the distinct values in increasing order. */
  function SortedUnique(values: seq<int>): (u: seq<int>)
    ensures StrictlySorted(u)
    ensures Elements(u) == Elements(values)
  {
    if values == [] then []
    else
      var init := values[..|values| - 1];
      assert Elements(values) == Elements(init) + {values[|values| - 1]};
      InsertSorted(SortedUnique(init), values[|values| - 1])
  }

  /** The `return_counts` part of `np.unique`. */
  function Counts(values: seq<int>, u: seq<int>): (c: seq<nat>)
    ensures |c| == |u| && forall m | 0 <= m < |u| :: c[m] == multiset(values)[u[m]]
  {
    seq(|u|, m requires 0 <= m < |u| => multiset(values)[u[m]])
  }

  /** `np.argmin`: the first index holding the least count. */
  function ArgMin(c: seq<nat>): (i: nat)
    requires |c| > 0
    ensures i < |c|
    ensures forall k | 0 <= k < |c| :: c[i] <= c[k]
    ensures forall k | 0 <= k < i :: c[i] < c[k]
  {
    if |c| == 1 then 0
    else
      var j := ArgMin(c[..|c| - 1]);
      if c[|c| - 1] < c[j] then |c| - 1 else j
  }

  /** `np.where(values == v)[0]`: the positions holding `v`, in increasing order. */
  function Positions(values: seq<int>, v: int): (p: seq<nat>)
    ensures forall k | 0 <= k < |p| :: p[k] < |values| && values[p[k]] == v
    ensures |p| == multiset(values)[v]
  {
    if values == [] then []
    else
      var init, last := values[..|values| - 1], |values| - 1;
      assert values == init + [values[last]];
      var p := Positions(init, v);
      if values[last] == v then p + [last] else p
  }

  /** The positions are increasing and every position holding `v` is among them. */
  lemma {:induction false} PositionsComplete(values: seq<int>, v: int)
    ensures forall k, l | 0 <= k < l < |Positions(values, v)| :: Positions(values, v)[k] < Positions(values, v)[l]
    ensures forall i | 0 <= i < |values| && values[i] == v :: i in Positions(values, v)
  {
    if values != [] {
      var init, last := values[..|values| - 1], |values| - 1;
      PositionsComplete(init, v);
      assert forall i | 0 <= i < last :: values[i] == init[i];
    }
  }

  /** `np.random.choice(pool, n)`: `n` draws with replacement; the generator is not
      modelled, so every draw is an arbitrary member of the pool. */
  method ChooseWithReplacement(pool: seq<nat>, n: nat) returns (drawn: seq<nat>)
    requires |pool| > 0 || n == 0
    ensures |drawn| == n
    ensures forall k | 0 <= k < n :: drawn[k] in pool
  {
    drawn := [];
    while |drawn| < n
      invariant |drawn| <= n
      invariant forall k | 0 <= k < |drawn| :: drawn[k] in pool
    {
      var c :| 0 <= c < |pool|;
      drawn := drawn + [pool[c]];
    }
  }

  /** `np.concatenate` of a list of index arrays. */
  function Flatten(blocks: seq<seq<nat>>): seq<nat> {
    if blocks == [] then [] else Flatten(blocks[..|blocks| - 1]) + blocks[|blocks| - 1]
  }

  /** The least count of any category: `counts[counts.argmin()]`. */
  function MinCount(values: seq<int>): nat
    requires |values| > 0
  {
    var u := SortedUnique(values);
    assert values[0] in Elements(u);
    Counts(values, u)[ArgMin(Counts(values, u))]
  }

  /** Block `m` of the result is valid for category `u[m]`: it holds `n` positions of
      that category, and for the least frequent category it is all of its positions. */
  predicate IsBlock(values: seq<int>, u: seq<int>, minIndex: nat, n: nat, block: seq<nat>, m: nat)
    requires m < |u| && minIndex < |u|
  {
    && |block| == n
    && (forall t | 0 <= t < |block| :: block[t] < |values| && values[block[t]] == u[m])
    && (m == minIndex ==> block == Positions(values, u[m]))
  }

  /** What `downsample` computes: one block per category, in increasing category order,
      each of the least category count. */
  ghost predicate IsDownsampleOf(values: seq<int>, blocks: seq<seq<nat>>)
    requires |values| > 0
  {
    var u := SortedUnique(values);
    var c := Counts(values, u);
    assert values[0] in Elements(u);
    && |blocks| == |u|
    && forall m | 0 <= m < |u| :: IsBlock(values, u, ArgMin(c), MinCount(values), blocks[m], m)
  }

  lemma SortedUniqueEmpty(values: seq<int>)
    ensures |SortedUnique(values)| == 0 <==> |values| == 0
  {
    if |values| > 0 {
      assert values[0] in Elements(SortedUnique(values));
    }
  }

  /** One pass of the loop of `downsample`: all positions of the least frequent
      category, `min_count` draws from the positions of any other. */
  method DownsampleBlock(values: seq<int>, unique: seq<int>, minIndex: nat, minCount: nat, m: nat)
    returns (block: seq<nat>)
    requires unique == SortedUnique(values)
    requires m < |unique| && minIndex < |unique| && minCount == multiset(values)[unique[minIndex]]
    ensures IsBlock(values, unique, minIndex, minCount, block, m)
  {
    var positions := Positions(values, unique[m]);
    if unique[m] == unique[minIndex] {
      block := positions;
    } else {
      assert unique[m] in Elements(values);
      block := ChooseWithReplacement(positions, minCount);
    }
  }

  /** The loop of `downsample` over the categories of a non-empty column. */
  method DownsampleColumn(values: seq<int>) returns (indices: seq<nat>)
    requires |values| > 0
    ensures exists blocks :: IsDownsampleOf(values, blocks) && indices == Flatten(blocks)
  {
    var unique := SortedUnique(values);
    var counts := Counts(values, unique);
    SortedUniqueEmpty(values);
    var minIndex := ArgMin(counts);
    var minCount := counts[minIndex];
    assert minCount == MinCount(values);
    indices := [];
    ghost var blocks: seq<seq<nat>> := [];
    for m := 0 to |unique|
      invariant |blocks| == m
      invariant indices == Flatten(blocks)
      invariant forall b | 0 <= b < m :: IsBlock(values, unique, minIndex, minCount, blocks[b], b)
    {
      var block := DownsampleBlock(values, unique, minIndex, minCount, m);
      assert (blocks + [block])[..m] == blocks;
      indices := indices + block;
      blocks := blocks + [block];
    }
    assert IsDownsampleOf(values, blocks) by {
      assert forall m | 0 <= m < |unique| ::
        IsBlock(values, unique, ArgMin(Counts(values, unique)), MinCount(values), blocks[m], m);
    }
  }

  /** `downsample`: the index list handed to `reorder`. `x` is unbound for an axis other
      than 0 or 1; a missing field is a KeyError; `argmin` of the counts of an empty
      column is a ValueError. */
  method Downsample(sampleMd: Table<int>, featureMd: Table<int>, field: string, axis: int)
    returns (r: Result<seq<nat>>)
    ensures axis != 0 && axis != 1 ==> r == Err(UnboundLocalError)
    ensures (axis == 0 || axis == 1) ==>
      var md := AxisTable(sampleMd, featureMd, axis).value;
      && (field !in md ==> r == Err(KeyError))
      && (field in md && |md[field]| == 0 ==> r == Err(ValueError))
      && (field in md && |md[field]| > 0 ==>
            r.Ok? && exists blocks :: IsDownsampleOf(md[field], blocks) && r.value == Flatten(blocks))
  {
    if axis != 0 && axis != 1 {
      return Err(UnboundLocalError);
    }
    var md := AxisTable(sampleMd, featureMd, axis).value;
    if field !in md {
      return Err(KeyError);
    }
    var values := md[field];
    if |values| == 0 {
      return Err(ValueError);
    }
    var indices := DownsampleColumn(values);
    r := Ok(indices);
  }

  /** No category has fewer members than the one `downsample` scales everything to. */
  lemma MinCountIsLeast(values: seq<int>, v: int)
    requires |values| > 0 && v in values
    ensures 0 < MinCount(values) <= multiset(values)[v]
  {
    var u := SortedUnique(values);
    assert v in Elements(values);
    var m :| 0 <= m < |u| && u[m] == v;
    var c := Counts(values, u);
    var i := ArgMin(c);
    assert u[i] in Elements(u);
  }

  /** The category values at the chosen positions. */
  function Picked(values: seq<int>, idx: seq<nat>): (p: seq<int>)
    requires forall k | 0 <= k < |idx| :: idx[k] < |values|
    ensures |p| == |idx| && forall k | 0 <= k < |idx| :: p[k] == values[idx[k]]
  {
    seq(|idx|, k requires 0 <= k < |idx| => values[idx[k]])
  }

  lemma {:induction false} MultisetOfConstant(s: seq<int>, x: int)
    requires forall k | 0 <= k < |s| :: s[k] == x
    ensures forall v :: multiset(s)[v] == if v == x then |s| else 0
  {
    if s != [] {
      var init := s[..|s| - 1];
      assert s == init + [x];
      MultisetOfConstant(init, x);
    }
  }

  /** The blocks all have `n` valid positions, and block `m` points at category `u[m]`. */
  predicate UniformBlocks(values: seq<int>, u: seq<int>, blocks: seq<seq<nat>>, n: nat)
    requires |blocks| <= |u|
  {
    forall m | 0 <= m < |blocks| ::
      |blocks[m]| == n && forall t | 0 <= t < n :: blocks[m][t] < |values| && values[blocks[m][t]] == u[m]
  }

  predicate ValidIndices(values: seq<int>, idx: seq<nat>) {
    forall k | 0 <= k < |idx| :: idx[k] < |values|
  }

  lemma PickedConcat(values: seq<int>, a: seq<nat>, b: seq<nat>)
    requires ValidIndices(values, a) && ValidIndices(values, b)
    ensures ValidIndices(values, a + b)
    ensures Picked(values, a + b) == Picked(values, a) + Picked(values, b)
  {
  }

  lemma MulSucc(a: nat, n: nat)
    ensures a * n + n == (a + 1) * n
  {
  }

  lemma {:induction false} FlattenPicked(values: seq<int>, u: seq<int>, blocks: seq<seq<nat>>, n: nat)
    requires StrictlySorted(u) && |blocks| <= |u| && UniformBlocks(values, u, blocks, n)
    ensures |Flatten(blocks)| == |blocks| * n
    ensures ValidIndices(values, Flatten(blocks))
    ensures forall v :: multiset(Picked(values, Flatten(blocks)))[v] == if v in u[..|blocks|] then n else 0
  {
    var j := |blocks|;
    if j > 0 {
      var init := blocks[..j - 1];
      var block := blocks[j - 1];
      assert UniformBlocks(values, u, init, n);
      FlattenPicked(values, u, init, n);
      var prev := Flatten(init);
      assert Flatten(blocks) == prev + block;
      assert |Flatten(blocks)| == (j - 1) * n + n;
      MulSucc(j - 1, n);
      assert ValidIndices(values, block);
      PickedConcat(values, prev, block);
      var pb := Picked(values, block);
      MultisetOfConstant(pb, u[j - 1]);
      assert u[..j] == u[..j - 1] + [u[j - 1]];
      assert u[j - 1] !in u[..j - 1];
      forall v ensures multiset(Picked(values, Flatten(blocks)))[v] == if v in u[..j] then n else 0 {
        assert multiset(Picked(values, Flatten(blocks)))[v]
            == multiset(Picked(values, prev))[v] + multiset(pb)[v];
      }
    }
  }

  /** Every category of the column ends up with exactly `MinCount` indices, and no other
      value is picked: the output is balanced. */
  lemma DownsampleBalanced(values: seq<int>, blocks: seq<seq<nat>>)
    requires |values| > 0 && IsDownsampleOf(values, blocks)
    ensures |Flatten(blocks)| == |SortedUnique(values)| * MinCount(values)
    ensures forall k | 0 <= k < |Flatten(blocks)| :: Flatten(blocks)[k] < |values|
    ensures forall v :: multiset(Picked(values, Flatten(blocks)))[v]
                     == if v in values then MinCount(values) else 0
  {
    var u := SortedUnique(values);
    assert UniformBlocks(values, u, blocks, MinCount(values));
    FlattenPicked(values, u, blocks, MinCount(values));
    assert u[..|u|] == u;
    forall v ensures (v in u) == (v in values) {
      assert (v in Elements(u)) == (v in Elements(values));
    }
  }
}
