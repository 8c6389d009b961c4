/** Sequence helpers standing in for the Python built-ins the model needs:
    `set(x)` (as the distinct values in order of first appearance) and `sum`. */
module Seqs {

  predicate NoDuplicates<T(==)>(s: seq<T>) {
    forall i, j | 0 <= i < j < |s| :: s[i] != s[j]
  }

  /** The distinct values of `s`, each once, in the order in which they first appear. */
  function Distinct<T(==)>(s: seq<T>): (d: seq<T>)
    ensures forall x | x in d :: x in s
    ensures forall x | x in s :: x in d
    ensures NoDuplicates(d)
    ensures |d| <= |s|
  {
    if s == [] then []
    else
      var init, x := s[..|s| - 1], s[|s| - 1];
      assert forall y | y in s :: y in init || y == x;
      if x in init then Distinct(init) else Distinct(init) + [x]
  }

  lemma DistinctSnoc<T>(s: seq<T>, x: T)
    ensures Distinct(s + [x]) == if x in s then Distinct(s) else Distinct(s) + [x]
  {
    assert (s + [x])[..|s|] == s;
  }

  /** The set of the elements of `s`, Python's `set(s)`. */
  function Elements<T>(s: seq<T>): set<T> {
    set x | x in s
  }

  /** A sequence without duplicates has exactly as many elements as the set of its elements. */
  lemma {:induction false} NoDuplicatesCard<T>(d: seq<T>)
    requires NoDuplicates(d)
    ensures |Elements(d)| == |d|
  {
    if d != [] {
      var init := d[..|d| - 1];
      NoDuplicatesCard(init);
      assert Elements(d) == Elements(init) + {d[|d| - 1]};
      assert d[|d| - 1] !in init;
    }
  }

  /** The number of distinct values, `len(set(s))` in Python, is the length of `Distinct(s)`. */
  lemma DistinctCard<T>(s: seq<T>)
    ensures |Distinct(s)| == |Elements(s)|
  {
    var d := Distinct(s);
    NoDuplicatesCard(d);
    assert Elements(d) == Elements(s);
  }

  /** A non-empty sequence has at least one and at most `|s|` distinct elements. */
  lemma ElementCountBounds<T>(s: seq<T>)
    requires |s| > 0
    ensures 1 <= |Elements(s)| <= |s|
  {
    DistinctCard(s);
    assert s[0] in Distinct(s);
  }

  /** Index of the first occurrence of `x` in `s`. */
  function FirstIndex<T(==)>(s: seq<T>, x: T): (i: nat)
    requires x in s
    ensures i < |s| && s[i] == x
    ensures forall j | 0 <= j < i :: s[j] != x
  {
    if s[0] == x then 0 else 1 + FirstIndex(s[1..], x)
  }

  /** `Distinct` lists the values in the order of their first occurrence. */
  lemma {:induction false} DistinctFirstOccurrenceOrder<T>(s: seq<T>, a: nat, b: nat)
    requires a < b < |Distinct(s)|
    ensures FirstIndex(s, Distinct(s)[a]) < FirstIndex(s, Distinct(s)[b])
  {
    var init, x := s[..|s| - 1], s[|s| - 1];
    assert s == init + [x];
    DistinctSnoc(init, x);
    var d := Distinct(s);
    FirstIndexPrefix(init, x, d[a]);
    FirstIndexPrefix(init, x, d[b]);
    if x in init || b < |Distinct(init)| {
      DistinctFirstOccurrenceOrder(init, a, b);
    } else {
      assert d[b] == x && d[a] in init;
    }
  }

  lemma FirstIndexPrefix<T>(init: seq<T>, x: T, y: T)
    requires y in init + [x]
    ensures y in init ==> FirstIndex(init + [x], y) == FirstIndex(init, y)
    ensures y !in init ==> FirstIndex(init + [x], y) == |init|
  {
    var s := init + [x];
    var k := FirstIndex(s, y);
    if y in init {
      var k' := FirstIndex(init, y);
      assert s[k'] == y;
      assert k <= k';
      assert init[k] == y;
    } else {
      assert forall j | 0 <= j < |init| :: s[j] != y;
    }
  }

  function Sum(s: seq<real>): real {
    if s == [] then 0.0 else Sum(s[..|s| - 1]) + s[|s| - 1]
  }

  lemma {:induction false} SumAppend(a: seq<real>, b: seq<real>)
    ensures Sum(a + b) == Sum(a) + Sum(b)
  {
    if b != [] {
      var b' := b[..|b| - 1];
      assert (a + b)[..|a + b| - 1] == a + b';
      SumAppend(a, b');
    } else {
      assert a + b == a;
    }
  }

  /** The sum of values that are all at least `lo` is at least `|s| * lo`. */
  lemma {:induction false} SumLowerBound(s: seq<real>, lo: real)
    ensures (forall i | 0 <= i < |s| :: s[i] >= lo) ==> Sum(s) >= |s| as real * lo
  {
    if s != [] {
      var init := s[..|s| - 1];
      assert forall i | 0 <= i < |init| :: init[i] == s[i];
      SumLowerBound(init, lo);
    }
  }
}
