/** The computational parts of `calour/heatmap/heatmap.py`: run detection in
    `_transition_index` and, inside `plot`, clipping before the log transform, the
    gui and database dispatch tables, x tick placement and the tick-label
    shortening rules. Drawing is not part of this model. */
module Heatmap {
  import opened Results
  import opened Text
  import opened Metadata

  // ---------------------------------------------------------------------------
  // _transition_index

  /** Position `i` starts one of the runs recorded in `t`. */
  predicate IsStart<T>(t: seq<(nat, T)>, i: nat) {
    exists k | 0 <= k < |t| :: t[k].0 == i
  }

  lemma IsStartSnoc<T>(p: seq<(nat, T)>, e: (nat, T))
    ensures forall i :: IsStart(p + [e], i) <==> IsStart(p, i) || e.0 == i
  {
    forall i | IsStart(p + [e], i) && e.0 != i ensures IsStart(p, i) {
      var k :| 0 <= k < |p| + 1 && (p + [e])[k].0 == i;
      assert k < |p| && p[k].0 == i;
    }
    forall i | IsStart(p, i) ensures IsStart(p + [e], i) {
      var k :| 0 <= k < |p| && p[k].0 == i;
      assert (p + [e])[k].0 == i;
    }
    assert (p + [e])[|p|].0 == e.0;
  }

  /** The (position, value) pairs `_transition_index` yields for a non-empty sequence:
      position 0, then every position whose value differs from the one before. */
  function Transitions<T(==)>(l: seq<T>): (t: seq<(nat, T)>)
    requires |l| > 0
    ensures |t| > 0 && t[0] == (0, l[0])
    ensures forall k | 0 <= k < |t| :: t[k].0 < |l| && t[k].1 == l[t[k].0]
    ensures forall k, m | 0 <= k < m < |t| :: t[k].0 < t[m].0
    ensures t[|t| - 1].1 == l[|l| - 1]
  {
    if |l| == 1 then [(0, l[0])]
    else
      var n := |l|;
      var p := Transitions(l[..n - 1]);
      if l[n - 1] != l[n - 2] then p + [(n - 1, l[n - 1])] else p
  }

  /** A position after the first is yielded exactly when its value differs from the
      one before it. */
  lemma {:induction false} TransitionStarts<T>(l: seq<T>)
    requires |l| > 0
    ensures forall i | 0 < i < |l| :: l[i] != l[i - 1] <==> IsStart(Transitions(l), i)
  {
    var n := |l|;
    if n > 1 {
      var init := l[..n - 1];
      var p := Transitions(init);
      TransitionStarts(init);
      assert forall i | 0 <= i < n - 1 :: init[i] == l[i];
      if l[n - 1] != l[n - 2] {
        IsStartSnoc(p, (n - 1, l[n - 1]));
      } else {
        assert !IsStart(p, n - 1);
      }
    }
  }

  /** The generator: `cur` holds the value of the current run, so comparing with it is
      comparing with the previous element. `l[0]` of an empty sequence is an IndexError. */
  method TransitionIndex<T(==)>(l: seq<T>) returns (r: Result<seq<(nat, T)>>)
    ensures |l| == 0 <==> r.Err?
    ensures r.Err? ==> r.error == IndexError
    ensures r.Ok? ==> r.value == Transitions(l)
  {
    if |l| == 0 {
      return Err(IndexError);
    }
    var cur := l[0];
    var out := [(0, cur)];
    for i := 1 to |l|
      invariant cur == l[i - 1]
      invariant out == Transitions(l[..i])
    {
      assert Transitions(l[..i + 1])
          == if l[i] != l[i - 1] then Transitions(l[..i]) + [(i, l[i])] else Transitions(l[..i]) by {
        assert l[..i + 1][..i] == l[..i];
      }
      if l[i] != cur {
        out := out + [(i, l[i])];
        cur := l[i];
      }
    }
    assert l[..|l|] == l;
    r := Ok(out);
  }

  lemma TransitionsExample()
    ensures Transitions(["a", "a", "b"]) == [(0, "a"), (2, "b")]
  {
    var l := ["a", "a", "b"];
    assert l[..2] == ["a", "a"] && l[..2][..1] == ["a"];
  }

  /** Neighbouring runs carry different values. */
  lemma TransitionValuesAlternate<T>(l: seq<T>, k: nat)
    requires |l| > 0 && 0 < k < |Transitions(l)|
    ensures Transitions(l)[k].1 != Transitions(l)[k - 1].1
  {
    var t := Transitions(l);
    var i := t[k].0;
    TransitionStarts(l);
    assert IsStart(t, i);
    assert l[i] != l[i - 1];
    TransitionValueAt(l, k - 1, i - 1);
  }

  /** Every position between two consecutive starts holds the value of the earlier one. */
  lemma {:induction false} TransitionValueAt<T>(l: seq<T>, k: nat, i: nat)
    requires |l| > 0 && k < |Transitions(l)|
    requires Transitions(l)[k].0 <= i < |l|
    requires k + 1 < |Transitions(l)| ==> i < Transitions(l)[k + 1].0
    ensures l[i] == Transitions(l)[k].1
    decreases i
  {
    var t := Transitions(l);
    if i > t[k].0 {
      TransitionStarts(l);
      assert !IsStart(t, i);
      TransitionValueAt(l, k, i - 1);
    }
  }

  /** The sequence the runs describe: each recorded value repeated up to the next start,
      the last one up to `n`. */
  function Expand<T>(t: seq<(nat, T)>, n: nat): seq<T>
    decreases |t|
  {
    if t == [] then []
    else
      var last := t[|t| - 1];
      var m := if last.0 <= n then last.0 else n;
      Expand(t[..|t| - 1], m) + seq(n - m, _ => last.1)
  }

  lemma {:induction false} ExpandLength<T>(t: seq<(nat, T)>, n: nat)
    requires |t| > 0 && t[0].0 == 0
    ensures |Expand(t, n)| == n
  {
    var last := t[|t| - 1];
    var m := if last.0 <= n then last.0 else n;
    if |t| > 1 {
      ExpandLength(t[..|t| - 1], m);
    } else {
      assert m == 0;
    }
  }

  /** Expanding the runs gives back the sequence: no information is lost. */
  lemma {:induction false} ExpandTransitions<T>(l: seq<T>)
    requires |l| > 0
    ensures Expand(Transitions(l), |l|) == l
  {
    var n := |l|;
    if n > 1 {
      var init := l[..n - 1];
      assert l == init + [l[n - 1]];
      ExpandTransitions(init);
      ExpandStep(l);
    }
  }

  /** Adding one element to the sequence adds it to the expansion of its runs. */
  lemma ExpandStep<T>(l: seq<T>)
    requires |l| > 1
    ensures Expand(Transitions(l), |l|) == Expand(Transitions(l[..|l| - 1]), |l| - 1) + [l[|l| - 1]]
  {
    var n := |l|;
    var init := l[..n - 1];
    var p := Transitions(init);
    if l[n - 1] != l[n - 2] {
      assert Transitions(l) == p + [(n - 1, l[n - 1])];
      ExpandNewRun(p, n - 1, l[n - 1]);
    } else {
      assert Transitions(l) == p;
      ExpandExtend(p, n - 1);
      assert p[|p| - 1].1 == init[n - 2];
    }
  }

  /** A run that starts at `n` and is one long appends its value. */
  lemma ExpandNewRun<T>(p: seq<(nat, T)>, n: nat, x: T)
    ensures Expand(p + [(n, x)], n + 1) == Expand(p, n) + [x]
  {
    var t := p + [(n, x)];
    assert t[..|t| - 1] == p;
    assert seq(1, _ => x) == [x];
  }

  /** Extending the last run by one position appends its value. */
  lemma {:induction false} ExpandExtend<T>(t: seq<(nat, T)>, n: nat)
    requires |t| > 0 && t[|t| - 1].0 <= n
    ensures Expand(t, n + 1) == Expand(t, n) + [t[|t| - 1].1]
  {
    var last := t[|t| - 1];
    assert seq(n + 1 - last.0, _ => last.1) == seq(n - last.0, _ => last.1) + [last.1];
  }

  /** The number of positions whose value differs from the one before. */
  function Changes<T(==)>(l: seq<T>): nat {
    if |l| <= 1 then 0
    else Changes(l[..|l| - 1]) + if l[|l| - 1] != l[|l| - 2] then 1 else 0
  }

  /** One pair per maximal run. */
  lemma {:induction false} TransitionsCountRuns<T>(l: seq<T>)
    requires |l| > 0
    ensures |Transitions(l)| == 1 + Changes(l)
  {
    if |l| > 1 {
      TransitionsCountRuns(l[..|l| - 1]);
      assert l[..|l| - 1][|l| - 2] == l[|l| - 2];
    }
  }

  // ---------------------------------------------------------------------------
  // Clipping before the log transform

  /** One value after `data[data < log_cutoff] = log_cutoff`. */
  function Clipped(x: real, cutoff: real): (r: real)
    ensures r >= cutoff
    ensures x >= cutoff ==> r == x
    ensures x < cutoff ==> r == cutoff
  {
    if x < cutoff then cutoff else x
  }

  /** The masked assignment on the dense samples-by-features matrix, in place. */
  method ClipData(data: array2<real>, cutoff: real)
    modifies data
    ensures forall i, j | 0 <= i < data.Length0 && 0 <= j < data.Length1 ::
      data[i, j] == Clipped(old(data[i, j]), cutoff)
  {
    var i := 0;
    while i < data.Length0
      invariant 0 <= i <= data.Length0
      invariant forall i', j | 0 <= i' < i && 0 <= j < data.Length1 ::
        data[i', j] == Clipped(old(data[i', j]), cutoff)
      invariant forall i', j | i <= i' < data.Length0 && 0 <= j < data.Length1 ::
        data[i', j] == old(data[i', j])
    {
      var j := 0;
      while j < data.Length1
        invariant 0 <= j <= data.Length1
        invariant forall i', j' | 0 <= i' < i && 0 <= j' < data.Length1 ::
          data[i', j'] == Clipped(old(data[i', j']), cutoff)
        invariant forall j' | 0 <= j' < j :: data[i, j'] == Clipped(old(data[i, j']), cutoff)
        invariant forall i', j' | i <= i' < data.Length0 && 0 <= j' < data.Length1 && (i' > i || j' >= j) ::
          data[i', j'] == old(data[i', j'])
      {
        if data[i, j] < cutoff {
          data[i, j] := cutoff;
        }
        j := j + 1;
      }
      i := i + 1;
    }
  }

  // ---------------------------------------------------------------------------
  // Name dispatch

  /** The gui class a `gui` name selects; any other name is a ValueError. */
  function GuiClass(gui: string): (r: Result<string>)
    ensures r.Ok? <==> gui in ["qt5", "cli", "jupyter"]
    ensures r.Err? ==> r.error == ValueError
  {
    if gui == "qt5" then Ok("PlotGUI_QT5")
    else if gui == "cli" then Ok("PlotGUI_CLI")
    else if gui == "jupyter" then Ok("PlotGUI_Jupyter")
    else Err(ValueError)
  }

  /** The module the gui class is imported from. */
  function GuiModuleName(guiClass: string): (m: string)
    ensures |m| == |"calour.heatmap."| + |guiClass| && m[..|"calour.heatmap."|] == "calour.heatmap."
    ensures forall i | |"calour.heatmap."| <= i < |m| :: !IsUpper(m[i])
  {
    "calour.heatmap." + Lower(guiClass)
  }

  /** The gui modules are the lower-cased class names under `calour.heatmap`; the qt5
      one is `calour/heatmap/plotgui_qt5.py`. */
  lemma GuiModuleQt5()
    ensures GuiModuleName(GuiClass("qt5").value) == "calour.heatmap.plotgui_qt5"
  {
    LowerWord("PlotGUI_QT5", "plotgui_qt5");
  }

  lemma GuiModuleCli()
    ensures GuiModuleName(GuiClass("cli").value) == "calour.heatmap.plotgui_cli"
  {
    LowerWord("PlotGUI_CLI", "plotgui_cli");
  }

  lemma GuiModuleJupyter()
    ensures GuiModuleName(GuiClass("jupyter").value) == "calour.heatmap.plotgui_jupyter"
  {
    LowerWord("PlotGUI_Jupyter", "plotgui_jupyter");
  }

  /** Lower-casing a word is lower-casing it character by character. */
  lemma LowerWord(c: string, l: string)
    requires |c| == |l| && forall i | 0 <= i < |c| :: LowerChar(c[i]) == l[i]
    ensures Lower(c) == l
  {
  }

  /** The class name and module of a database plug-in. */
  datatype DatabaseClass = DatabaseClass(className: string, moduleName: string)

  /** The database class a name in `databases` selects; any other name is a ValueError. */
  function DatabaseClassFor(name: string): (r: Result<DatabaseClass>)
    ensures r.Ok? <==> name in ["dbbact", "spongeworld"]
    ensures r.Err? ==> r.error == ValueError
  {
    if name == "dbbact" then Ok(DatabaseClass("DBBact", "dbbact_calour.dbbact"))
    else if name == "spongeworld" then Ok(DatabaseClass("DBSponge", "dbbact_calour.dbsponge"))
    else Err(ValueError)
  }

  /** The databases linked to the heatmap, and the index of the one the annotate button uses. */
  datatype LinkedDatabases = LinkedDatabases(classes: seq<DatabaseClass>, annotationDb: Option<nat>)

  /** The first position whose class can annotate. */
  predicate IsFirstAnnotatable(classes: seq<DatabaseClass>, canAnnotate: string -> bool, k: nat) {
    && k < |classes|
    && canAnnotate(classes[k].className)
    && forall j | 0 <= j < k :: !canAnnotate(classes[j].className)
  }

  /** The linked databases are the resolved names, with the first database that can
      annotate selected for annotation. */
  predicate IsLinked(databases: seq<string>, canAnnotate: string -> bool, linked: LinkedDatabases) {
    && |linked.classes| == |databases|
    && (forall k | 0 <= k < |databases| ::
          DatabaseClassFor(databases[k]).Ok? && linked.classes[k] == DatabaseClassFor(databases[k]).value)
    && (linked.annotationDb.None? <==> forall k | 0 <= k < |databases| :: !canAnnotate(linked.classes[k].className))
    && (linked.annotationDb.Some? ==> IsFirstAnnotatable(linked.classes, canAnnotate, linked.annotationDb.value))
  }

  /** The loop over `databases`: each name is resolved and appended; the first database
      that can annotate is kept for annotation. `can_annotate` belongs to the plug-in
      classes and is a parameter here. */
  method LinkDatabases(databases: seq<string>, canAnnotate: string -> bool) returns (r: Result<LinkedDatabases>)
    ensures r.Err? <==> exists k | 0 <= k < |databases| :: DatabaseClassFor(databases[k]).Err?
    ensures r.Err? ==> r.error == ValueError
    ensures r.Ok? ==> IsLinked(databases, canAnnotate, r.value)
  {
    var classes: seq<DatabaseClass> := [];
    var annotationDb: Option<nat> := None;
    for k := 0 to |databases|
      invariant |classes| == k
      invariant forall j | 0 <= j < k :: DatabaseClassFor(databases[j]).Ok? && classes[j] == DatabaseClassFor(databases[j]).value
      invariant annotationDb.None? <==> forall j | 0 <= j < k :: !canAnnotate(classes[j].className)
      invariant annotationDb.Some? ==> IsFirstAnnotatable(classes, canAnnotate, annotationDb.value)
    {
      var c := DatabaseClassFor(databases[k]);
      if c.Err? {
        return Err(c.error);
      }
      classes := classes + [c.value];
      if canAnnotate(c.value.className) && annotationDb.None? {
        annotationDb := Some(k);
      }
    }
    r := Ok(LinkedDatabases(classes, annotationDb));
  }

  // ---------------------------------------------------------------------------
  // x ticks and separators

  /** `x_pos` after the append: the start of every sample group, then the sample count. */
  function Boundaries<T(==)>(values: seq<T>): (b: seq<nat>)
    requires |values| > 0
    ensures |b| == |Transitions(values)| + 1
    ensures b[0] == 0 && b[|b| - 1] == |values|
    ensures forall g | 0 <= g < |b| - 1 :: b[g] == Transitions(values)[g].0
    ensures forall g | 0 <= g < |b| - 1 :: b[g] < b[g + 1]
  {
    var t := Transitions(values);
    seq(|t|, g requires 0 <= g < |t| => t[g].0) + [|values|]
  }

  /** `x_pos[:-1] + (x_pos[1:] - x_pos[:-1]) / 2`: one tick per group, halfway between
      the group's start and the next group's start, so inside the group. */
  function XTicks<T(==)>(values: seq<T>): (ticks: seq<real>)
    requires |values| > 0
    ensures |ticks| == |Transitions(values)|
    ensures forall g | 0 <= g < |ticks| ::
      IsMidpoint(Boundaries(values)[g] as real, Boundaries(values)[g + 1] as real, ticks[g])
  {
    var b := Boundaries(values);
    var ticks := seq(|b| - 1, g requires 0 <= g < |b| - 1 => b[g] as real + (b[g + 1] - b[g]) as real / 2.0);
    assert forall g | 0 <= g < |ticks| :: IsMidpoint(b[g] as real, b[g + 1] as real, ticks[g]) by {
      forall g | 0 <= g < |ticks| ensures IsMidpoint(b[g] as real, b[g + 1] as real, ticks[g]) {
        Midpoint(b[g] as real, b[g + 1] as real);
      }
    }
    ticks
  }

  predicate IsMidpoint(lo: real, hi: real, m: real) {
    m - lo == hi - m && lo < m < hi
  }

  lemma Midpoint(lo: real, hi: real)
    requires lo < hi
    ensures IsMidpoint(lo, hi, lo + (hi - lo) / 2.0)
  {
  }

  /** The vertical lines: half a sample before every group start except the first. */
  function Separators<T(==)>(values: seq<T>): (seps: seq<real>)
    requires |values| > 0
    ensures |seps| == |Transitions(values)| - 1
  {
    var t := Transitions(values);
    seq(|t| - 1, g requires 0 <= g < |t| - 1 => t[g + 1].0 as real - 0.5)
  }

  /** Every separator lies half a sample before a position where the value changes. */
  lemma SeparatorAtChange<T>(values: seq<T>, g: nat)
    requires |values| > 0 && g < |Separators(values)|
    ensures var i := Boundaries(values)[g + 1];
      && Separators(values)[g] == i as real - 0.5
      && 0 < i < |values| && values[i] != values[i - 1]
  {
    var t := Transitions(values);
    TransitionStarts(values);
    assert IsStart(t, t[g + 1].0);
  }

  /** Ticks and separators interleave: every separator lies after the tick of the group
      it closes and before the tick of the group it opens. */
  lemma TicksAndSeparatorsInterleave<T>(values: seq<T>, g: nat)
    requires |values| > 0 && g < |Separators(values)|
    ensures |Separators(values)| + 1 == |XTicks(values)|
    ensures XTicks(values)[g] <= Separators(values)[g] < XTicks(values)[g + 1]
  {
    var b := Boundaries(values);
    assert b[g] + 1 <= b[g + 1] && b[g + 1] + 1 <= b[g + 2];
  }

  // ---------------------------------------------------------------------------
  // Tick-name shortening

  /** Python's `s[k:]`, for a negative `k` too: the last `-k` characters. */
  function SliceFrom(s: string, k: int): (r: string)
    ensures |r| <= |s| && r == s[|s| - |r|..]
    ensures |r| == if k >= 0 then (if k <= |s| then |s| - k else 0) else (if -k <= |s| then -k else |s|)
  {
    if k >= 0 then (if k <= |s| then s[k..] else [])
    else (if -k <= |s| then s[|s| + k..] else s)
  }

  /** Python's `s[:2]`. */
  function Head2(s: string): (r: string)
    ensures |r| == (if |s| < 2 then |s| else 2) && r == s[..|r|]
  {
    if |s| < 2 then s else s[..2]
  }

  /** The x-name rule as the source writes it: `clabel[:2] + '..' + clabel[5-maxlen:]`
      for a name longer than `maxlen`. */
  function ShortenXLabelAsWritten(name: string, maxlen: int): (r: string)
    ensures |name| <= maxlen ==> r == name
    ensures |name| > maxlen ==> |Head2(name)| + 2 <= |r| && r[..|Head2(name)| + 2] == Head2(name) + ".."
    ensures |name| > maxlen > 5 ==> |r| == maxlen - 1
    ensures |name| > maxlen && maxlen <= 5 ==> |r| > maxlen
  {
    if |name| > maxlen then Head2(name) + ".." + SliceFrom(name, 5 - maxlen) else name
  }

  /** The x-name rule: a name longer than `maxlen` keeps its first 2 characters and
      its last `maxlen - 5` characters (none when `maxlen` is 5 or less) around `..`. */
  function ShortenXLabel(name: string, maxlen: int): (r: string)
    ensures |name| <= maxlen ==> r == name
    ensures |name| > maxlen ==> |Head2(name)| <= |r| && r[..|Head2(name)|] == Head2(name)
  {
    if |name| > maxlen then Head2(name) + ".." + (if maxlen > 5 then SliceFrom(name, 5 - maxlen) else "")
    else name
  }

  /** Above 5 the corrected rule is the source's rule. */
  lemma ShortenXLabelAgrees(name: string, maxlen: int)
    requires maxlen > 5
    ensures ShortenXLabel(name, maxlen) == ShortenXLabelAsWritten(name, maxlen)
  {
  }

  /** A shortened name fits in `maxlen` (from 4 on, the room `..` and two characters
      need) and ends with the name's last `maxlen - 5` characters. */
  lemma ShortenXLabelFits(name: string, maxlen: int)
    requires maxlen >= 4
    ensures |ShortenXLabel(name, maxlen)| <= maxlen
    ensures |name| > maxlen > 5 ==>
      var r := ShortenXLabel(name, maxlen);
      |r| == maxlen - 1 && r[|r| - (maxlen - 5)..] == name[|name| - (maxlen - 5)..]
  {
  }

  /** With `xlabel_maxlen=5` the source lengthens a 6-character name to 10 characters:
      `clabel[0:]` is the whole name. */
  lemma ShortenXLabelAsWrittenGrows()
    ensures ShortenXLabelAsWritten("abcdef", 5) == "ab..abcdef"
    ensures |ShortenXLabelAsWritten("abcdef", 5)| > |"abcdef"| > 5
  {
    assert Head2("abcdef") == "ab";
  }

  /** The x tick labels: `xlabel_maxlen=None` leaves them as they are. */
  function XLabels(labels: seq<string>, maxlen: Option<int>): (r: seq<string>)
    ensures |r| == |labels|
    ensures maxlen.None? ==> r == labels
    ensures maxlen.Some? ==> forall i | 0 <= i < |r| ::
      && (|labels[i]| <= maxlen.value ==> r[i] == labels[i])
      && (|labels[i]| > maxlen.value > 5 ==> |r[i]| == maxlen.value - 1)
      && (|labels[i]| > maxlen.value && maxlen.value <= 5 ==> |r[i]| > maxlen.value)
    ensures maxlen.Some? ==> forall i | 0 <= i < |r| :: r[i] == ShortenXLabelAsWritten(labels[i], maxlen.value)
  {
    match maxlen
    case None => labels
    case Some(m) => seq(|labels|, i requires 0 <= i < |labels| => ShortenXLabelAsWritten(labels[i], m))
  }

  /** The feature-name rule: labels longer than 15 keep their last 15 characters. */
  function ShortenYLabel(name: string): (r: string)
    ensures |r| <= 15 && |r| <= |name|
    ensures r == name[|name| - |r|..]
    ensures |name| <= 15 ==> r == name
    ensures |name| > 15 ==> |r| == 15
  {
    if |name| > 15 then SliceFrom(name, -15) else name
  }

  /** The y tick labels; a field missing from the feature metadata is a ValueError. */
  function YLabels(featureMd: Table<string>, field: string): (r: Result<seq<string>>)
    ensures r.Err? <==> field !in featureMd
    ensures r.Err? ==> r.error == ValueError
    ensures r.Ok? ==>
      && |r.value| == |featureMd[field]|
      && forall i | 0 <= i < |r.value| :: r.value[i] == ShortenYLabel(featureMd[field][i])
  {
    if field !in featureMd then Err(ValueError)
    else
      var labels := featureMd[field];
      Ok(seq(|labels|, i requires 0 <= i < |labels| => ShortenYLabel(labels[i])))
  }

  // ---------------------------------------------------------------------------
  // plot: the steps above in the order the source takes them

  /** The gui name and every database name are known. */
  predicate NamesResolve(gui: string, databases: seq<string>) {
    GuiClass(gui).Ok? && forall k | 0 <= k < |databases| :: DatabaseClassFor(databases[k]).Ok?
  }

  /** No sample field, or one that exists and has at least one sample. */
  predicate SampleFieldUsable(sampleMd: Table<string>, sampleField: Option<string>) {
    sampleField.Some? ==> sampleField.value in sampleMd && |sampleMd[sampleField.value]| > 0
  }

  /** The sample axis: tick positions, group separators and tick labels. */
  datatype XAxis = XAxis(ticks: seq<real>, separators: seq<real>, labels: seq<string>)

  /** What `plot` sets up besides the drawing itself. */
  datatype PlotSetup = PlotSetup(guiClass: string, guiModule: string, databases: LinkedDatabases,
                                 xAxis: Option<XAxis>, yLabels: Option<seq<string>>)

  /** The value of every sample group, as `x_val` holds it. */
  function GroupValues(values: seq<string>): (v: seq<string>)
    requires |values| > 0
    ensures |v| == |Transitions(values)|
    ensures forall g | 0 <= g < |v| :: v[g] == values[Transitions(values)[g].0]
    ensures forall g | 0 < g < |v| :: v[g] != v[g - 1]
  {
    var t := Transitions(values);
    assert forall g | 0 < g < |t| :: t[g].1 != t[g - 1].1 by {
      forall g | 0 < g < |t| ensures t[g].1 != t[g - 1].1 {
        TransitionValuesAlternate(values, g);
      }
    }
    seq(|t|, g requires 0 <= g < |t| => t[g].1)
  }

  /** `plot` up to the drawing calls. The dense data is clipped in place when `logit` is
      set; then the gui name, the database names, the sample field and the feature field
      are resolved in that order, and the first failure ends the call. */
  method Plot(data: array2<real>, sampleMd: Table<string>, featureMd: Table<string>,
              sampleField: Option<string>, featureField: Option<string>, logit: bool,
              logCutoff: real, xlabelMaxlen: Option<int>, gui: string, databases: seq<string>,
              canAnnotate: string -> bool) returns (r: Result<PlotSetup>)
    modifies data
    ensures logit ==> forall i, j | 0 <= i < data.Length0 && 0 <= j < data.Length1 ::
      data[i, j] == Clipped(old(data[i, j]), logCutoff)
    ensures !logit ==> unchanged(data)
    ensures !NamesResolve(gui, databases) ==> r == Err(ValueError)
    ensures NamesResolve(gui, databases) && sampleField.Some? && sampleField.value !in sampleMd ==>
      r == Err(KeyError)
    ensures (NamesResolve(gui, databases) && sampleField.Some? && sampleField.value in sampleMd
             && |sampleMd[sampleField.value]| == 0) ==> r == Err(IndexError)
    ensures (NamesResolve(gui, databases) && SampleFieldUsable(sampleMd, sampleField)
             && featureField.Some? && featureField.value !in featureMd) ==> r == Err(ValueError)
    ensures (NamesResolve(gui, databases) && SampleFieldUsable(sampleMd, sampleField)
             && (featureField.None? || featureField.value in featureMd)) ==> r.Ok?
    ensures r.Ok? ==>
      && GuiClass(gui).Ok?
      && r.value.guiClass == GuiClass(gui).value
      && r.value.guiModule == GuiModuleName(GuiClass(gui).value)
      && IsLinked(databases, canAnnotate, r.value.databases)
    ensures r.Ok? && sampleField.None? ==> r.value.xAxis.None?
    ensures r.Ok? && sampleField.Some? ==>
      && SampleFieldUsable(sampleMd, sampleField)
      && r.value.xAxis == Some(XAxis(XTicks(sampleMd[sampleField.value]), Separators(sampleMd[sampleField.value]),
                                     XLabels(GroupValues(sampleMd[sampleField.value]), xlabelMaxlen)))
    ensures r.Ok? && featureField.None? ==> r.value.yLabels.None?
    ensures r.Ok? && featureField.Some? ==>
      && featureField.value in featureMd
      && r.value.yLabels == Some(YLabels(featureMd, featureField.value).value)
  {
    if logit {
      ClipData(data, logCutoff);
    }
    var guiClass := GuiClass(gui);
    if guiClass.Err? {
      return Err(guiClass.error);
    }
    var guiModule := GuiModuleName(guiClass.value);
    var linked := LinkDatabases(databases, canAnnotate);
    if linked.Err? {
      return Err(linked.error);
    }
    var xAxis: Option<XAxis> := None;
    if sampleField.Some? {
      if sampleField.value !in sampleMd {
        return Err(KeyError);
      }
      var values := sampleMd[sampleField.value];
      var transitions := TransitionIndex(values);
      if transitions.Err? {
        return Err(transitions.error);
      }
      xAxis := Some(XAxis(XTicks(values), Separators(values), XLabels(GroupValues(values), xlabelMaxlen)));
    }
    var yLabels: Option<seq<string>> := None;
    if featureField.Some? {
      var labels := YLabels(featureMd, featureField.value);
      if labels.Err? {
        return Err(labels.error);
      }
      yLabels := Some(labels.value);
    }
    r := Ok(PlotSetup(guiClass.value, guiModule, linked.value, xAxis, yLabels));
  }
}
