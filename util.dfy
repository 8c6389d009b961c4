/** The metadata helpers of `calour/util.py`: `get_field_vals` and the taxonomy
    string normalisation `_get_taxonomy_string`. */
module Util {
  import opened Results
  import opened Seqs
  import opened Text
  import opened Metadata

  // ---------------------------------------------------------------------------
  // get_field_vals

  /** `get_field_vals`: the values of a sample metadata column, all of them or each
      distinct value once. A missing column is a KeyError. */
  function GetFieldVals<V(==)>(sampleMd: Table<V>, field: string, unique: bool): (r: Result<seq<V>>)
    ensures r.Err? <==> field !in sampleMd
    ensures r.Err? ==> r.error == KeyError
    ensures r.Ok? && !unique ==> r.value == sampleMd[field]
    ensures r.Ok? && unique ==> NoDuplicates(r.value) && Elements(r.value) == Elements(sampleMd[field])
  {
    if field !in sampleMd then Err(KeyError)
    else if unique then Ok(Distinct(sampleMd[field]))
    else Ok(sampleMd[field])
  }

  /** With `unique=True` there are as many values as distinct entries in the column,
      and never more than the column has rows. */
  lemma FieldValsUniqueCount<V>(sampleMd: Table<V>, field: string)
    requires field in sampleMd
    ensures |GetFieldVals(sampleMd, field, true).value| == |Elements(sampleMd[field])|
    ensures |GetFieldVals(sampleMd, field, true).value| <= |GetFieldVals(sampleMd, field, false).value|
  {
    DistinctCard(sampleMd[field]);
  }

  // ---------------------------------------------------------------------------
  // _get_taxonomy_string

  /** One level after `strip()`: None when it is 3 characters or shorter, the part
      after a rank prefix such as `g__` when characters 1 and 2 are underscores,
      the stripped level otherwise. */
  function CleanLevel(level: string): (r: Option<string>)
    ensures r.None? <==> |Strip(level)| <= 3
    ensures r.Some? ==> |r.value| > 0
  {
    var s := Strip(level);
    if |s| <= 3 then None
    else if s[1..3] == "__" then Some(s[3..])
    else Some(s)
  }

  /** A kept level is the stripped level, with its first 3 characters cut exactly when
      characters 1 and 2 are underscores. */
  lemma CleanLevelCut(level: string)
    requires CleanLevel(level).Some?
    ensures var s, c := Strip(level), CleanLevel(level).value;
      && (|c| == |s| || |c| == |s| - 3)
      && c == s[|s| - |c|..]
      && (|c| < |s| <==> s[1..3] == "__")
  {
  }

  /** What one level adds to `taxstr`: the cleaned level followed by the separator,
      or nothing. */
  function LevelPiece(level: string, sep: string): string {
    match CleanLevel(level)
    case None => ""
    case Some(c) => c + sep
  }

  /** The `taxstr` of one feature before the `'na'` substitution. */
  function KeptLevels(levels: seq<string>, sep: string): string {
    if levels == [] then ""
    else KeptLevels(levels[..|levels| - 1], sep) + LevelPiece(levels[|levels| - 1], sep)
  }

  /** The string for one feature: its kept levels, each followed by the separator,
      or `na` when no level is kept. */
  function TaxString(levels: seq<string>, sep: string): (r: string)
    ensures |r| > 0
  {
    var t := KeptLevels(levels, sep);
    if |t| == 0 then "na" else t
  }

  lemma {:induction false} KeptLevelsAppend(a: seq<string>, b: seq<string>, sep: string)
    ensures KeptLevels(a + b, sep) == KeptLevels(a, sep) + KeptLevels(b, sep)
  {
    if b != [] {
      var init := b[..|b| - 1];
      assert (a + b)[..|a + b| - 1] == a + init;
      assert init + [b[|b| - 1]] == b;
      KeptLevelsAppend(a, init, sep);
    } else {
      assert a + b == a;
    }
  }

  /** The feature string is `na` exactly when no level survives cleaning (or when the
      kept levels spell out `na` themselves, which needs an empty separator). */
  lemma {:induction false} NoKeptLevels(levels: seq<string>, sep: string)
    ensures |KeptLevels(levels, sep)| == 0 <==> forall i | 0 <= i < |levels| :: CleanLevel(levels[i]).None?
  {
    if levels != [] {
      var init := levels[..|levels| - 1];
      NoKeptLevels(init, sep);
      assert forall i | 0 <= i < |init| :: init[i] == levels[i];
    }
  }

  /** Every kept level is followed by the separator, so a non-`na` string ends with it. */
  lemma {:induction false} KeptLevelsEndWithSeparator(levels: seq<string>, sep: string)
    requires |KeptLevels(levels, sep)| > 0
    ensures |sep| <= |KeptLevels(levels, sep)|
    ensures KeptLevels(levels, sep)[|KeptLevels(levels, sep)| - |sep|..] == sep
  {
    var init := levels[..|levels| - 1];
    var last := levels[|levels| - 1];
    assert KeptLevels(levels, sep) == KeptLevels(init, sep) + LevelPiece(last, sep);
    match CleanLevel(last)
    case None =>
      KeptLevelsEndWithSeparator(init, sep);
    case Some(c) =>
      assert KeptLevels(levels, sep) == (KeptLevels(init, sep) + c) + sep;
  }

  lemma ShortLevelPiece(level: string, sep: string)
    requires |Strip(level)| <= 3
    ensures KeptLevels([level], sep) == ""
  {
    assert [level][..0] == [];
  }

  /** A level of at most 3 characters after stripping makes no difference. */
  lemma ShortLevelIgnored(levels: seq<string>, i: nat, sep: string)
    requires i < |levels| && |Strip(levels[i])| <= 3
    ensures TaxString(levels, sep) == TaxString(levels[..i] + levels[i + 1..], sep)
  {
    var a, b := levels[..i], levels[i + 1..];
    assert KeptLevels(levels, sep) == KeptLevels(a + [levels[i]], sep) + KeptLevels(b, sep) by {
      assert levels == (a + [levels[i]]) + b;
      KeptLevelsAppend(a + [levels[i]], b, sep);
    }
    assert KeptLevels(a + [levels[i]], sep) == KeptLevels(a, sep) by {
      KeptLevelsAppend(a, [levels[i]], sep);
      ShortLevelPiece(levels[i], sep);
    }
    KeptLevelsAppend(a, b, sep);
  }

  /** A rank prefix is cut after stripping. */
  lemma CleanLevelKeepsExamples()
    ensures CleanLevel(" g__Bacteroides ") == Some("Bacteroides")
  {
    var t := "g__Bacteroides";
    StripPaddedExample();
    assert t[1..3] == "__" && t[3..] == "Bacteroides";
  }

  lemma StripPaddedExample()
    ensures Strip(" g__Bacteroides ") == "g__Bacteroides"
  {
    var s := " g__Bacteroides ";
    assert SpaceRunEnd(s, 1) == 1 && SpaceRunStart(s, 15) == 15;
    assert s[1..15] == "g__Bacteroides";
  }

  /** A level without a rank prefix is kept as it is. */
  lemma CleanLevelUnprefixedExample()
    ensures CleanLevel("Bacteria") == Some("Bacteria")
  {
    var u := "Bacteria";
    assert SpaceRunEnd(u, 0) == 0 && SpaceRunStart(u, 8) == 8;
    assert Strip(u) == u[0..8] == u;
    assert u[1..3] != "__" by { assert u[1] == 'a'; }
  }

  /** An empty rank such as `k__` is dropped, also when padded with whitespace. */
  lemma CleanLevelDropsExamples()
    ensures CleanLevel("k__") == None
    ensures CleanLevel("g__ ") == None
  {
    assert SpaceRunEnd("k__", 0) == 0;
    var u := "g__ ";
    assert SpaceRunStart(u, 3) == 3;
    assert |Strip(u)| == 3;
  }

  /** One more level extends `taxstr` by that level's piece. */
  lemma KeptLevelsStep(levels: seq<string>, i: nat, sep: string)
    requires i < |levels|
    ensures KeptLevels(levels[..i + 1], sep) == KeptLevels(levels[..i], sep) + LevelPiece(levels[i], sep)
  {
    assert levels[..i + 1][..i] == levels[..i];
  }

  /** One pass of the inner loop: strip the level, skip it when 3 characters or
      shorter, cut a rank prefix, append it with the separator. */
  method AppendLevel(taxstr: string, level: string, sep: string) returns (r: string)
    ensures r == taxstr + LevelPiece(level, sep)
  {
    r := taxstr;
    var clevel := Strip(level);
    if |clevel| > 3 {
      if clevel[1..3] == "__" {
        clevel := clevel[3..];
      }
      assert LevelPiece(level, sep) == clevel + sep;
      r := r + clevel + sep;
    }
  }

  /** The inner loop: concatenate the kept levels of one feature, then substitute `na`. */
  method FeatureTaxString(levels: seq<string>, sep: string) returns (taxstr: string)
    ensures taxstr == TaxString(levels, sep)
  {
    taxstr := "";
    for i := 0 to |levels|
      invariant taxstr == KeptLevels(levels[..i], sep)
    {
      KeptLevelsStep(levels, i, sep);
      taxstr := AppendLevel(taxstr, levels[i], sep);
    }
    assert levels[..|levels|] == levels;
    if |taxstr| == 0 {
      taxstr := "na";
    }
  }

  /** The feature strings of a column, in order. */
  function TaxStrings(column: seq<TaxEntry>, sep: string): (r: seq<string>)
    ensures |r| == |column|
  {
    if column == [] then []
    else TaxStrings(column[..|column| - 1], sep) + [TaxString(Iterated(column[|column| - 1]), sep)]
  }

  lemma {:induction false} TaxStringsAt(column: seq<TaxEntry>, sep: string, j: nat)
    requires j < |column|
    ensures TaxStrings(column, sep)[j] == TaxString(Iterated(column[j]), sep)
  {
    if j < |column| - 1 {
      var init := column[..|column| - 1];
      TaxStringsAt(init, sep, j);
      assert init[j] == column[j];
    }
  }

  /** The outer loop with `remove_underscore=True`: one string per feature, in order. */
  method CleanTaxonomy(column: seq<TaxEntry>, sep: string) returns (taxonomy: seq<string>)
    ensures |taxonomy| == |column|
    ensures forall j | 0 <= j < |column| :: taxonomy[j] == TaxString(Iterated(column[j]), sep)
  {
    taxonomy := [];
    for j := 0 to |column|
      invariant taxonomy == TaxStrings(column[..j], sep)
    {
      var taxstr := FeatureTaxString(Iterated(column[j]), sep);
      assert column[..j + 1][..j] == column[..j];
      taxonomy := taxonomy + [taxstr];
    }
    assert column[..|column|] == column;
    forall j | 0 <= j < |column|
      ensures taxonomy[j] == TaxString(Iterated(column[j]), sep)
    {
      TaxStringsAt(column, sep, j);
    }
  }

  /** The result of `_get_taxonomy_string`: the stored column itself when its first entry
      is not a list, otherwise one string per feature. */
  datatype TaxonomyColumn = Stored(entries: seq<TaxEntry>) | Strings(strings: seq<string>)

  /** The string for one feature before lowercasing. */
  function FeatureString(e: TaxEntry, sep: string, removeUnderscore: bool): string {
    if removeUnderscore then TaxString(Iterated(e), sep) else Join(sep, Iterated(e))
  }

  function Cased(s: string, toLower: bool): string {
    if toLower then Lower(s) else s
  }

  /** `_get_taxonomy_string`. A missing `taxonomy` column is a ValueError. The column is
      indexed by feature ids, so `[0]` is a positional lookup and an empty column raises
      IndexError. */
  method GetTaxonomyString(featureMd: Table<TaxEntry>, sep: string, removeUnderscore: bool, toLower: bool)
    returns (r: Result<TaxonomyColumn>)
    ensures "taxonomy" !in featureMd ==> r == Err(ValueError)
    ensures "taxonomy" in featureMd ==>
      var column := featureMd["taxonomy"];
      && (|column| == 0 ==> r == Err(IndexError))
      && (|column| > 0 && column[0].Text? ==> r == Ok(Stored(column)))
      && (|column| > 0 && column[0].Levels? ==>
            && r.Ok? && r.value.Strings?
            && |r.value.strings| == |column|
            && forall j | 0 <= j < |column| ::
                 r.value.strings[j] == Cased(FeatureString(column[j], sep, removeUnderscore), toLower))
  {
    if "taxonomy" !in featureMd {
      return Err(ValueError);
    }
    var column := featureMd["taxonomy"];
    if |column| == 0 {
      return Err(IndexError);
    }
    if !column[0].Levels? {
      return Ok(Stored(column));
    }
    var taxonomy: seq<string>;
    if !removeUnderscore {
      taxonomy := seq(|column|, j requires 0 <= j < |column| => Join(sep, Iterated(column[j])));
    } else {
      taxonomy := CleanTaxonomy(column, sep);
    }
    if toLower {
      taxonomy := seq(|taxonomy|, j requires 0 <= j < |taxonomy| => Lower(taxonomy[j]));
    }
    r := Ok(Strings(taxonomy));
  }
}
