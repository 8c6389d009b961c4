/** The metadata tables of an experiment, as the filters and the taxonomy helpers see them.
    The experiment class itself is not part of this model. */
module Metadata {
  import opened Results

  /** A metadata table: each column name maps to one value per row (sample or feature). */
  type Table<V> = map<string, seq<V>>

  /** The table that an `axis` argument selects: samples for 0, features for 1. */
  function AxisTable<V>(sampleMd: Table<V>, featureMd: Table<V>, axis: int): (t: Option<Table<V>>)
    ensures t.Some? <==> axis == 0 || axis == 1
    ensures axis == 0 ==> t == Some(sampleMd)
    ensures axis == 1 ==> t == Some(featureMd)
  {
    if axis == 0 then Some(sampleMd) else if axis == 1 then Some(featureMd) else None
  }

  /** One entry of the `taxonomy` feature column: normally a list of levels,
      sometimes a plain string. */
  datatype TaxEntry = Levels(levels: seq<string>) | Text(text: string)

  /** What a Python `for` loop over the entry visits: the levels of a list,
      the one-character strings of a string. */
  function Iterated(e: TaxEntry): (r: seq<string>)
    ensures e.Levels? ==> r == e.levels
    ensures e.Text? ==> |r| == |e.text| && forall i | 0 <= i < |r| :: r[i] == [e.text[i]]
  {
    match e
    case Levels(ls) => ls
    case Text(s) => seq(|s|, i requires 0 <= i < |s| => [s[i]])
  }
}
