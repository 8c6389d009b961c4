# Calour core: filters, taxonomy strings, heatmap set-up and database terms, in Dafny

This project models the computational core of Calour, a toolkit for sample-by-feature
abundance tables (microbiome count matrices) with sample and feature metadata:

- **Filtering** (`calour/filtering.py`):
  - the five per-row data predicates (`_sum_abundance`, `_mean_abundance`, `_prevalence`,
    `_unique_cut`, `_freq_ratio`) and their documented examples;
  - the selection masks of `filter_by_data`, `filter_by_metadata` and `filter_taxonomy`;
  - the index list built by `downsample`.

  The filters return the mask or index list that the source hands to
  `Experiment.reorder`.
- **Utilities** (`calour/util.py`):
  - `get_field_vals`;
  - the taxonomy-string normalisation `_get_taxonomy_string` (strip, drop short levels,
    cut rank prefixes such as `g__`, join with a separator, `na` for nothing left,
    optional lower-casing);
  - `get_config_value`, as far as the database lookup reads it.
- **Heatmap** (`calour/heatmap/heatmap.py`):
  - the run detection `_transition_index`;
  - the non-drawing steps of `plot`, in its order: clipping before the log transform,
    the gui and database name dispatch, the choice of the annotation database, tick
    midpoints and group separators, and the x/y tick-label shortening rules.
- **Databases** (`calour/database.py`):
  - the capability flags of a database interface;
  - the config lookup and error paths of `_get_database_class`;
  - the enrichment capability check;
  - the most-common-term annotation of `add_terms_to_features`.

Python exceptions become `Err` values of `Results.Result`, and each names the Python
exception class (ValueError, KeyError, IndexError, ZeroDivisionError,
UnboundLocalError). Code that works by loops and in-place updates is modelled by methods
with loop invariants:

- the predicate loop of `filter_by_data`;
- the OR-accumulation of `filter_taxonomy`;
- the category loop of `downsample`;
- the taxonomy loops;
- the generator `_transition_index`;
- the in-place clipping;
- the database loop of `plot`;
- the section loop of `_get_database_class`;
- the counting and `max` loops of `add_terms_to_features`.

Each such method is proved against a specification function or predicate. The
properties of that specification are proved as lemmas. Pure Python helpers are
functions.

Modules:

| file | module | contents |
|---|---|---|
| results.dfy | `Results` | Error, Option, Result |
| seqs.dfy | `Seqs` | `set()` as first-occurrence `Distinct`, `sum`, first index |
| text.dfy | `Text` | `strip`, ASCII `lower`, substring test, `join` |
| metadata.dfy | `Metadata` | metadata tables, axis selection, taxonomy entries |
| filtering.dfy | `Filtering` | `calour/filtering.py` |
| util.dfy | `Util` | `get_field_vals`, `_get_taxonomy_string` |
| heatmap.dfy | `Heatmap` | `calour/heatmap/heatmap.py` |
| database.dfy | `Databases` | `calour/database.py` |

Two points about how the source is read:

- The data matrix has one row per sample (axis 0) and one column per feature, as
  `filter_by_data` and `plot` use it.
- Line 50 of `calour/database.py` reads the key `class_name` twice. So the list of
  databases offered in the error message checks only for `class_name`, and the model
  keeps that.

## Model

| member | source | states |
|---|---|---|
| `Filtering.SumAbundanceExamples` | calour/filtering.py:159-173 | the two doctests of `_sum_abundance`: `[0,1,1]` reaches 2 but not 2.01 |
| `Filtering.SumAbundance` | calour/filtering.py:159-173 | `x.sum() >= cutoff`; a row of non-negative abundances passes every cutoff up to 0 |
| `Filtering.SumAbundanceMoreSamples` | calour/filtering.py:173 | a row that passes still passes with further non-negative abundances appended |
| `Filtering.MeanAbundance` | calour/filtering.py:176-190 | the mean test holds iff the row is non-empty and its sum reaches `cutoff * len` (an empty row gives nan, which compares false) |
| `Filtering.MeanAbundanceExamples` | calour/filtering.py:184-187 | the doctests: `[0,0,1,1]` fails 0.51 and passes 0.5 |
| `Filtering.MeanIsScaledSum` | calour/filtering.py:173-190 | on a non-empty row the mean test equals the sum test with the cutoff scaled by the length |
| `Filtering.CountAtLeast` | calour/filtering.py:207 | `np.sum(x >= cutoff)` is the size of the set of positions at or above the cutoff |
| `Filtering.Prevalence` | calour/filtering.py:193-208 | prevalence holds iff the row is non-empty and the count at or above `cutoff` reaches `fraction * len` |
| `Filtering.PrevalenceExamples` | calour/filtering.py:200-205 | the three doctests, including the default cutoff 1/10000 and fraction 0.5 |
| `Filtering.CountAtLeastAntitone` | calour/filtering.py:207 | raising the cutoff never increases the count |
| `Filtering.PrevalenceAntitoneInCutoff` | calour/filtering.py:193-208 | a row prevalent at a cutoff stays prevalent at any lower cutoff |
| `Filtering.UniqueCut` | calour/filtering.py:211-224 | an empty row is a ZeroDivisionError; otherwise true iff the number of distinct values reaches `unique * len` |
| `Filtering.UniqueCutExamples` | calour/filtering.py:216-221 | the three doctests |
| `Filtering.UniqueCutBounds` | calour/filtering.py:223-224 | on a non-empty row the test always holds for `unique <= 1/len` and never for `unique > 1` |
| `Filtering.TopTwo` | calour/filtering.py:242 | returns two different positions: the largest count, and the largest among the rest |
| `Filtering.TopTwoValuesUnique` | calour/filtering.py:242 | however ties are broken, the two largest counts are the same values |
| `Filtering.FreqRatio` | calour/filtering.py:227-243 | fewer than two distinct values is a ValueError (two-way unpack); otherwise true iff largest / second largest count <= ratio |
| `Filtering.FreqRatioExamples` | calour/filtering.py:234-239 | doctests on `[0,0,1,2]`: ratio 2 holds, 1.99 does not |
| `Filtering.FreqRatioEvenExample` | calour/filtering.py:236-237 | doctest: `[0,0,1,1]` with 1.01 holds |
| `Filtering.CountsExampleSkewed` | calour/filtering.py:241 | `[0,0,1,2]` has counts 2, 1, 1 |
| `Filtering.CountsExampleEven` | calour/filtering.py:241 | `[0,0,1,1]` has counts 2, 2 |
| `Filtering.ValueCounts` | calour/filtering.py:241 | one count per distinct value, equal to its multiplicity |
| `Filtering.FreqRatioBelowOne` | calour/filtering.py:242-243 | no row passes a ratio below 1 |
| `Filtering.Negated` | calour/filtering.py:152-153 | `~select` has the same length and flips every entry |
| `Filtering.CountTrue` | calour/filtering.py:155 | `np.sum(select)` is at most the length, and 0 exactly when nothing is selected |
| `Filtering.CountTrueNegated` | calour/filtering.py:152-155 | the negated mask keeps `len - kept` entries |
| `Filtering.PredicateNamed` | calour/filtering.py:128-134 | exactly the five names resolve, never to a caller's callable; any other name is a KeyError |
| `Filtering.PredicateNamedDefaults` | calour/filtering.py:128-134 | each name runs its own predicate with its signature's defaults: `cutoff=10`, `ratio=2`, `unique=0.05`, `cutoff=0.01`, `cutoff=1/10000, fraction=0.5` |
| `Filtering.Apply` | calour/filtering.py:133-134 | only `_unique_cut` and `_freq_ratio` can raise |
| `Filtering.Slice` | calour/filtering.py:140-146 | row `i` for axis 0; column `i`, one entry per sample, for axis 1 |
| `Filtering.SelectSlices` | calour/filtering.py:136-146 | the mask is the predicate of each slice in order; the first slice whose predicate raises gives that error |
| `Filtering.Slices` | calour/filtering.py:136-146 | one slice per row (axis 0) or column (axis 1), slice `i` being `Slice(i)` |
| `Filtering.FilterByData` | calour/filtering.py:103-156 | `shape[axis]` outside -2..1 is an IndexError, -2/-1 the unknown-axis ValueError; otherwise the per-slice mask, flipped with `negate`, or the first error |
| `Filtering.FilterByMetadata` | calour/filtering.py:59-99 | axis other than 0/1 is a ValueError and a missing field a KeyError; otherwise entry `i` is whether value `i` is in the pick list (or the callable's mask), flipped with `negate` |
| `Filtering.ScalarPickIsSingletonList` | calour/filtering.py:92-93 | a single pick value selects what the one-element list does |
| `Filtering.Values.AsList` | calour/filtering.py:92-93 | a scalar pick becomes the one-element list; a list is used as it is |
| `Filtering.NegateComplements` | calour/filtering.py:97-98 | `negate=True` gives the complement mask, keeping `len - kept` entries |
| `Filtering.TaxonomyText` | calour/filtering.py:265 | the `;`-joined levels lower-cased (definition; `LevelSelectsFeature` states what it lets a value match) |
| `Filtering.ValueMatches` | calour/filtering.py:269-272 | the match test of one value: lowered value is a substring of, or equal to, the lowered taxonomy (definition; `ExactMatchIsSubstringMatch` relates the two modes) |
| `Filtering.AnyValueMatches` | calour/filtering.py:268-272 | the accumulated mask entry is true iff some value matches |
| `Filtering.AnyValueMatchesPrefix` | calour/filtering.py:268-272 | one more loop iteration ORs in one more value |
| `Filtering.MarkMatches` | calour/filtering.py:269-272 | each entry becomes its old value OR the match of this value; nothing else changes |
| `Filtering.FilterTaxonomy` | calour/filtering.py:253-278 | None without a taxonomy column; otherwise feature `j` is kept iff some lowered value occurs in (or equals) its lowered `;`-joined taxonomy, flipped with `negate` |
| `Filtering.LevelSelectsFeature` | calour/filtering.py:265-270 | a value equal to one of a feature's levels, ignoring case, selects it by substring |
| `Filtering.ExactMatchIsSubstringMatch` | calour/filtering.py:269-272 | every exact match is a substring match, so `substring=False` keeps a subset |
| `Filtering.InsertSorted` | calour/filtering.py:44 | insertion keeps a sequence strictly increasing and adds exactly the new value |
| `Filtering.ConsSorted` | calour/filtering.py:44 | a smaller head keeps the sequence strictly increasing |
| `Filtering.SortedUnique` | calour/filtering.py:44 | `np.unique` is strictly increasing and has exactly the column's values |
| `Filtering.SortedUniqueEmpty` | calour/filtering.py:44 | `np.unique` is empty iff the column is |
| `Filtering.Counts` | calour/filtering.py:44 | `return_counts`: the multiplicity of each unique value (definition) |
| `Filtering.ArgMin` | calour/filtering.py:45 | the first position of a least count |
| `Filtering.Positions` | calour/filtering.py:50 | `np.where(values == v)[0]` lists positions holding `v`, as many as `v` occurs |
| `Filtering.PositionsComplete` | calour/filtering.py:50 | those positions are increasing and include every position holding `v` |
| `Filtering.ChooseWithReplacement` | calour/filtering.py:54 | `np.random.choice(pool, n)` gives `n` members of the pool |
| `Filtering.DownsampleBlock` | calour/filtering.py:49-54 | the least frequent category keeps all of its positions; any other gets `min_count` positions of its own |
| `Filtering.DownsampleColumn` | calour/filtering.py:44-55 | the concatenation of one valid block per unique value, in increasing order |
| `Filtering.Downsample` | calour/filtering.py:22-55 | an axis other than 0/1 leaves `x` unbound (UnboundLocalError), a missing field is a KeyError, an empty column makes `argmin` raise ValueError; otherwise the blocks above |
| `Filtering.MinCountIsLeast` | calour/filtering.py:45-47 | `min_count` is positive and no category is smaller |
| `Filtering.MinCount` | calour/filtering.py:45-47 | `counts[counts.argmin()]` (definition; `MinCountIsLeast` states that it is positive and least) |
| `Filtering.Flatten` | calour/filtering.py:55 | `np.concatenate` of the index blocks (definition; `FlattenPicked` states its length and counts) |
| `Filtering.MultisetOfConstant` | calour/filtering.py:54 | a block of one category counts only that category |
| `Filtering.FlattenPicked` | calour/filtering.py:55 | concatenating uniform blocks gives `blocks * n` indices, each earlier category exactly `n` times |
| `Filtering.DownsampleBalanced` | calour/filtering.py:44-55 | the result has `len(unique) * min_count` valid indices and picks every category exactly `min_count` times and nothing else |
| `Util.GetFieldVals` | calour/util.py:25-32 | a missing field is a KeyError; `unique=False` gives the column, `unique=True` its values each once |
| `Util.FieldValsUniqueCount` | calour/util.py:30-31 | the unique list has as many entries as there are distinct values, never more than the column |
| `Util.CleanLevel` | calour/util.py:73-76 | a level is dropped iff it is at most 3 characters after stripping; a kept level is non-empty |
| `Util.CleanLevelCut` | calour/util.py:73-76 | a kept level is the stripped level, shortened by exactly its first 3 characters iff characters 1 and 2 are `__` |
| `Util.LevelPiece` | calour/util.py:74-77 | what one level appends to `taxstr`: the cleaned level and the separator, or nothing (definition; `ShortLevelPiece` states the dropped case) |
| `Util.KeptLevels` | calour/util.py:71-77 | `taxstr` after the loop, before `na` (definition; `KeptLevelsAppend`, `NoKeptLevels` and `KeptLevelsEndWithSeparator` state its properties) |
| `Util.TaxString` | calour/util.py:71-79 | the per-feature string is never empty (`na` when nothing is kept) |
| `Util.KeptLevelsAppend` | calour/util.py:72-77 | the string of concatenated level lists is the concatenation of their strings |
| `Util.NoKeptLevels` | calour/util.py:74-79 | the string is empty (then `na`) iff every level is dropped |
| `Util.KeptLevelsEndWithSeparator` | calour/util.py:77 | a non-empty string ends with the separator |
| `Util.ShortLevelPiece` | calour/util.py:74 | a short level contributes nothing |
| `Util.ShortLevelIgnored` | calour/util.py:74-79 | removing a level of at most 3 characters after stripping does not change the result |
| `Util.CleanLevelKeepsExamples` | calour/util.py:73-76 | `' g__Bacteroides '` becomes `Bacteroides` |
| `Util.StripPaddedExample` | calour/util.py:73 | stripping `' g__Bacteroides '` removes the two spaces |
| `Util.CleanLevelUnprefixedExample` | calour/util.py:74-77 | `Bacteria` is kept as it is |
| `Util.CleanLevelDropsExamples` | calour/util.py:73-74 | `k__` and `g__ ` are dropped |
| `Util.AppendLevel` | calour/util.py:73-77 | one pass of the inner loop appends exactly what `LevelPiece` says the level contributes |
| `Util.KeptLevelsStep` | calour/util.py:72-77 | one more level extends `taxstr` by that level's piece |
| `Util.FeatureTaxString` | calour/util.py:71-79 | the inner loop computes the feature's string |
| `Util.TaxStrings` | calour/util.py:69-80 | the list built by the outer loop has one entry per feature (definition; `TaxStringsAt` states each entry) |
| `Util.TaxStringsAt` | calour/util.py:69-80 | entry `j` of the list is `TaxString` of feature `j`'s levels |
| `Util.CleanTaxonomy` | calour/util.py:69-80 | one string per feature, in order |
| `Util.GetTaxonomyString` | calour/util.py:35-84 | no taxonomy column is a ValueError, an empty one an IndexError (positional `[0]` on the feature-id index), a non-list first entry returns the column; otherwise one (optionally cleaned, optionally lower-cased) string per feature |
| `Util.FeatureString` | calour/util.py:66-80 | one feature's string: `TaxString` of its levels with `remove_underscore`, their plain join without (definition) |
| `Util.Cased` | calour/util.py:82-83 | `to_lower` applies `Lower`, otherwise the string is kept (definition) |
| `Text.Strip` | calour/util.py:73 | the stripped string is no longer and starts and ends with non-whitespace |
| `Text.StripSlice` | calour/util.py:73 | `strip` removes only whitespace, only at the ends |
| `Text.Lower` | calour/util.py:82-83 | same length, no upper-case letter, every upper-case letter becomes its lower-case letter, other characters unchanged |
| `Text.SubstringLower` | calour/filtering.py:265-270 | lower-casing both sides keeps a substring a substring |
| `Text.JoinContainsPart` | calour/filtering.py:265 | every part occurs in the join |
| `Text.JoinLength` | calour/util.py:67 | the join is as long as the parts plus one separator between each two |
| `Metadata.AxisTable` | calour/filtering.py:82-87 | axis 0 selects the sample metadata, 1 the feature metadata, anything else nothing |
| `Metadata.Iterated` | calour/util.py:67-72 | a list entry yields its levels, a string its characters |
| `Heatmap.Transitions` | calour/heatmap/heatmap.py:20-39 | starts with `(0, l[0])`; positions increase and carry their values; the last value is the last element |
| `Heatmap.TransitionStarts` | calour/heatmap/heatmap.py:36-39 | a later position is yielded iff its value differs from the previous one |
| `Heatmap.IsStartSnoc` | calour/heatmap/heatmap.py:38 | yielding one more pair adds exactly its position |
| `Heatmap.TransitionIndex` | calour/heatmap/heatmap.py:20-39 | `l[0]` of an empty sequence is an IndexError; otherwise the generator yields exactly the transitions |
| `Heatmap.TransitionsExample` | calour/heatmap/heatmap.py:25-27 | the doctest: `['a','a','b']` gives `[(0,'a'), (2,'b')]` |
| `Heatmap.TransitionValuesAlternate` | calour/heatmap/heatmap.py:37-39 | neighbouring runs have different values |
| `Heatmap.TransitionValueAt` | calour/heatmap/heatmap.py:36-39 | every position of a run holds the run's value |
| `Heatmap.ExpandLength` | calour/heatmap/heatmap.py:20-39 | expanding runs from position 0 to `n` gives `n` values |
| `Heatmap.ExpandTransitions` | calour/heatmap/heatmap.py:20-39 | expanding the transitions gives back the sequence |
| `Heatmap.ExpandStep` | calour/heatmap/heatmap.py:36-39 | one more element extends the expansion by that element |
| `Heatmap.ExpandNewRun` | calour/heatmap/heatmap.py:37-38 | a new run appends its value |
| `Heatmap.ExpandExtend` | calour/heatmap/heatmap.py:37 | extending the last run appends its value |
| `Heatmap.TransitionsCountRuns` | calour/heatmap/heatmap.py:36-39 | one pair plus one per value change |
| `Heatmap.Clipped` | calour/heatmap/heatmap.py:98 | the clipped value is at least the cutoff; a value at or above it is unchanged, a lower one becomes the cutoff |
| `Heatmap.ClipData` | calour/heatmap/heatmap.py:95-98 | every matrix entry becomes its old value clipped |
| `Heatmap.GuiClass` | calour/heatmap/heatmap.py:106-113 | `qt5`, `cli`, `jupyter` resolve; anything else is a ValueError |
| `Heatmap.GuiModuleName` | calour/heatmap/heatmap.py:114 | `calour.heatmap.` followed by the class name with no upper-case letter left |
| `Heatmap.GuiModuleQt5` | calour/heatmap/heatmap.py:106-114 | `qt5` loads `calour.heatmap.plotgui_qt5` |
| `Heatmap.GuiModuleCli` | calour/heatmap/heatmap.py:108-114 | `cli` loads `calour.heatmap.plotgui_cli` |
| `Heatmap.GuiModuleJupyter` | calour/heatmap/heatmap.py:110-114 | `jupyter` loads `calour.heatmap.plotgui_jupyter` |
| `Heatmap.DatabaseClassFor` | calour/heatmap/heatmap.py:122-130 | `dbbact` and `spongeworld` resolve; anything else is a ValueError |
| `Heatmap.LinkDatabases` | calour/heatmap/heatmap.py:122-143 | an unknown name is a ValueError; otherwise one class per name, in order, and the annotation database is the first that can annotate (none if none can) |
| `Heatmap.Boundaries` | calour/heatmap/heatmap.py:171-173 | group starts then the sample count, strictly increasing |
| `Heatmap.XTicks` | calour/heatmap/heatmap.py:174 | one tick per group, exactly halfway between its start and the next start |
| `Heatmap.TicksAndSeparatorsInterleave` | calour/heatmap/heatmap.py:169-174 | one separator fewer than ticks; each lies between the ticks of the groups it separates |
| `Heatmap.Separators` | calour/heatmap/heatmap.py:169-170 | one separator per group start after the first |
| `Heatmap.SeparatorAtChange` | calour/heatmap/heatmap.py:169-170 | every separator lies half a sample before a position whose value differs from the one before |
| `Heatmap.GroupValues` | calour/heatmap/heatmap.py:166-167 | `x_val`: one value per group, the value at the group's start, neighbouring groups different |
| `Heatmap.SliceFrom` | calour/heatmap/heatmap.py:177 | Python's `s[k:]` is a suffix of the stated length, for negative `k` too |
| `Heatmap.Head2` | calour/heatmap/heatmap.py:177 | Python's `s[:2]`: the first two characters, or the whole of a shorter string |
| `Heatmap.ShortenXLabel` | calour/heatmap/heatmap.py:176-177 | a name that fits is unchanged; a longer one starts with its first two characters |
| `Heatmap.ShortenXLabelAgrees` | calour/heatmap/heatmap.py:177 | for `xlabel_maxlen > 5` the corrected rule is the source's |
| `Heatmap.ShortenXLabelAsWritten` | calour/heatmap/heatmap.py:177 | as written: a fitting name is unchanged, a longer one starts with two characters and `..`; above 5 it is `maxlen - 1` long, at 5 or below it is always longer than `maxlen` |
| `Heatmap.ShortenXLabelFits` | calour/heatmap/heatmap.py:176-177 | from `maxlen` 4 on, a shortened name fits; above 5 it is `maxlen - 1` long and keeps the last `maxlen - 5` characters |
| `Heatmap.ShortenXLabelAsWrittenGrows` | calour/heatmap/heatmap.py:177 | as written, `xlabel_maxlen=5` turns `abcdef` into the longer `ab..abcdef` |
| `Heatmap.XLabels` | calour/heatmap/heatmap.py:176-178 | line 177 as written, per group: `None` leaves the labels unchanged; otherwise label `i` is `ShortenXLabelAsWritten` of the original, so a label that fits is kept, with `xlabel_maxlen > 5` a longer one becomes `maxlen - 1` long, with `xlabel_maxlen <= 5` it stays longer than `maxlen` |
| `Heatmap.ShortenYLabel` | calour/heatmap/heatmap.py:185-186 | a feature label longer than 15 characters keeps exactly its last 15, a shorter one is unchanged |
| `Heatmap.YLabels` | calour/heatmap/heatmap.py:181-186 | a missing feature field is a ValueError; otherwise one shortened label per feature |
| `Heatmap.Plot` | calour/heatmap/heatmap.py:95-186 | clips in place when `logit`; errors in source order (gui/database names ValueError, sample field KeyError, empty field IndexError, feature field ValueError); otherwise the gui class and module, linked databases, x axis (ticks, separators, and group labels shortened as line 177 writes it) and y labels |
| `Databases.NewDatabase` | calour/database.py:142-158 | the methods list is kept as the set of its names |
| `Databases.Annotatable` | calour/database.py:160-164 | the `annotatable` flag (definition; `CapabilityFlags` ties it to the constructor's list) |
| `Databases.CanDoEnrichment` | calour/database.py:166-170 | the `can_do_enrichment` flag (definition; `CapabilityFlags` ties it to the constructor's list) |
| `Databases.CapabilityFlags` | calour/database.py:160-170 | `annotatable` iff `annotate` was listed, `can_do_enrichment` iff `enrichment` was |
| `Databases.DefaultCapabilities` | calour/database.py:142 | the default methods enable both capabilities |
| `Databases.MethodsAsSet` | calour/database.py:157 | order and duplicates in the methods list make no difference |
| `Databases.ConfigValue` | calour/util.py:189-224 | a missing section or key gives the fallback None, otherwise the stored value |
| `Databases.LookupResult` | calour/database.py:35-56 | every failed lookup surfaces as ValueError |
| `Databases.ListedSection` | calour/database.py:48-52 | whether a section is offered: `class_name` read twice, as line 50 does (definition) |
| `Databases.ListedDatabases` | calour/database.py:45-52 | the offered sections: no more than the sections, each of them a section that is offered |
| `Databases.ListedDatabasesMembers` | calour/database.py:45-52 | a section is offered iff it has `class_name`; `module_name` is not checked |
| `Databases.ListDatabases` | calour/database.py:45-52 | the loop collects the offered sections in order |
| `Databases.GetDatabaseClass` | calour/database.py:11-56 | with both keys, the class, or a ValueError if the module cannot be imported; otherwise no offered section, or the non-empty offered list (never found, never an import failure); so an unknown name always ends in ValueError |
| `Databases.EnrichmentDatabase` | calour/database.py:135-138 | succeeds iff the lookup does and the database can do enrichment; every failure is a ValueError |
| `Databases.CountedMembers` | calour/database.py:90-95 | a term is counted iff it is a term of the feature and, with a term list, on it |
| `Databases.CountedAll` | calour/database.py:94-95 | without a term list every term is counted |
| `Databases.IsCounted` | calour/database.py:90-95 | a term is counted when there is no term list or it is on the list (definition) |
| `Databases.Counted` | calour/database.py:90-95 | the terms the loop counts, in order (definition; `CountedMembers` states membership) |
| `Databases.IsMostCommon` | calour/database.py:99 | specification of `max(..., key=get)` on counts: in the list, no term more frequent, ties to the earliest (definition) |
| `Databases.IsFeatureTerm` | calour/database.py:86-99 | specification of the term a feature gets: `NA`, `other`, or the most common counted term (definition) |
| `Databases.MostCommonUnique` | calour/database.py:99 | the most common term with first-seen tie-breaking is unique |
| `Databases.FirstIsMostCommon` | calour/database.py:99 | the first term wins when no term is more frequent |
| `Databases.FeatureTermUnique` | calour/database.py:86-99 | each feature has exactly one admissible term |
| `Databases.FeatureTermListed` | calour/database.py:90-97 | a chosen term is one of the feature's counted terms; with none counted it is `other` |
| `Databases.MostCountedExample` | calour/database.py:90-99 | `x, y, y` gives `y` |
| `Databases.TieExample` | calour/database.py:99 | a tie between `b` and `a` goes to `b`, seen first |
| `Databases.UnlistedExample` | calour/database.py:90-97 | terms not on the term list give `other` |
| `Databases.CountOne` | calour/database.py:93-95 | one `defaultdict` increment counts one more term, adding a new key at the end |
| `Databases.CountTerms` | calour/database.py:86-95 | the keys are the counted terms in first-seen order, each with its multiplicity |
| `Databases.MaxCount` | calour/database.py:99 | `max` with `key=get` returns the first key with the largest count |
| `Databases.MaxCountIsMostCommon` | calour/database.py:86-99 | that key is the most common counted term, ties going to the earliest |
| `Databases.MostCommonTerm` | calour/database.py:86-99 | `NA` without terms, `other` with none counted, else the most common counted term |
| `Databases.FeatureTerms` | calour/database.py:84-100 | a feature missing from the term lists is a KeyError; otherwise one admissible term per feature, in order |
| `Databases.AddTermsToFeatures` | calour/database.py:59-102 | writes that list to the field column in place, leaving the other columns; on KeyError nothing changes |

## Left out

- The statistical testing procedures (`calour/dsfdr.py`) and the classifier helpers are outside this model.
- Sparse-to-dense conversion in `filter_by_data`: the model works on dense rows.
- `FilterByData`: models the sparse-storage loop only. The dense path (`np.apply_along_axis`) accepts other axis values in other ways and is not modelled.
- `np.random.choice` in `downsample`: the generator is not modelled. `ChooseWithReplacement` may return any members of the pool, so `Downsample` states what holds for every draw.
- `Experiment.reorder`, `inplace` and the experiment container: the filters return the selection mask or the index list.
- `GetFieldVals`: `list(set(vals))` has no defined order. The model lists values in first-occurrence order, and the contract states only what holds for any order.
- `Text.Strip` and `Text.Lower`: only ASCII whitespace and ASCII letters are modelled, not Unicode whitespace or case mapping.
- Floating point: values, cutoffs, ratios and tick positions are exact reals. Float rounding, nan values and overflow are not modelled. `log2` after clipping is not modelled.
- `plot` drawing, the colour map, zooming, the figure and the gui event loop: outside the core. `importlib` imports and class instantiation become names and parameters: `canAnnotate` for `can_annotate()`, `instantiate` for calling a database class, `installed` for importable modules.
- `_get_database_class`: configparser's `DEFAULT` section inheritance, reading the config file, and the `get_config_sections` helper (imported at `calour/database.py:6`; its source is outside this model) are not modelled. The sections are a parameter. A missing class in an importable module (`getattr` failure) is not modelled.
- `add_terms_to_features`: the term lists from `get_feature_terms` are an input map, and the database lookup before it is not repeated.
- The `Database` stub methods that only log or raise, `get_file_md5`, `get_data_md5`, `set_config_value`, `get_config_file` and `get_fields`: file and hash I/O, or trivial accessors.
- `Heatmap.XLabels`: labels are strings. `str(clabel)` of non-string values is not modelled.
- `Downsample`: category values are integers (`Table<int>`), ordered numerically. The source accepts any metadata values, and `np.unique` orders strings lexicographically; other value types are not modelled.
- `FilterByData`, `FilterByMetadata` and `Apply`: a user-supplied callable predicate or pick is a total Dafny function. A callable that raises, or returns a mask of the wrong length, is not modelled, so `Apply` can fail only through `_unique_cut` or `_freq_ratio`.
- `Util.GetTaxonomyString`: `[0]` is modelled as the positional lookup pandas makes on the string feature-id index. A column with an integer index, where `[0]` is a label lookup, is not modelled.

## Findings

| source | as written | input that shows it | evidently intended | confidence | as-written member | corrected member |
|---|---|---|---|---|---|---|
| calour/heatmap/heatmap.py:177 | `clabel[:2] + '..' + clabel[5-xlabel_maxlen:]` for labels longer than `xlabel_maxlen` | `xlabel_maxlen=5` and label `abcdef`: `clabel[0:]` is the whole label, giving `ab..abcdef` (10 characters, longer than the original). Any `maxlen < 5` likewise keeps a suffix longer than intended. | labels longer than `maxlen` are shortened: keep 2 characters, `..`, and the last `maxlen - 5` characters (none for `maxlen <= 5`); the result then fits for every `maxlen >= 4` (below 4, `..` and two characters cannot fit) | not executed | `Heatmap.ShortenXLabelAsWritten`, `Heatmap.ShortenXLabelAsWrittenGrows` | `Heatmap.ShortenXLabel`, `Heatmap.ShortenXLabelFits` |
