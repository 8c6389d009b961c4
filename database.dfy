/** The database layer of `calour/database.py`: the capability flags of a database
    interface, the lookup of a database class in the config file, the enrichment
    capability check and the most-common-term annotation of features. */
module Databases {
  import opened Results
  import opened Seqs

  // ---------------------------------------------------------------------------
  // Database capabilities

  /** A database interface: its name and the set of methods it supports
      (`'get'`, `'annotate'`, `'enrichment'`). */
  datatype Database = Database(name: Option<string>, methods: set<string>)

  /** The `methods` a database interface supports when it does not say otherwise. */
  const DefaultMethods: seq<string> := ["get", "annotate", "enrichment"]

  /** `Database.__init__`: the methods list is kept as a set. */
  function NewDatabase(name: Option<string>, methods: seq<string>): (db: Database)
    ensures db.name == name
    ensures forall m :: m in db.methods <==> m in methods
  {
    Database(name, Elements(methods))
  }

  /** `annotatable`: the interface supports adding annotations. */
  predicate Annotatable(db: Database) {
    "annotate" in db.methods
  }

  /** `can_do_enrichment`: the interface supports per-feature terms and enrichment. */
  predicate CanDoEnrichment(db: Database) {
    "enrichment" in db.methods
  }

  /** Each flag holds exactly when its method name was listed at construction. */
  lemma CapabilityFlags(name: Option<string>, methods: seq<string>)
    ensures Annotatable(NewDatabase(name, methods)) <==> "annotate" in methods
    ensures CanDoEnrichment(NewDatabase(name, methods)) <==> "enrichment" in methods
  {
  }

  /** The default methods enable both capabilities. */
  lemma DefaultCapabilities(name: Option<string>)
    ensures Annotatable(NewDatabase(name, DefaultMethods))
    ensures CanDoEnrichment(NewDatabase(name, DefaultMethods))
  {
    assert DefaultMethods[1] == "annotate" && DefaultMethods[2] == "enrichment";
  }

  /** Order and repetition in the methods list make no difference. */
  lemma MethodsAsSet(name: Option<string>, m1: seq<string>, m2: seq<string>)
    requires forall m :: m in m1 <==> m in m2
    ensures NewDatabase(name, m1) == NewDatabase(name, m2)
  {
    assert Elements(m1) == Elements(m2);
  }

  // ---------------------------------------------------------------------------
  // _get_database_class

  /** The contents of a config file: section name to key to value. */
  type Config = map<string, map<string, string>>

  /** `get_config_value(key, section=section)` with the default fallback `None`:
      a missing section or key gives `None`. */
  function ConfigValue(config: Config, key: string, section: string): (r: Option<string>)
    ensures r.Some? <==> section in config && key in config[section]
    ensures r.Some? ==> r.value == config[section][key]
  {
    if section !in config then None
    else if key !in config[section] then None
    else Some(config[section][key])
  }

  /** The class of a database interface: the module to import and the class in it. */
  datatype DbClass = DbClass(moduleName: string, className: string)

  /** How a lookup ends: the class to instantiate, or one of the three ValueErrors
      (module not importable, no database sections at all, or an unknown name together
      with the list of sections the error message offers). */
  datatype Lookup =
    | Found(cls: DbClass)
    | NotInstalled(moduleName: string)
    | NoDatabaseSections
    | NotFound(databases: seq<string>)

  /** The lookup as Python reports it: every failure is a ValueError. */
  function LookupResult(l: Lookup): (r: Result<DbClass>)
    ensures r.Ok? <==> l.Found?
    ensures r.Ok? ==> r.value == l.cls
    ensures r.Err? ==> r.error == ValueError
  {
    if l.Found? then Ok(l.cls) else Err(ValueError)
  }

  /** Whether a section is offered in the error message. The source reads the key
      `class_name` twice (once as the module name), so `module_name` is never checked. */
  predicate ListedSection(config: Config, section: string) {
    var className := ConfigValue(config, "class_name", section);
    var moduleName := ConfigValue(config, "class_name", section);
    className.Some? && moduleName.Some?
  }

  /** The sections offered in the error message, in config order. */
  function ListedDatabases(config: Config, sections: seq<string>): (r: seq<string>)
    ensures |r| <= |sections|
    ensures forall k | 0 <= k < |r| :: r[k] in sections && ListedSection(config, r[k])
  {
    if sections == [] then []
    else
      var init, s := sections[..|sections| - 1], sections[|sections| - 1];
      ListedDatabases(config, init) + (if ListedSection(config, s) then [s] else [])
  }

  /** A section is offered exactly when it is in the list and has a `class_name`;
      whether it has a `module_name` does not matter. */
  lemma {:induction false} ListedDatabasesMembers(config: Config, sections: seq<string>, s: string)
    ensures s in ListedDatabases(config, sections)
        <==> s in sections && s in config && "class_name" in config[s]
  {
    if sections != [] {
      var init := sections[..|sections| - 1];
      ListedDatabasesMembers(config, init, s);
      assert sections == init + [sections[|sections| - 1]];
    }
  }

  /** The loop over the config sections that collects the offered database names. */
  method ListDatabases(config: Config, sections: seq<string>) returns (databases: seq<string>)
    ensures databases == ListedDatabases(config, sections)
  {
    databases := [];
    for i := 0 to |sections|
      invariant databases == ListedDatabases(config, sections[..i])
    {
      var csection := sections[i];
      var className := ConfigValue(config, "class_name", csection);
      var moduleName := ConfigValue(config, "class_name", csection);
      if className.Some? && moduleName.Some? {
        databases := databases + [csection];
      }
      assert sections[..i + 1][..i] == sections[..i];
    }
    assert sections[..|sections|] == sections;
  }

  /** `_get_database_class`. `config` is the config file the values are read from,
      `sections` the section names of the default config file, and `installed` the
      modules that can be imported. */
  method GetDatabaseClass(config: Config, sections: seq<string>, installed: set<string>, dbname: string)
    returns (r: Lookup)
    ensures (dbname in config && "class_name" in config[dbname] && "module_name" in config[dbname]) ==>
      var cls := DbClass(config[dbname]["module_name"], config[dbname]["class_name"]);
      r == if cls.moduleName in installed then Found(cls) else NotInstalled(cls.moduleName)
    ensures !(dbname in config && "class_name" in config[dbname] && "module_name" in config[dbname]) ==>
      && (r.NoDatabaseSections? || r.NotFound?)
      && (r.NoDatabaseSections? <==>
            forall s | s in sections :: s !in config || "class_name" !in config[s])
      && (r.NotFound? ==> r.databases == ListedDatabases(config, sections) && r.databases != [])
    ensures r.Found? ==> r.cls.moduleName in installed
  {
    var className := ConfigValue(config, "class_name", dbname);
    var moduleName := ConfigValue(config, "module_name", dbname);
    if className.Some? && moduleName.Some? {
      if moduleName.value !in installed {
        return NotInstalled(moduleName.value);
      }
      return Found(DbClass(moduleName.value, className.value));
    }
    var databases := ListDatabases(config, sections);
    if |databases| == 0 {
      forall s | s in sections
        ensures s !in config || "class_name" !in config[s]
      {
        ListedDatabasesMembers(config, sections, s);
      }
      return NoDatabaseSections;
    }
    ListedDatabasesMembers(config, sections, databases[0]);
    r := NotFound(databases);
  }

  // ---------------------------------------------------------------------------
  // enrichment

  /** The capability check of `enrichment`: the lookup must succeed and the
      instantiated interface must support enrichment, otherwise a ValueError.
      `instantiate` stands for calling the found class. */
  function EnrichmentDatabase(l: Lookup, instantiate: DbClass -> Database): (r: Result<Database>)
    ensures r.Ok? <==> l.Found? && CanDoEnrichment(instantiate(l.cls))
    ensures r.Ok? ==> r.value == instantiate(l.cls)
    ensures r.Err? ==> r.error == ValueError
  {
    var cls :- LookupResult(l);
    var db := instantiate(cls);
    if !CanDoEnrichment(db) then Err(ValueError) else Ok(db)
  }

  // ---------------------------------------------------------------------------
  // add_terms_to_features

  /** Whether a term is counted: every term when there is no `use_term_list`,
      otherwise only the listed ones. */
  predicate IsCounted(useTermList: Option<seq<string>>, t: string) {
    useTermList.None? || t in useTermList.value
  }

  /** The terms of one feature that are counted, in their original order. */
  function Counted(terms: seq<string>, useTermList: Option<seq<string>>): seq<string> {
    if terms == [] then []
    else
      var init, t := terms[..|terms| - 1], terms[|terms| - 1];
      Counted(init, useTermList) + (if IsCounted(useTermList, t) then [t] else [])
  }

  lemma {:induction false} CountedMembers(terms: seq<string>, useTermList: Option<seq<string>>, t: string)
    ensures t in Counted(terms, useTermList) <==> t in terms && IsCounted(useTermList, t)
  {
    if terms != [] {
      var init := terms[..|terms| - 1];
      CountedMembers(init, useTermList, t);
      assert terms == init + [terms[|terms| - 1]];
    }
  }

  /** Without a term list every term is counted. */
  lemma {:induction false} CountedAll(terms: seq<string>)
    ensures Counted(terms, None) == terms
  {
    if terms != [] {
      CountedAll(terms[..|terms| - 1]);
      assert terms == terms[..|terms| - 1] + [terms[|terms| - 1]];
    }
  }

  /** `r` is a most common term of `c`: it occurs there, no term occurs more often, and
      among the terms that occur as often it is the one that appears first. */
  predicate IsMostCommon(c: seq<string>, r: string) {
    && r in c
    && (forall t | t in c :: multiset(c)[t] <= multiset(c)[r])
    && (forall t | t in c && multiset(c)[t] == multiset(c)[r] :: FirstIndex(c, r) <= FirstIndex(c, t))
  }

  /** The most common term is unique, so the tie rule decides every case. */
  lemma MostCommonUnique(c: seq<string>, a: string, b: string)
    requires IsMostCommon(c, a) && IsMostCommon(c, b)
    ensures a == b
  {
    assert multiset(c)[a] == multiset(c)[b];
    assert FirstIndex(c, a) == FirstIndex(c, b);
  }

  /** The term `add_terms_to_features` assigns to a feature with these terms:
      `NA` without terms, `other` when none is counted, else the most common counted term. */
  predicate IsFeatureTerm(terms: seq<string>, useTermList: Option<seq<string>>, t: string) {
    if |terms| == 0 then t == "NA"
    else if Counted(terms, useTermList) == [] then t == "other"
    else IsMostCommon(Counted(terms, useTermList), t)
  }

  /** One feature has exactly one term. */
  lemma FeatureTermUnique(terms: seq<string>, useTermList: Option<seq<string>>, a: string, b: string)
    requires IsFeatureTerm(terms, useTermList, a) && IsFeatureTerm(terms, useTermList, b)
    ensures a == b
  {
    if |terms| > 0 && Counted(terms, useTermList) != [] {
      MostCommonUnique(Counted(terms, useTermList), a, b);
    }
  }

  /** With a term list, a chosen term other than `NA` and `other` is one of the feature's
      terms and is on the list; when none of the feature's terms is on it, the term is `other`. */
  lemma FeatureTermListed(terms: seq<string>, useTermList: Option<seq<string>>, t: string)
    requires IsFeatureTerm(terms, useTermList, t)
    ensures |terms| > 0 && (forall u | u in terms :: !IsCounted(useTermList, u)) ==> t == "other"
    ensures |terms| > 0 && Counted(terms, useTermList) != [] ==> t in terms && IsCounted(useTermList, t)
  {
    if |terms| > 0 {
      if Counted(terms, useTermList) != [] {
        CountedMembers(terms, useTermList, t);
        var u := Counted(terms, useTermList)[0];
        CountedMembers(terms, useTermList, u);
      }
    }
  }

  /** A term counted twice beats one counted once. */
  lemma MostCountedExample()
    ensures IsFeatureTerm(["x", "y", "y"], None, "y")
  {
    var d := ["x", "y", "y"];
    CountedAll(d);
    assert multiset(d)["y"] == 2 && multiset(d)["x"] == 1 by {
      assert d == ["x"] + ["y", "y"];
    }
    assert forall t | t in d :: t == "x" || t == "y";
  }

  /** Between two terms counted equally often, the one that appears first wins. */
  lemma TieExample()
    ensures IsFeatureTerm(["b", "a"], None, "b")
  {
    var c := ["b", "a"];
    CountedAll(c);
    assert multiset(c)["b"] == 1 && multiset(c)["a"] == 1 by {
      assert c == ["b"] + ["a"];
    }
    assert forall t | t in c :: t == "a" || t == "b";
    FirstIsMostCommon(c);
  }

  /** The first term is the most common one when no term occurs more often. */
  lemma FirstIsMostCommon(c: seq<string>)
    requires |c| > 0
    requires forall t | t in c :: multiset(c)[t] <= multiset(c)[c[0]]
    ensures IsMostCommon(c, c[0])
  {
  }

  /** A term list that lists none of the feature's terms gives `other`. */
  lemma UnlistedExample()
    ensures IsFeatureTerm(["b", "a"], Some(["c"]), "other")
  {
    var e := ["b", "a"];
    assert Counted(e, Some(["c"])) == [] by {
      assert e[..1] == ["b"];
    }
  }

  /** The keys of `term_count` in insertion order and their counts, for the counted
      terms `c`. */
  ghost predicate IsTermCount(c: seq<string>, keys: seq<string>, counts: map<string, nat>) {
    && keys == Distinct(c)
    && (forall t :: t in counts <==> t in keys)
    && (forall t | t in counts :: counts[t] == multiset(c)[t])
  }

  /** `term_count[cterm] += 1` on a `defaultdict(int)`. */
  method CountOne(keys: seq<string>, counts: map<string, nat>, cterm: string, ghost c: seq<string>)
    returns (keys': seq<string>, counts': map<string, nat>)
    requires IsTermCount(c, keys, counts)
    ensures IsTermCount(c + [cterm], keys', counts')
  {
    assert multiset(c + [cterm]) == multiset(c) + multiset{cterm};
    DistinctSnoc(c, cterm);
    if cterm in counts {
      keys', counts' := keys, counts[cterm := counts[cterm] + 1];
    } else {
      keys', counts' := keys + [cterm], counts[cterm := 1];
    }
  }

  /** The counting loop over the terms of one feature. */
  method CountTerms(terms: seq<string>, useTermList: Option<seq<string>>)
    returns (keys: seq<string>, counts: map<string, nat>)
    ensures IsTermCount(Counted(terms, useTermList), keys, counts)
  {
    keys, counts := [], map[];
    for i := 0 to |terms|
      invariant IsTermCount(Counted(terms[..i], useTermList), keys, counts)
    {
      var cterm := terms[i];
      ghost var before := Counted(terms[..i], useTermList);
      assert Counted(terms[..i + 1], useTermList)
          == before + (if IsCounted(useTermList, cterm) then [cterm] else []) by {
        assert terms[..i + 1][..i] == terms[..i];
      }
      if useTermList.None? || cterm in useTermList.value {
        keys, counts := CountOne(keys, counts, cterm, before);
      } else {
        assert before + [] == before;
      }
    }
    assert terms[..|terms|] == terms;
  }

  /** `max(term_count, key=term_count.get)`: the position of the first key whose count
      is maximal. */
  method MaxCount(keys: seq<string>, counts: map<string, nat>) returns (k: nat)
    requires |keys| > 0
    requires forall t | t in keys :: t in counts
    ensures k < |keys|
    ensures forall j | 0 <= j < |keys| :: counts[keys[j]] <= counts[keys[k]]
    ensures forall j | 0 <= j < k :: counts[keys[j]] < counts[keys[k]]
  {
    k := 0;
    for i := 1 to |keys|
      invariant k < i
      invariant forall j | 0 <= j < i :: counts[keys[j]] <= counts[keys[k]]
      invariant forall j | 0 <= j < k :: counts[keys[j]] < counts[keys[k]]
    {
      if counts[keys[i]] > counts[keys[k]] {
        k := i;
      }
    }
  }

  /** The first maximal key in first-occurrence order is the most common term. */
  lemma MaxCountIsMostCommon(c: seq<string>, keys: seq<string>, counts: map<string, nat>, k: nat)
    requires IsTermCount(c, keys, counts)
    requires k < |keys|
    requires forall j | 0 <= j < |keys| :: counts[keys[j]] <= counts[keys[k]]
    requires forall j | 0 <= j < k :: counts[keys[j]] < counts[keys[k]]
    ensures IsMostCommon(c, keys[k])
  {
    var r := keys[k];
    forall t | t in c
      ensures multiset(c)[t] <= multiset(c)[r]
    {
      var j := FirstIndex(keys, t);
    }
    forall t | t in c && multiset(c)[t] == multiset(c)[r]
      ensures FirstIndex(c, r) <= FirstIndex(c, t)
    {
      var j := FirstIndex(keys, t);
      if j > k {
        DistinctFirstOccurrenceOrder(c, k, j);
      }
    }
  }

  /** The body of the features loop for one feature. */
  method MostCommonTerm(terms: seq<string>, useTermList: Option<seq<string>>) returns (t: string)
    ensures IsFeatureTerm(terms, useTermList, t)
  {
    if |terms| == 0 {
      return "NA";
    }
    var keys, counts := CountTerms(terms, useTermList);
    if |keys| == 0 {
      t := "other";
    } else {
      var k := MaxCount(keys, counts);
      MaxCountIsMostCommon(Counted(terms, useTermList), keys, counts, k);
      t := keys[k];
    }
  }

  /** The features loop of `add_terms_to_features`. `termList` stands for the terms
      the database returns per feature; a feature missing from it is a KeyError. */
  method FeatureTerms(features: seq<string>, termList: map<string, seq<string>>, useTermList: Option<seq<string>>)
    returns (r: Result<seq<string>>)
    ensures r.Err? <==> exists j | 0 <= j < |features| :: features[j] !in termList
    ensures r.Err? ==> r.error == KeyError
    ensures r.Ok? ==>
      && |r.value| == |features|
      && forall j | 0 <= j < |features| ::
           features[j] in termList && IsFeatureTerm(termList[features[j]], useTermList, r.value[j])
  {
    var featureTerms := [];
    for j := 0 to |features|
      invariant |featureTerms| == j
      invariant forall i | 0 <= i < j ::
        features[i] in termList && IsFeatureTerm(termList[features[i]], useTermList, featureTerms[i])
    {
      var cfeature := features[j];
      if cfeature !in termList {
        return Err(KeyError);
      }
      var t := MostCommonTerm(termList[cfeature], useTermList);
      featureTerms := featureTerms + [t];
    }
    r := Ok(featureTerms);
  }

  /** The feature metadata of an experiment: its index (the feature ids) and its
      string columns, which `add_terms_to_features` extends in place. */
  class FeatureMetadata {
    const index: seq<string>
    var columns: map<string, seq<string>>

    constructor(index: seq<string>, columns: map<string, seq<string>>)
      ensures this.index == index && this.columns == columns
    {
      this.index := index;
      this.columns := columns;
    }
  }

  /** `add_terms_to_features`: writes one term per feature, in index order, to the
      column `fieldName`; the other columns stay as they were. On a KeyError nothing
      is written. */
  method AddTermsToFeatures(md: FeatureMetadata, termList: map<string, seq<string>>,
                            useTermList: Option<seq<string>>, fieldName: string)
    returns (r: Result<()>)
    modifies md
    ensures r.Err? <==> exists j | 0 <= j < |md.index| :: md.index[j] !in termList
    ensures r.Err? ==> r.error == KeyError && md.columns == old(md.columns)
    ensures r.Ok? ==>
      && md.columns.Keys == old(md.columns).Keys + {fieldName}
      && (forall k | k in old(md.columns) && k != fieldName :: md.columns[k] == old(md.columns)[k])
      && |md.columns[fieldName]| == |md.index|
      && forall j | 0 <= j < |md.index| ::
           IsFeatureTerm(termList[md.index[j]], useTermList, md.columns[fieldName][j])
  {
    var featureTerms := FeatureTerms(md.index, termList, useTermList);
    if featureTerms.Err? {
      return Err(featureTerms.error);
    }
    md.columns := md.columns[fieldName := featureTerms.value];
    r := Ok(());
  }
}
