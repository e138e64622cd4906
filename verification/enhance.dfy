/** Enhancing an existing recipe database in place: planning which AI
    properties to add to its schema, summarizing the saved analysis, turning
    the new properties into schema payloads, and building each record's
    property update from its analysis entry.

    The Notion calls are parameters: the domain the URL-parsing step finds
    for a page, and whether a page update is accepted. */
module Enhance {
  import opened Wrappers
  import opened PyStr
  import opened Records
  import Tally
  import Analyzer
  import ConfigLoader
  import Values

  // ---------------------------------------------------------------------------
  // The enhancement plan

  /** A property type as named in a property configuration. */
  datatype PropType = Select | MultiSelect | Number | RichText | Date | OtherType(name: string)

  /** A property configuration: its type, its description and, for selects,
      its options. */
  datatype PropConfig = PropConfig(kind: PropType, description: string, options: Option<seq<string>>)

  type Property = (string, PropConfig)

  /** The option lists read from the four vocabulary files. */
  datatype SchemaConfig = SchemaConfig(
    categories: seq<string>,
    cuisines: seq<string>,
    dietaryTags: seq<string>,
    usageTags: seq<string>)

  /** `_load_enhanced_schema_config` over the four loaded files. A file
      that cannot be read loads as `{}`; an empty file loads as `None`
      (`yaml.safe_load` of nothing, with no `or {}` here), and the `.get`
      on it raises, which nothing catches before the command stops. */
  function SchemaOf(categories: Option<ConfigLoader.Document>, cuisines: Option<ConfigLoader.Document>,
                    dietary: Option<ConfigLoader.Document>, usage: Option<ConfigLoader.Document>): (s: Result<SchemaConfig>)
    ensures s.Failure? <==> categories.None? || cuisines.None? || dietary.None? || usage.None?
    ensures s.Failure? ==> s.error == Values.NoAttributeGet(Values.JNull)
    ensures s.Success? ==> s.value.categories == ConfigLoader.SectionNames(categories.value, "categories")
    ensures s.Success? ==> s.value.cuisines == ConfigLoader.SectionNames(cuisines.value, "cuisines")
    ensures s.Success? ==> s.value.dietaryTags == ConfigLoader.SectionNames(dietary.value, "dietary_tags")
    ensures s.Success? ==> s.value.usageTags == ConfigLoader.SectionNames(usage.value, "usage_tags")
  {
    if categories.None? || cuisines.None? || dietary.None? || usage.None? then
      Failure(Values.NoAttributeGet(Values.JNull))
    else
      Success(SchemaConfig(
        ConfigLoader.SectionNames(categories.value, "categories"),
        ConfigLoader.SectionNames(cuisines.value, "cuisines"),
        ConfigLoader.SectionNames(dietary.value, "dietary_tags"),
        ConfigLoader.SectionNames(usage.value, "usage_tags")))
  }

  /** The six properties the enhancement adds. */
  datatype Field = PrimaryCategory | CuisineType | DietaryTags | UsageTags | SourceDomain | ProposedTitle {
    function Name(): string {
      match this
      case PrimaryCategory => "Primary_Category"
      case CuisineType => "Cuisine_Type"
      case DietaryTags => "Dietary_Tags"
      case UsageTags => "Usage_Tags"
      case SourceDomain => "Source_Domain"
      case ProposedTitle => "Proposed_Title"
    }
  }

  /** The six properties the enhancement adds, in order. */
  function EnhancedProperties(s: SchemaConfig): (ps: seq<Property>)
    ensures |ps| == 6
    ensures forall i, j :: 0 <= i < j < |ps| ==> ps[i].0 != ps[j].0
  {
    [(PrimaryCategory.Name(), PropConfig(Select, "Primary recipe category", Some(s.categories))),
     (CuisineType.Name(), PropConfig(Select, "Culinary tradition classification", Some(s.cuisines))),
     (DietaryTags.Name(), PropConfig(MultiSelect, "Dietary restriction and lifestyle tags", Some(s.dietaryTags))),
     (UsageTags.Name(), PropConfig(MultiSelect, "Personal usage patterns and preferences", Some(s.usageTags))),
     (SourceDomain.Name(), PropConfig(RichText, "Website domain where recipe was found", None)),
     (ProposedTitle.Name(), PropConfig(RichText, "Suggested title improvements for manual review", None))]
  }

  /** The enhanced properties whose names the schema lacks, in order. */
  function ToAdd(enhanced: seq<Property>, existing: set<string>): (r: seq<Property>)
    ensures |r| <= |enhanced|
    ensures forall p :: p in r <==> p in enhanced && p.0 !in existing
    decreases |enhanced|
  {
    if enhanced == [] then []
    else
      var init := enhanced[..|enhanced| - 1];
      var p := enhanced[|enhanced| - 1];
      assert enhanced == init + [p];
      ToAdd(init, existing) + (if p.0 !in existing then [p] else [])
  }

  /** The statistics over the saved categorizations. */
  datatype Stats = Stats(
    totalAnalyzed: nat,
    willEnhance: nat,
    withCategories: nat,
    withQuality: nat,
    categoryDistribution: Tally.Tally<string>,
    qualityDistribution: Tally.Tally<string>)

  datatype Plan = Plan(
    existing: set<string>,
    enhanced: seq<Property>,
    toAdd: seq<Property>,
    totalAfter: int,
    recordsToEnhance: nat,
    stats: Option<Stats>,
    hasAnalysisData: bool)

  /** `_create_enhancement_plan`, once `SchemaOf` has succeeded: the
      schema's property names, the saved analysis (`None` when not loaded)
      and the number of records. The statistics are `{}` (`None` here)
      unless the analysis is a non-empty document. */
  method CreatePlan(existing: set<string>, schema: SchemaConfig, analysis: Option<AnalysisDoc>, recordCount: nat)
    returns (p: Plan)
    ensures p.existing == existing && p.enhanced == EnhancedProperties(schema)
    ensures forall q :: q in p.toAdd <==> q in p.enhanced && q.0 !in existing
    ensures p.totalAfter == |existing| + |p.toAdd|
    ensures p.recordsToEnhance == recordCount
    ensures p.hasAnalysisData <==> analysis.Some?
    ensures p.stats.Some? <==> analysis.Some? && analysis.value.Truthy()
    ensures p.stats.Some? ==> StatsSpec(p.stats.value, analysis.value.Categorizations(), recordCount)
  {
    var enhanced := EnhancedProperties(schema);
    var toAdd := ToAdd(enhanced, existing);
    var stats: Option<Stats> := None;
    if analysis.Some? && analysis.value.Truthy() {
      var st := CalculateStats(analysis.value.Categorizations(), recordCount);
      stats := Some(st);
    }
    p := Plan(existing, enhanced, toAdd, |existing| + |toAdd|, recordCount, stats, analysis.Some?);
  }

  /** The names a sequence of properties carries. */
  function NameSet(ps: seq<Property>): set<string> {
    set p | p in ps :: p.0
  }

  /** After adding, the schema holds exactly `total_properties_after`
      properties: the existing ones and the new names, none counted twice. */
  lemma TotalAfterCounts(p: Plan)
    requires p.toAdd == ToAdd(p.enhanced, p.existing)
    requires forall i, j :: 0 <= i < j < |p.enhanced| ==> p.enhanced[i].0 != p.enhanced[j].0
    requires p.totalAfter == |p.existing| + |p.toAdd|
    ensures p.totalAfter == |p.existing + NameSet(p.enhanced)|
  {
    var added := NameSet(p.toAdd);
    assert p.existing + NameSet(p.enhanced) == p.existing + added;
    assert p.existing !! added;
    DistinctNames(p.enhanced, p.existing);
  }

  /** Names of a filtered list of distinct names are as many as its entries. */
  lemma {:induction false} DistinctNames(enhanced: seq<Property>, existing: set<string>)
    requires forall i, j :: 0 <= i < j < |enhanced| ==> enhanced[i].0 != enhanced[j].0
    ensures |NameSet(ToAdd(enhanced, existing))| == |ToAdd(enhanced, existing)|
    decreases |enhanced|
  {
    if enhanced != [] {
      var init := enhanced[..|enhanced| - 1];
      var p := enhanced[|enhanced| - 1];
      assert forall i :: 0 <= i < |init| ==> init[i] == enhanced[i];
      DistinctNames(init, existing);
      var before := ToAdd(init, existing);
      if p.0 !in existing {
        assert ToAdd(enhanced, existing) == before + [p];
        NameNotBefore(enhanced, existing);
        assert NameSet(before + [p]) == NameSet(before) + {p.0};
      } else {
        assert ToAdd(enhanced, existing) == before;
      }
    }
  }

  /** The last property's name is not among the names kept before it. */
  lemma NameNotBefore(enhanced: seq<Property>, existing: set<string>)
    requires enhanced != []
    requires forall i, j :: 0 <= i < j < |enhanced| ==> enhanced[i].0 != enhanced[j].0
    ensures enhanced[|enhanced| - 1].0 !in NameSet(ToAdd(enhanced[..|enhanced| - 1], existing))
  {
    var init := enhanced[..|enhanced| - 1];
    var n := enhanced[|enhanced| - 1].0;
    forall q | q in ToAdd(init, existing)
      ensures q.0 != n
    {
      var i :| 0 <= i < |init| && init[i] == q;
      assert enhanced[i] == q;
    }
  }

  // ---------------------------------------------------------------------------
  // Analysis statistics

  /** The keys counted in `quality_distribution`: "Score q" for each
      non-zero quality score. */
  function QualityKeys(cats: seq<Categorization>): (ks: seq<string>)
    ensures |ks| <= |cats|
    decreases |cats|
  {
    if cats == [] then []
    else
      var c := cats[|cats| - 1];
      QualityKeys(cats[..|cats| - 1]) + (if QualityCounted(c) then [ScoreKey(c.qualityScore.value)] else [])
  }

  /** `recipe.get("quality_score")` is truthy. */
  predicate QualityCounted(c: Categorization) {
    c.qualityScore.Some? && c.qualityScore.value != 0
  }

  function ScoreKey(q: int): string {
    "Score " + IntToString(q)
  }

  /** What `_calculate_analysis_stats` reports for the categorizations and
      the record count: totals over all categorizations, distributions over
      the first `record_count` of them. */
  ghost predicate StatsSpec(st: Stats, cats: seq<Categorization>, recordCount: nat) {
    var counted := Prefix(cats, recordCount);
    && st.totalAnalyzed == |cats|
    && st.willEnhance == (if |cats| < recordCount then |cats| else recordCount)
    && st.categoryDistribution == Tally.TallyOf(Analyzer.CategoryKeys(counted))
    && st.qualityDistribution == Tally.TallyOf(QualityKeys(counted))
    && st.withCategories == |Analyzer.CategoryKeys(counted)|
    && st.withQuality == |QualityKeys(counted)|
  }

  /** `_calculate_analysis_stats`. */
  method CalculateStats(cats: seq<Categorization>, recordCount: nat) returns (st: Stats)
    ensures StatsSpec(st, cats, recordCount)
  {
    var counted := Prefix(cats, recordCount);
    var withCategories := 0;
    var withQuality := 0;
    var categoryDist: Tally.Tally<string> := [];
    var qualityDist: Tally.Tally<string> := [];
    for i := 0 to |counted|
      invariant categoryDist == Tally.TallyOf(Analyzer.CategoryKeys(counted[..i]))
      invariant qualityDist == Tally.TallyOf(QualityKeys(counted[..i]))
      invariant withCategories == |Analyzer.CategoryKeys(counted[..i])|
      invariant withQuality == |QualityKeys(counted[..i])|
    {
      var c := counted[i];
      var seen := counted[..i];
      assert counted[..i + 1] == seen + [c];
      KeysSnoc(seen, c);
      var qualityKeys := QualityKeys(seen);
      var categoryKeys := Analyzer.CategoryKeys(seen);
      if TruthyText(c.primaryCategory) {
        var category := c.primaryCategory.value;
        withCategories := withCategories + 1;
        Analyzer.SnocTally(categoryKeys, category);
        categoryDist := Tally.Bump(categoryDist, category);
        assert Analyzer.CategoryKeys(counted[..i + 1]) == categoryKeys + [category];
      } else {
        assert Analyzer.CategoryKeys(counted[..i + 1]) == categoryKeys;
      }
      if QualityCounted(c) {
        withQuality := withQuality + 1;
        var key := ScoreKey(c.qualityScore.value);
        Analyzer.SnocTally(qualityKeys, key);
        qualityDist := Tally.Bump(qualityDist, key);
        assert QualityKeys(counted[..i + 1]) == qualityKeys + [key];
      } else {
        assert QualityKeys(counted[..i + 1]) == qualityKeys;
      }
    }
    assert counted[..|counted|] == counted;
    st := Stats(|cats|, if |cats| < recordCount then |cats| else recordCount,
                withCategories, withQuality, categoryDist, qualityDist);
  }

  /** One more categorization adds its keys at the end. */
  lemma KeysSnoc(cats: seq<Categorization>, c: Categorization)
    ensures Analyzer.CategoryKeys(cats + [c])
            == Analyzer.CategoryKeys(cats) + (if TruthyText(c.primaryCategory) then [c.primaryCategory.value] else [])
    ensures QualityKeys(cats + [c])
            == QualityKeys(cats) + (if QualityCounted(c) then [ScoreKey(c.qualityScore.value)] else [])
  {
    assert (cats + [c])[..|cats|] == cats;
  }

  /** The statistics add up: the category counts sum to `with_categories`,
      the quality counts to `with_quality`, neither exceeds the number of
      records enhanced, and no "Score 0" bucket is ever counted. */
  lemma StatsTotals(st: Stats, cats: seq<Categorization>, recordCount: nat)
    requires StatsSpec(st, cats, recordCount)
    ensures Tally.Sum(st.categoryDistribution) == st.withCategories <= st.willEnhance
    ensures Tally.Sum(st.qualityDistribution) == st.withQuality <= st.willEnhance
    ensures Tally.Get(st.qualityDistribution, ScoreKey(0)) == 0
  {
    var counted := Prefix(cats, recordCount);
    Tally.TallyOfCounts(Analyzer.CategoryKeys(counted));
    Tally.TallyOfCounts(QualityKeys(counted));
    NoScoreZero(counted);
    Tally.OccurrencesAbsent(QualityKeys(counted), ScoreKey(0));
  }

  lemma {:induction false} NoScoreZero(cats: seq<Categorization>)
    ensures ScoreKey(0) !in QualityKeys(cats)
    decreases |cats|
  {
    if cats != [] {
      NoScoreZero(cats[..|cats| - 1]);
      var c := cats[|cats| - 1];
      if QualityCounted(c) {
        var q := c.qualityScore.value;
        if ScoreKey(q) == ScoreKey(0) {
          assert IntToString(q) == ScoreKey(q)[6..] == ScoreKey(0)[6..] == IntToString(0);
          ParseIntOfIntToString(q);
          ParseIntOfIntToString(0);
        }
      }
    }
  }

  // ---------------------------------------------------------------------------
  // Schema payloads

  /** A property definition as the Notion API takes it. */
  datatype SchemaPayload =
    | SelectSchema(options: seq<string>)
    | MultiSelectSchema(options: seq<string>)
    | NumberSchema
    | RichTextSchema
    | DateSchema

  /** The payload for one property configuration; `None` for a type the
      conversion skips. */
  function PayloadOf(c: PropConfig): (r: Option<SchemaPayload>)
    ensures r.None? <==> c.kind.OtherType?
    ensures r.Some? && (r.value.SelectSchema? || r.value.MultiSelectSchema?) ==>
              r.value.options == c.options.GetOr([])
  {
    match c.kind
    case Select => Some(SelectSchema(c.options.GetOr([])))
    case MultiSelect => Some(MultiSelectSchema(c.options.GetOr([])))
    case Number => Some(NumberSchema)
    case RichText => Some(RichTextSchema)
    case Date => Some(DateSchema)
    case OtherType(_) => None
  }

  /** The conversion loop of `_add_properties_to_database`: one payload per
      property of a known type, in order, each of the matching kind. */
  function SchemaPayloads(ps: seq<Property>): (r: seq<(string, SchemaPayload)>)
    ensures |r| <= |ps|
    ensures forall q :: q in r <==> exists p :: p in ps && PayloadOf(p.1) == Some(q.1) && q.0 == p.0
    decreases |ps|
  {
    if ps == [] then []
    else
      var init := ps[..|ps| - 1];
      var p := ps[|ps| - 1];
      assert ps == init + [p];
      var rest := SchemaPayloads(init);
      match PayloadOf(p.1)
      case None => rest
      case Some(payload) => rest + [(p.0, payload)]
  }

  /** The properties the plan adds are all of converted types, so every one
      of them reaches the schema update, with its options. */
  lemma PlannedPayloads(schema: SchemaConfig, existing: set<string>)
    ensures |SchemaPayloads(ToAdd(EnhancedProperties(schema), existing))|
            == |ToAdd(EnhancedProperties(schema), existing)|
  {
    AllConverted(ToAdd(EnhancedProperties(schema), existing));
  }

  lemma {:induction false} AllConverted(ps: seq<Property>)
    requires forall p :: p in ps ==> !p.1.kind.OtherType?
    ensures |SchemaPayloads(ps)| == |ps|
    decreases |ps|
  {
    if ps != [] {
      var init := ps[..|ps| - 1];
      assert forall p :: p in init ==> p in ps;
      AllConverted(init);
    }
  }

  // ---------------------------------------------------------------------------
  // Populating the records

  /** `analysis_lookup`: each record id with the last categorization that
      carries it. */
  function Lookup(cats: seq<Categorization>): (m: map<string, Categorization>)
    ensures forall id :: id in m <==> exists c :: c in cats && c.recordId == Some(id)
    decreases |cats|
  {
    if cats == [] then map[]
    else
      var init := cats[..|cats| - 1];
      var c := cats[|cats| - 1];
      assert cats == init + [c];
      if c.recordId.Some? then Lookup(init)[c.recordId.value := c] else Lookup(init)
  }

  /** The lookup keeps the last categorization carrying each id. */
  lemma {:induction false} LookupLast(cats: seq<Categorization>, i: nat, id: string)
    requires i < |cats| && cats[i].recordId == Some(id)
    requires forall j :: i < j < |cats| ==> cats[j].recordId != Some(id)
    ensures id in Lookup(cats) && Lookup(cats)[id] == cats[i]
    decreases |cats|
  {
    if i < |cats| - 1 {
      var init := cats[..|cats| - 1];
      LookupLast(init, i, id);
    }
  }

  /** A property value written into a record. */
  datatype Value =
    | SelectValue(name: string)
    | MultiSelectValue(names: seq<string>)
    | RichTextValue(content: string)

  /** The update for one record: the truthy analysis fields, the proposed
      title only when the title needs improvement, and the source domain
      when one was found. */
  function RecordPayload(c: Categorization, domain: string): (r: map<Field, Value>)
    ensures PrimaryCategory in r <==> TruthyText(c.primaryCategory)
    ensures PrimaryCategory in r ==> r[PrimaryCategory] == SelectValue(c.primaryCategory.value)
    ensures CuisineType in r <==> TruthyText(c.cuisineType)
    ensures CuisineType in r ==> r[CuisineType] == SelectValue(c.cuisineType.value)
    ensures DietaryTags in r <==> SomeList(c.dietaryTags)
    ensures DietaryTags in r ==> r[DietaryTags] == MultiSelectValue(c.dietaryTags.value)
    ensures UsageTags in r <==> SomeList(c.usageTags)
    ensures UsageTags in r ==> r[UsageTags] == MultiSelectValue(c.usageTags.value)
    ensures ProposedTitle in r <==> TruthyText(c.proposedTitle) && c.titleNeedsImprovement == Some(true)
    ensures ProposedTitle in r ==> r[ProposedTitle] == RichTextValue(c.proposedTitle.value)
    ensures SourceDomain in r <==> domain != ""
    ensures SourceDomain in r ==> r[SourceDomain] == RichTextValue(domain)
  {
    map f: Field | FieldValue(f, c, domain).Some? :: FieldValue(f, c, domain).value
  }

  /** The value a field takes in a record's update, if any. */
  function FieldValue(f: Field, c: Categorization, domain: string): Option<Value> {
    match f
    case PrimaryCategory =>
      if TruthyText(c.primaryCategory) then Some(SelectValue(c.primaryCategory.value)) else None
    case CuisineType =>
      if TruthyText(c.cuisineType) then Some(SelectValue(c.cuisineType.value)) else None
    case DietaryTags =>
      if SomeList(c.dietaryTags) then Some(MultiSelectValue(c.dietaryTags.value)) else None
    case UsageTags =>
      if SomeList(c.usageTags) then Some(MultiSelectValue(c.usageTags.value)) else None
    case ProposedTitle =>
      if TruthyText(c.proposedTitle) && c.titleNeedsImprovement == Some(true)
      then Some(RichTextValue(c.proposedTitle.value)) else None
    case SourceDomain =>
      if domain != "" then Some(RichTextValue(domain)) else None
  }

  /** A record is updated when it has an analysis entry, that entry yields
      a non-empty payload, and the update call is accepted. */
  ghost predicate Enhanced(lookup: map<string, Categorization>, id: string,
                           domainOf: string -> string, accepts: string -> bool) {
    id in lookup && RecordPayload(lookup[id], domainOf(id)) != map[] && accepts(id)
  }

  /** The number of records among `ids` that are enhanced. */
  ghost function EnhancedCount(lookup: map<string, Categorization>, ids: seq<string>,
                               domainOf: string -> string, accepts: string -> bool): nat
    decreases |ids|
  {
    if ids == [] then 0
    else
      EnhancedCount(lookup, ids[..|ids| - 1], domainOf, accepts)
      + (if Enhanced(lookup, ids[|ids| - 1], domainOf, accepts) then 1 else 0)
  }

  /** The analysis entries `_populate_enhanced_data` reads: none unless the
      analysis is a non-empty document. */
  function AnalysisEntries(analysis: Option<AnalysisDoc>): (cats: seq<Categorization>)
    ensures !(analysis.Some? && analysis.value.Truthy()) ==> cats == []
  {
    if analysis.Some? && analysis.value.Truthy() then analysis.value.Categorizations() else []
  }

  /** `_populate_enhanced_data`: the ids of the database's records, the
      analysis, the domain found for each page and whether each page update
      is accepted; returns the number of records enhanced. A rejected update
      is skipped and the loop goes on. */
  method PopulateEnhancedData(ids: seq<string>, analysis: Option<AnalysisDoc>,
                              domainOf: string -> string, accepts: string -> bool)
    returns (count: nat, updated: seq<string>)
    ensures count == |updated| == EnhancedCount(Lookup(AnalysisEntries(analysis)), ids, domainOf, accepts)
    ensures count <= |ids|
    ensures forall id :: id in updated ==> id in ids && Enhanced(Lookup(AnalysisEntries(analysis)), id, domainOf, accepts)
  {
    var lookup := Lookup(AnalysisEntries(analysis));
    count := 0;
    updated := [];
    for i := 0 to |ids|
      invariant count == |updated| == EnhancedCount(lookup, ids[..i], domainOf, accepts)
      invariant count <= i
      invariant forall id :: id in updated ==> id in ids[..i] && Enhanced(lookup, id, domainOf, accepts)
    {
      var id := ids[i];
      assert ids[..i + 1][..i] == ids[..i];
      if id in lookup {
        var payload := RecordPayload(lookup[id], domainOf(id));
        if payload != map[] && accepts(id) {
          count := count + 1;
          updated := updated + [id];
        }
      }
    }
    assert ids[..|ids|] == ids;
  }

  /** Without analysis data no record is touched. */
  lemma NoAnalysisNoUpdates(ids: seq<string>, domainOf: string -> string, accepts: string -> bool)
    ensures EnhancedCount(Lookup(AnalysisEntries(None)), ids, domainOf, accepts) == 0
  {
    NothingEnhanced(ids, domainOf, accepts);
  }

  lemma {:induction false} NothingEnhanced(ids: seq<string>, domainOf: string -> string, accepts: string -> bool)
    ensures EnhancedCount(map[], ids, domainOf, accepts) == 0
    decreases |ids|
  {
    if ids != [] {
      NothingEnhanced(ids[..|ids| - 1], domainOf, accepts);
    }
  }
}
