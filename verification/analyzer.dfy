/** The recipe analysis engine: collection statistics over extracted
    records, and the categorization pass that asks the language model about
    each sampled recipe and folds the replies into results and
    distributions. The model call is a parameter. */
module Analyzer {
  import opened Wrappers
  import opened PyStr
  import opened Records
  import Tally

  // ---------------------------------------------------------------------
  // Basic statistics
  // ---------------------------------------------------------------------

  /** The collection statistics. The URL-domain counter is not modelled;
      `uniqueTags` is a set because the source converts a set to a list in
      unspecified order. */
  datatype BasicStats = BasicStats(
    totalRecipes: nat,
    recipesWithUrls: nat,
    recipesWithTags: nat,
    uniqueTags: set<string>,
    tagUsage: Tally.Tally<string>,
    titlePatterns: seq<string>)

  /** A record counts as having a URL when its url is non-empty and not the
      "No URL" placeholder. */
  predicate HasUrl(r: RecipeRecord) {
    var url := r.url.GetOr("");
    url != [] && url != "No URL"
  }

  /** The tags of a record, `[]` when absent. */
  function TagsOf(r: RecipeRecord): seq<string> {
    r.tags.GetOr([])
  }

  function CountWithUrls(records: seq<RecipeRecord>): (n: nat)
    ensures n <= |records|
    decreases |records|
  {
    if records == [] then 0
    else CountWithUrls(records[..|records| - 1]) + (if HasUrl(records[|records| - 1]) then 1 else 0)
  }

  function CountWithTags(records: seq<RecipeRecord>): (n: nat)
    ensures n <= |records|
    decreases |records|
  {
    if records == [] then 0
    else CountWithTags(records[..|records| - 1]) + (if TagsOf(records[|records| - 1]) != [] then 1 else 0)
  }

  /** Every tag occurrence, record by record, in order. */
  function AllTags(records: seq<RecipeRecord>): seq<string>
    decreases |records|
  {
    if records == [] then [] else AllTags(records[..|records| - 1]) + TagsOf(records[|records| - 1])
  }

  /** Total number of tag occurrences across the collection. */
  function TagTotal(records: seq<RecipeRecord>): nat
    decreases |records|
  {
    if records == [] then 0 else TagTotal(records[..|records| - 1]) + |TagsOf(records[|records| - 1])|
  }

  /** The non-empty titles, in record order. */
  function Titles(records: seq<RecipeRecord>): (ts: seq<string>)
    ensures |ts| <= |records|
    ensures forall i :: 0 <= i < |ts| ==> ts[i] != []
    decreases |records|
  {
    if records == [] then []
    else
      var t := records[|records| - 1].title.GetOr("");
      Titles(records[..|records| - 1]) + (if t != [] then [t] else [])
  }

  /** `analyze_basic_stats`. */
  function AnalyzeBasicStats(records: seq<RecipeRecord>): (s: BasicStats)
    ensures s.totalRecipes == |records|
    ensures s.recipesWithUrls == |UrlPositions(records)|
    ensures s.recipesWithTags == |TagPositions(records)|
    ensures forall t :: t in s.titlePatterns <==> TitledAs(records, t)
  {
    CountWithUrlsExact(records);
    CountWithTagsExact(records);
    AllTitlesMembers(records);
    var tags := AllTags(records);
    BasicStats(|records|, CountWithUrls(records), CountWithTags(records),
               (set t | t in tags), Tally.TallyOf(tags), Titles(records))
  }

  /** Positions of the records with a usable URL. */
  function UrlPositions(records: seq<RecipeRecord>): set<nat> {
    set i: nat | i < |records| && HasUrl(records[i])
  }

  /** Positions of the records with at least one tag. */
  function TagPositions(records: seq<RecipeRecord>): set<nat> {
    set i: nat | i < |records| && TagsOf(records[i]) != []
  }

  /** Some record carries the non-empty title `t`. */
  predicate TitledAs(records: seq<RecipeRecord>, t: string) {
    t != [] && exists i :: 0 <= i < |records| && records[i].title.GetOr("") == t
  }

  /** The URL count is the number of records with a usable URL. */
  lemma {:induction false} CountWithUrlsExact(records: seq<RecipeRecord>)
    ensures CountWithUrls(records) == |UrlPositions(records)|
    decreases |records|
  {
    if records != [] {
      var n := |records| - 1;
      var init := records[..n];
      CountWithUrlsExact(init);
      if HasUrl(records[n]) {
        assert UrlPositions(records) == UrlPositions(init) + {n};
      } else {
        assert UrlPositions(records) == UrlPositions(init);
      }
    }
  }

  /** The tag count is the number of records with at least one tag. */
  lemma {:induction false} CountWithTagsExact(records: seq<RecipeRecord>)
    ensures CountWithTags(records) == |TagPositions(records)|
    decreases |records|
  {
    if records != [] {
      var n := |records| - 1;
      var init := records[..n];
      CountWithTagsExact(init);
      if TagsOf(records[n]) != [] {
        assert TagPositions(records) == TagPositions(init) + {n};
      } else {
        assert TagPositions(records) == TagPositions(init);
      }
    }
  }

  /** The counts of two collections joined add up. */
  lemma {:induction false} CountsAppend(a: seq<RecipeRecord>, b: seq<RecipeRecord>)
    ensures CountWithUrls(a + b) == CountWithUrls(a) + CountWithUrls(b)
    ensures CountWithTags(a + b) == CountWithTags(a) + CountWithTags(b)
    decreases |b|
  {
    if b != [] {
      var init := b[..|b| - 1];
      assert (a + b)[..|a + b| - 1] == a + init;
      assert (a + b)[|a + b| - 1] == b[|b| - 1];
      CountsAppend(a, init);
    } else {
      assert a + b == a;
    }
  }

  /** The titles of two collections joined are the first's followed by the
      second's: titles keep record order. */
  lemma {:induction false} TitlesAppend(a: seq<RecipeRecord>, b: seq<RecipeRecord>)
    ensures Titles(a + b) == Titles(a) + Titles(b)
    decreases |b|
  {
    if b != [] {
      var init := b[..|b| - 1];
      assert (a + b)[..|a + b| - 1] == a + init;
      assert (a + b)[|a + b| - 1] == b[|b| - 1];
      TitlesAppend(a, init);
    } else {
      assert a + b == a;
    }
  }

  /** A title is collected iff it is non-empty and some record carries it. */
  lemma {:induction false} TitlesMembers(records: seq<RecipeRecord>, t: string)
    ensures t in Titles(records) <==> TitledAs(records, t)
    decreases |records|
  {
    if records != [] {
      var n := |records| - 1;
      var init := records[..n];
      TitlesMembers(init, t);
      if TitledAs(init, t) {
        var i :| 0 <= i < |init| && init[i].title.GetOr("") == t;
        assert records[i] == init[i];
      }
      if TitledAs(records, t) {
        var i :| 0 <= i < |records| && records[i].title.GetOr("") == t;
        if i < n {
          assert init[i] == records[i];
        }
      }
    }
  }

  /** `TitlesMembers` for every title. */
  lemma AllTitlesMembers(records: seq<RecipeRecord>)
    ensures forall t :: t in Titles(records) <==> TitledAs(records, t)
  {
    forall t ensures t in Titles(records) <==> TitledAs(records, t) {
      TitlesMembers(records, t);
    }
  }

  lemma {:induction false} AllTagsLength(records: seq<RecipeRecord>)
    ensures |AllTags(records)| == TagTotal(records)
    decreases |records|
  {
    if records != [] {
      AllTagsLength(records[..|records| - 1]);
    }
  }

  /** The unique tags are exactly the keys of the usage counter, the counter
      sums to the total number of tag occurrences, and each tag's count is
      the number of times it occurs. */
  lemma BasicStatsTags(records: seq<RecipeRecord>)
    ensures AnalyzeBasicStats(records).uniqueTags == Tally.KeySet(AnalyzeBasicStats(records).tagUsage)
    ensures Tally.Sum(AnalyzeBasicStats(records).tagUsage) == TagTotal(records)
    ensures forall t :: Tally.Get(AnalyzeBasicStats(records).tagUsage, t)
                        == Tally.Occurrences(AllTags(records), t)
  {
    Tally.TallyOfCounts(AllTags(records));
    AllTagsLength(records);
  }

  // ---------------------------------------------------------------------
  // Categorization
  // ---------------------------------------------------------------------

  /** What one language-model call yields: a parsed JSON object, a reply
      that is not valid JSON, or an exception from the service. */
  datatype Reply = Parsed(payload: Categorization) | InvalidJson | ServiceError

  /** The language model, asked about a title and its existing tags. */
  type Oracle = (string, seq<string>) -> Reply

  /** `_analyze_single_recipe`: the parsed object, or `None` for invalid
      JSON and for any service failure. */
  function AnalyzeSingle(oracle: Oracle, title: string, tags: seq<string>): (r: Option<Categorization>)
    ensures r.Some? <==> oracle(title, tags).Parsed?
    ensures r.Some? ==> r.value == oracle(title, tags).payload
  {
    match oracle(title, tags)
    case Parsed(p) => Some(p)
    case _ => None
  }

  /** The title sent to the model: "Untitled" when the record has none. */
  function TitleOf(r: RecipeRecord): string {
    r.title.GetOr("Untitled")
  }

  /** The recipe's identity written over the reply. */
  function Stamp(c: Categorization, r: RecipeRecord): (s: Categorization)
    ensures s.originalTitle == Some(TitleOf(r))
    ensures s.existingTags == Some(TagsOf(r))
    ensures s.recordId == Some(r.recordId.GetOr(""))
    ensures s.primaryCategory == c.primaryCategory && s.cuisineType == c.cuisineType
    ensures s.dietaryTags == c.dietaryTags
  {
    c.(originalTitle := Some(TitleOf(r)), existingTags := Some(TagsOf(r)),
       recordId := Some(r.recordId.GetOr("")))
  }

  /** What a record contributes: the stamped reply when it is a non-empty
      dictionary, nothing otherwise. */
  function Outcome(oracle: Oracle, r: RecipeRecord): Option<Categorization> {
    match AnalyzeSingle(oracle, TitleOf(r), TagsOf(r))
    case Some(c) => if c.Truthy() then Some(Stamp(c, r)) else None
    case None => None
  }

  /** The records actually analysed: the first `sampleSize` (Python
      slicing, so a negative size drops records from the end) when the size
      is truthy, all of them otherwise. */
  function Sampled(records: seq<RecipeRecord>, sampleSize: Option<int>): (rs: seq<RecipeRecord>)
    ensures |rs| <= |records| && rs == records[..|rs|]
    ensures sampleSize.Some? && sampleSize.value > 0 ==>
              |rs| == if sampleSize.value < |records| then sampleSize.value else |records|
    ensures sampleSize.Some? && sampleSize.value < 0 ==>
              |rs| == if |records| + sampleSize.value > 0 then |records| + sampleSize.value else 0
    ensures sampleSize.None? || sampleSize.value == 0 ==> rs == records
  {
    if sampleSize.Some? && sampleSize.value != 0 then Prefix(records, sampleSize.value) else records
  }

  /** Reference definition of the categorizations list: the successful
      outcomes, in record order. */
  function Successes(oracle: Oracle, records: seq<RecipeRecord>): seq<Categorization>
    decreases |records|
  {
    if records == [] then []
    else
      var last := Outcome(oracle, records[|records| - 1]);
      Successes(oracle, records[..|records| - 1]) + (if last.Some? then [last.value] else [])
  }

  /** Keys counted in `category_distribution`: each truthy primary category. */
  function CategoryKeys(cats: seq<Categorization>): (ks: seq<string>)
    ensures |ks| <= |cats|
    decreases |cats|
  {
    if cats == [] then []
    else
      var c := cats[|cats| - 1];
      CategoryKeys(cats[..|cats| - 1]) + (if TruthyText(c.primaryCategory) then [c.primaryCategory.value] else [])
  }

  /** Keys counted in `cuisine_distribution`: each truthy cuisine type. */
  function CuisineKeys(cats: seq<Categorization>): (ks: seq<string>)
    ensures |ks| <= |cats|
    decreases |cats|
  {
    if cats == [] then []
    else
      var c := cats[|cats| - 1];
      CuisineKeys(cats[..|cats| - 1]) + (if TruthyText(c.cuisineType) then [c.cuisineType.value] else [])
  }

  /** Some categorization has the truthy primary category `k`. */
  predicate CategorizedAs(cats: seq<Categorization>, k: string) {
    exists i :: 0 <= i < |cats| && TruthyText(cats[i].primaryCategory) && cats[i].primaryCategory.value == k
  }

  /** Some categorization has the truthy cuisine type `k`. */
  predicate CuisineAs(cats: seq<Categorization>, k: string) {
    exists i :: 0 <= i < |cats| && TruthyText(cats[i].cuisineType) && cats[i].cuisineType.value == k
  }

  /** The keys of two lists joined are the first's followed by the
      second's: keys keep categorization order. */
  lemma {:induction false} KeysAppend(a: seq<Categorization>, b: seq<Categorization>)
    ensures CategoryKeys(a + b) == CategoryKeys(a) + CategoryKeys(b)
    ensures CuisineKeys(a + b) == CuisineKeys(a) + CuisineKeys(b)
    decreases |b|
  {
    if b != [] {
      var init := b[..|b| - 1];
      assert (a + b)[..|a + b| - 1] == a + init;
      assert (a + b)[|a + b| - 1] == b[|b| - 1];
      KeysAppend(a, init);
    } else {
      assert a + b == a;
    }
  }

  /** A category key is counted iff some categorization has it as its
      truthy primary category. */
  lemma {:induction false} CategoryKeysMembers(cats: seq<Categorization>, k: string)
    ensures k in CategoryKeys(cats) <==> CategorizedAs(cats, k)
    decreases |cats|
  {
    if cats != [] {
      var n := |cats| - 1;
      var init := cats[..n];
      CategoryKeysMembers(init, k);
      if CategorizedAs(init, k) {
        var i :| 0 <= i < |init| && TruthyText(init[i].primaryCategory) && init[i].primaryCategory.value == k;
        assert cats[i] == init[i];
      }
      if CategorizedAs(cats, k) {
        var i :| 0 <= i < |cats| && TruthyText(cats[i].primaryCategory) && cats[i].primaryCategory.value == k;
        if i < n {
          assert init[i] == cats[i];
        }
      }
    }
  }

  /** A cuisine key is counted iff some categorization has it as its
      truthy cuisine type. */
  lemma {:induction false} CuisineKeysMembers(cats: seq<Categorization>, k: string)
    ensures k in CuisineKeys(cats) <==> CuisineAs(cats, k)
    decreases |cats|
  {
    if cats != [] {
      var n := |cats| - 1;
      var init := cats[..n];
      CuisineKeysMembers(init, k);
      if CuisineAs(init, k) {
        var i :| 0 <= i < |init| && TruthyText(init[i].cuisineType) && init[i].cuisineType.value == k;
        assert cats[i] == init[i];
      }
      if CuisineAs(cats, k) {
        var i :| 0 <= i < |cats| && TruthyText(cats[i].cuisineType) && cats[i].cuisineType.value == k;
        if i < n {
          assert init[i] == cats[i];
        }
      }
    }
  }

  /** Keys counted in `dietary_tags_distribution`: every dietary tag of
      every categorization. */
  function DietaryKeys(cats: seq<Categorization>): seq<string>
    decreases |cats|
  {
    if cats == [] then [] else DietaryKeys(cats[..|cats| - 1]) + cats[|cats| - 1].dietaryTags.GetOr([])
  }

  /** The result of `categorize_recipes_llm`. */
  datatype CategorizationResults = CategorizationResults(
    totalAnalyzed: nat,
    categorizations: seq<Categorization>,
    categoryDistribution: Tally.Tally<string>,
    cuisineDistribution: Tally.Tally<string>,
    dietaryTagsDistribution: Tally.Tally<string>)

  /** The distributions are the counts of the categorizations' keys. */
  predicate Consistent(r: CategorizationResults) {
    && r.categoryDistribution == Tally.TallyOf(CategoryKeys(r.categorizations))
    && r.cuisineDistribution == Tally.TallyOf(CuisineKeys(r.categorizations))
    && r.dietaryTagsDistribution == Tally.TallyOf(DietaryKeys(r.categorizations))
  }

  /** `categorize_recipes_llm`: sample, then ask the model about each record
      in turn, keeping and counting the successful replies. */
  method CategorizeRecipes(records: seq<RecipeRecord>, sampleSize: Option<int>, oracle: Oracle)
    returns (r: CategorizationResults)
    ensures r.totalAnalyzed == |Sampled(records, sampleSize)|
    ensures r.categorizations == Successes(oracle, Sampled(records, sampleSize))
    ensures Consistent(r)
  {
    var rs := Sampled(records, sampleSize);
    r := CategorizationResults(|rs|, [], [], [], []);
    for i := 0 to |rs|
      invariant r.totalAnalyzed == |rs|
      invariant r.categorizations == Successes(oracle, rs[..i])
      invariant Consistent(r)
    {
      assert rs[..i + 1][..i] == rs[..i];
      var outcome := Outcome(oracle, rs[i]);
      if outcome.Some? {
        r := Absorb(r, outcome.value);
      }
    }
    assert rs[..|rs|] == rs;
  }

  /** The loop body for one successful reply: append it and count its
      category, cuisine and dietary tags. */
  method Absorb(acc: CategorizationResults, c: Categorization) returns (r: CategorizationResults)
    requires Consistent(acc)
    ensures r.totalAnalyzed == acc.totalAnalyzed
    ensures r.categorizations == acc.categorizations + [c]
    ensures Consistent(r)
  {
    var cats := acc.categorizations;
    var cats' := cats + [c];
    assert cats'[..|cats'| - 1] == cats;
    var catDist := acc.categoryDistribution;
    if TruthyText(c.primaryCategory) {
      SnocTally(CategoryKeys(cats), c.primaryCategory.value);
      catDist := Tally.Bump(catDist, c.primaryCategory.value);
      assert CategoryKeys(cats') == CategoryKeys(cats) + [c.primaryCategory.value];
    } else {
      assert CategoryKeys(cats') == CategoryKeys(cats);
    }
    assert catDist == Tally.TallyOf(CategoryKeys(cats'));
    var cuisineDist := acc.cuisineDistribution;
    if TruthyText(c.cuisineType) {
      SnocTally(CuisineKeys(cats), c.cuisineType.value);
      cuisineDist := Tally.Bump(cuisineDist, c.cuisineType.value);
      assert CuisineKeys(cats') == CuisineKeys(cats) + [c.cuisineType.value];
    } else {
      assert CuisineKeys(cats') == CuisineKeys(cats);
    }
    assert cuisineDist == Tally.TallyOf(CuisineKeys(cats'));
    var dietDist := CountAll(acc.dietaryTagsDistribution, DietaryKeys(cats), c.dietaryTags.GetOr([]));
    r := CategorizationResults(acc.totalAnalyzed, cats', catDist, cuisineDist, dietDist);
  }

  /** `for tag in tags: d[tag] += 1`, continuing a count of `base`. */
  method CountAll(t: Tally.Tally<string>, base: seq<string>, tags: seq<string>) returns (r: Tally.Tally<string>)
    requires t == Tally.TallyOf(base)
    ensures r == Tally.TallyOf(base + tags)
  {
    r := t;
    assert base + tags[..0] == base;
    for j := 0 to |tags|
      invariant r == Tally.TallyOf(base + tags[..j])
    {
      assert base + tags[..j + 1] == (base + tags[..j]) + [tags[j]];
      SnocTally(base + tags[..j], tags[j]);
      r := Tally.Bump(r, tags[j]);
    }
    assert tags[..|tags|] == tags;
  }

  /** Counting one more key is one more increment. */
  lemma SnocTally(ks: seq<string>, k: string)
    ensures Tally.TallyOf(ks + [k]) == Tally.Bump(Tally.TallyOf(ks), k)
  {
    assert (ks + [k])[..|ks + [k]| - 1] == ks;
  }

  /** No more categorizations than analysed records; each one is the
      stamped reply for some analysed record, and records are kept in
      order. */
  lemma {:induction false} SuccessesFromRecords(oracle: Oracle, records: seq<RecipeRecord>)
    ensures |Successes(oracle, records)| <= |records|
    ensures forall c :: c in Successes(oracle, records) ==>
              exists i :: 0 <= i < |records| && Outcome(oracle, records[i]) == Some(c)
    decreases |records|
  {
    if records != [] {
      var init := records[..|records| - 1];
      SuccessesFromRecords(oracle, init);
      forall c | c in Successes(oracle, records)
        ensures exists i :: 0 <= i < |records| && Outcome(oracle, records[i]) == Some(c)
      {
        if c in Successes(oracle, init) {
          var i :| 0 <= i < |init| && Outcome(oracle, init[i]) == Some(c);
          assert records[i] == init[i];
        } else {
          assert Outcome(oracle, records[|records| - 1]) == Some(c);
        }
      }
    }
  }

  /** Every kept categorization carries the identity of its record. */
  lemma OutcomeStamped(oracle: Oracle, r: RecipeRecord)
    requires Outcome(oracle, r).Some?
    ensures oracle(TitleOf(r), TagsOf(r)).Parsed?
    ensures oracle(TitleOf(r), TagsOf(r)).payload.Truthy()
    ensures Outcome(oracle, r).value.originalTitle == Some(TitleOf(r))
    ensures Outcome(oracle, r).value.existingTags == Some(TagsOf(r))
    ensures Outcome(oracle, r).value.recordId == Some(r.recordId.GetOr(""))
  {
  }

  /** A record whose reply fails (or is an empty object) leaves no trace:
      appending it does not change the categorizations. */
  lemma FailureLeavesNoTrace(oracle: Oracle, records: seq<RecipeRecord>, r: RecipeRecord)
    requires Outcome(oracle, r).None?
    ensures Successes(oracle, records + [r]) == Successes(oracle, records)
  {
    assert (records + [r])[..|records + [r]| - 1] == records;
  }

  /** What one more record adds to the categorizations is decided by the
      model's reply alone: the stamped payload of a parsed, non-empty
      object; nothing for invalid JSON, a service error or an empty object. */
  lemma ReplyContribution(oracle: Oracle, records: seq<RecipeRecord>, r: RecipeRecord)
    ensures var reply := oracle(TitleOf(r), TagsOf(r));
            Successes(oracle, records + [r])
            == Successes(oracle, records) + (if reply.Parsed? && reply.payload.Truthy() then [Stamp(reply.payload, r)] else [])
  {
    assert (records + [r])[..|records + [r]| - 1] == records;
  }

  /** The distribution totals: category and cuisine counts sum to at most
      the number of categorizations, and the dietary counter gives each tag
      exactly its number of occurrences across the categorizations. */
  lemma DistributionTotals(cats: seq<Categorization>)
    ensures Tally.Sum(Tally.TallyOf(CategoryKeys(cats))) <= |cats|
    ensures Tally.Sum(Tally.TallyOf(CuisineKeys(cats))) <= |cats|
    ensures forall t :: Tally.Get(Tally.TallyOf(DietaryKeys(cats)), t) == Tally.Occurrences(DietaryKeys(cats), t)
  {
    Tally.TallyOfCounts(CategoryKeys(cats));
    Tally.TallyOfCounts(CuisineKeys(cats));
    Tally.TallyOfCounts(DietaryKeys(cats));
  }

  /** One more categorization adds exactly one count per dietary tag it
      carries. */
  lemma DietaryIncrement(cats: seq<Categorization>, c: Categorization, t: string)
    ensures Tally.Occurrences(DietaryKeys(cats + [c]), t)
            == Tally.Occurrences(DietaryKeys(cats), t) + Tally.Occurrences(c.dietaryTags.GetOr([]), t)
  {
    assert (cats + [c])[..|cats + [c]| - 1] == cats;
    Tally.OccurrencesAppend(DietaryKeys(cats), c.dietaryTags.GetOr([]), t);
  }
}
