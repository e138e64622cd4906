/** The two record shapes that flow through the analysis pipeline: a recipe
    as extracted from the Notion database, and the categorization the
    language model returns for it (later stamped with the recipe's identity
    and saved in the analysis report). */
module Records {
  import opened Wrappers

  /** A JSON field that may be absent, present as `null`, or present with a
      value; `d.get(k, default)` tells the first two apart. */
  datatype Nullable<+T> = Missing | Null | Present(value: T) {

    /** `d.get(k, default)`: `None` is a value of its own, so only a missing
        key falls back to the default. */
    function Get(default: Option<T>): (r: Option<T>)
      ensures Missing? ==> r == default
      ensures Null? ==> r == None
      ensures Present? ==> r == Some(value)
    {
      match this
      case Missing => default
      case Null => None
      case Present(v) => Some(v)
    }
  }

  /** Truthiness of a string field read with `d.get(k)`. */
  predicate TruthyText(n: Nullable<string>) {
    n.Present? && n.value != []
  }

  /** Truthiness of an optional string. */
  predicate SomeText(o: Option<string>) {
    o.Some? && o.value != []
  }

  /** Truthiness of an optional list. */
  predicate SomeList<T>(o: Option<seq<T>>) {
    o.Some? && o.value != []
  }

  /** One extracted recipe (an entry of `records` in the extracted JSON). */
  datatype RecipeRecord = RecipeRecord(
    title: Option<string>,
    tags: Option<seq<string>>,
    url: Option<string>,
    recordId: Option<string>)

  /** A categorization dictionary. Fields the language model is asked for,
      fields the review tooling reads, and the three stamped in by the
      analyzer; `extraKeys` names any other keys the reply carried. */
  datatype Categorization = Categorization(
    primaryCategory: Nullable<string>,
    cuisineType: Nullable<string>,
    dietaryTags: Option<seq<string>>,
    usageTags: Option<seq<string>>,
    confidence: Option<int>,
    reasoning: Option<string>,
    isRecipe: Option<bool>,
    titleNeedsImprovement: Option<bool>,
    qualityScore: Option<int>,
    proposedTitle: Nullable<string>,
    contentSummary: Option<string>,
    recipeIndex: Option<int>,
    originalTitle: Option<string>,
    existingTags: Option<seq<string>>,
    recordId: Option<string>,
    extraKeys: set<string>)
  {
    /** A dictionary is truthy iff it has at least one key. */
    predicate Truthy() {
      !primaryCategory.Missing? || !cuisineType.Missing? || dietaryTags.Some?
      || usageTags.Some? || confidence.Some? || reasoning.Some? || isRecipe.Some?
      || titleNeedsImprovement.Some? || qualityScore.Some? || !proposedTitle.Missing?
      || contentSummary.Some? || recipeIndex.Some? || originalTitle.Some?
      || existingTags.Some? || recordId.Some? || extraKeys != {}
    }
  }

  /** The empty dictionary `{}`. */
  const EmptyCategorization: Categorization :=
    Categorization(Missing, Missing, None, None, None, None, None, None, None,
                   Missing, None, None, None, None, None, {})

  /** The `llm_categorization` section of a saved analysis report. */
  datatype LlmSection = LlmSection(categorizations: Option<seq<Categorization>>)

  /** A loaded analysis report: its `llm_categorization` section, if any,
      and the names of its other top-level keys. */
  datatype AnalysisDoc = AnalysisDoc(llmCategorization: Option<LlmSection>, otherKeys: set<string>) {

    /** The report dictionary is non-empty. */
    predicate Truthy() {
      llmCategorization.Some? || otherKeys != {}
    }

    /** `doc.get("llm_categorization", {}).get("categorizations", [])`. */
    function Categorizations(): (cs: seq<Categorization>)
      ensures llmCategorization.None? ==> cs == []
      ensures llmCategorization.Some? && llmCategorization.value.categorizations.Some? ==>
                cs == llmCategorization.value.categorizations.value
    {
      match llmCategorization
      case None => []
      case Some(section) => section.categorizations.GetOr([])
    }
  }
}
