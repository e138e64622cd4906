/** The categorization vocabulary read from the YAML configuration files:
    the names of categories, cuisines and dietary tags, the usage tags the
    language model may assign, and the Markdown fragments that describe the
    vocabulary inside the prompt.

    A loaded file is a `Document`: its top-level sections, each an ordered
    list of named entries (YAML mappings keep their order when loaded).
    Reading the files is outside the model; a file that is missing or
    cannot be read is the empty document. */
module ConfigLoader {
  import opened PyStr
  import opened Records

  /** The fields an entry of a section may carry. */
  datatype Entry = Entry(
    description: Nullable<string>,
    criteria: Nullable<seq<string>>,
    examples: Nullable<seq<string>>,
    indicators: Nullable<seq<string>>,
    notes: Nullable<string>,
    assignment: Nullable<string>)

  datatype Item = Item(name: string, entry: Entry)

  type Section = seq<Item>

  type Document = map<string, Section>

  /** `doc.get(key, {})`. */
  function SectionOf(doc: Document, key: string): (s: Section)
    ensures key !in doc ==> s == []
    ensures key in doc ==> s == doc[key]
  {
    if key in doc then doc[key] else []
  }

  /** `list(section.keys())`. */
  function Names(s: Section): (r: seq<string>)
    ensures |r| == |s|
    ensures forall i :: 0 <= i < |s| ==> r[i] == s[i].name
  {
    seq(|s|, i requires 0 <= i < |s| => s[i].name)
  }

  /** `get_primary_categories`, `get_cuisine_types` and
      `get_dietary_tag_names`: the names of the entries of one section, in
      file order, none when the section is missing. */
  function SectionNames(doc: Document, key: string): (r: seq<string>)
    ensures key !in doc ==> r == []
    ensures key in doc ==> |r| == |doc[key]| && forall i :: 0 <= i < |r| ==> r[i] == doc[key][i].name
  {
    Names(SectionOf(doc, key))
  }

  predicate IsAuto(e: Entry) {
    e.assignment == Present("auto")
  }

  /** The names of the usage tags marked for automatic assignment, in
      section order. */
  function AutoTags(s: Section): (r: seq<string>)
    ensures |r| <= |s|
    ensures forall n :: n in r <==> exists i :: 0 <= i < |s| && s[i].name == n && IsAuto(s[i].entry)
    decreases |s|
  {
    if s == [] then []
    else
      var rest := AutoTags(s[1..]);
      assert forall i :: 0 <= i < |s| - 1 ==> s[1..][i] == s[i + 1];
      (if IsAuto(s[0].entry) then [s[0].name] else []) + rest
  }

  /** `get_auto_assignable_usage_tags`. */
  function AutoAssignableUsageTags(doc: Document): (r: seq<string>)
    ensures "usage_tags" !in doc ==> r == []
    ensures forall n :: n in r <==>
              exists i :: 0 <= i < |SectionOf(doc, "usage_tags")| && SectionOf(doc, "usage_tags")[i].name == n
                          && IsAuto(SectionOf(doc, "usage_tags")[i].entry)
  {
    AutoTags(SectionOf(doc, "usage_tags"))
  }

  /** Filtering commutes with concatenation, so the tags keep section order. */
  lemma {:induction false} AutoTagsAppend(a: Section, b: Section)
    ensures AutoTags(a + b) == AutoTags(a) + AutoTags(b)
    decreases |a|
  {
    if a == [] {
      assert a + b == b;
    } else {
      assert (a + b)[0] == a[0];
      assert (a + b)[1..] == a[1..] + b;
      AutoTagsAppend(a[1..], b);
    }
  }

  // ---------------------------------------------------------------------------
  // Prompt formatting

  /** The three formatted sections. */
  datatype Style = Categories | Cuisines | DietaryTags

  /** The optional detail lines under an entry's header. */
  datatype Detail = Criteria | Examples | Indicators | Note {
    function Label(): string {
      match this
      case Criteria => "  - Criteria: "
      case Examples => "  - Examples: "
      case Indicators => "  - Indicators: "
      case Note => "  - Note: "
    }
  }

  /** The details a style may show, in the order it shows them. */
  function Details(style: Style): seq<Detail> {
    match style
    case Categories => [Criteria, Examples]
    case Cuisines => [Indicators]
    case DietaryTags => [Criteria, Note]
  }

  /** A list field read with `config.get(key, [])` is truthy. */
  predicate Listed(n: Nullable<seq<string>>) {
    n.Present? && n.value != []
  }

  /** The entry's field for a detail is truthy. */
  predicate Has(d: Detail, e: Entry) {
    match d
    case Criteria => Listed(e.criteria)
    case Examples => Listed(e.examples)
    case Indicators => Listed(e.indicators)
    case Note => TruthyText(e.notes)
  }

  function ListText(n: Nullable<seq<string>>, sep: string): string {
    if n.Present? then Join(sep, n.value) else ""
  }

  /** The text after a detail's label: criteria and indicators joined by
      "; ", examples by ", ", the note as it is. */
  function DetailText(d: Detail, e: Entry): string {
    match d
    case Criteria => ListText(e.criteria, "; ")
    case Examples => ListText(e.examples, ", ")
    case Indicators => ListText(e.indicators, "; ")
    case Note => if e.notes.Present? then e.notes.value else ""
  }

  function DetailLine(d: Detail, e: Entry): string {
    d.Label() + DetailText(d, e)
  }

  /** `f"{config.get('description', '')}"`: a missing description is empty,
      a `null` one prints as "None". */
  function DescriptionText(n: Nullable<string>): string {
    match n
    case Missing => ""
    case Null => "None"
    case Present(s) => s
  }

  /** `- **name**: description`. */
  function HeaderLine(it: Item): string {
    "- **" + it.name + "**: " + DescriptionText(it.entry.description)
  }

  /** The fifth character of a detail line tells its kind apart. */
  function Tag(d: Detail): char {
    match d
    case Criteria => 'C'
    case Examples => 'E'
    case Indicators => 'I'
    case Note => 'N'
  }

  lemma DetailLineTag(d: Detail, e: Entry)
    ensures |DetailLine(d, e)| > 4
    ensures DetailLine(d, e)[4] == Tag(d)
  {
  }

  /** How many of the details apply to the entry. */
  function CountHas(ds: seq<Detail>, e: Entry): nat
    decreases |ds|
  {
    if ds == [] then 0 else (if Has(ds[0], e) then 1 else 0) + CountHas(ds[1..], e)
  }

  /** The detail lines for the details that apply, in order. */
  function DetailLines(ds: seq<Detail>, e: Entry): (r: seq<string>)
    ensures |r| == CountHas(ds, e)
    ensures forall x :: x in r ==> exists d :: d in ds && Has(d, e) && x == DetailLine(d, e)
    decreases |ds|
  {
    if ds == [] then []
    else
      var rest := DetailLines(ds[1..], e);
      assert forall d :: d in ds[1..] ==> d in ds;
      (if Has(ds[0], e) then [DetailLine(ds[0], e)] else []) + rest
  }

  /** With distinct kinds, an entry shows a detail's line exactly when its
      field is truthy. */
  lemma {:induction false} DetailShown(ds: seq<Detail>, e: Entry, d: Detail)
    requires forall i, j :: 0 <= i < j < |ds| ==> Tag(ds[i]) != Tag(ds[j])
    requires d in ds
    ensures DetailLine(d, e) in DetailLines(ds, e) <==> Has(d, e)
    decreases |ds|
  {
    var rest := DetailLines(ds[1..], e);
    assert forall k :: 0 <= k < |ds| - 1 ==> ds[1..][k] == ds[k + 1];
    DetailLineTag(d, e);
    if d == ds[0] {
      forall x | x in rest
        ensures x != DetailLine(d, e)
      {
        var d' :| d' in ds[1..] && Has(d', e) && x == DetailLine(d', e);
        var j :| 0 <= j < |ds[1..]| && ds[1..][j] == d';
        assert d' == ds[j + 1];
        DetailLineTag(d', e);
      }
    } else {
      DetailShown(ds[1..], e, d);
      DetailLineTag(ds[0], e);
    }
  }

  /** An entry's lines: its header, then its detail lines. */
  function ItemLines(style: Style, it: Item): (r: seq<string>)
    ensures |r| == 1 + CountHas(Details(style), it.entry)
    ensures r[0] == HeaderLine(it)
  {
    [HeaderLine(it)] + DetailLines(Details(style), it.entry)
  }

  /** Under an entry's header, each detail the style shows has its line
      exactly when the entry's field is truthy: the criteria and examples
      of a category, the indicators of a cuisine, the criteria and note of
      a dietary tag. */
  lemma ItemDetails(style: Style, it: Item, d: Detail)
    requires d in Details(style)
    ensures DetailLine(d, it.entry) in ItemLines(style, it)[1..] <==> Has(d, it.entry)
  {
    assert ItemLines(style, it)[1..] == DetailLines(Details(style), it.entry);
    DetailShown(Details(style), it.entry, d);
  }

  function Lines(style: Style, s: Section): (r: seq<string>)
    decreases |s|
  {
    if s == [] then [] else ItemLines(style, s[0]) + Lines(style, s[1..])
  }

  /** `format_categories_for_prompt`, `format_cuisines_for_prompt` and
      `format_dietary_tags_for_prompt` over the section's entries. */
  function Format(style: Style, s: Section): (r: string)
    ensures s == [] ==> r == ""
  {
    Join("\n", Lines(style, s))
  }

  /** The section key each style reads. */
  function SectionKey(style: Style): string {
    match style
    case Categories => "categories"
    case Cuisines => "cuisines"
    case DietaryTags => "dietary_tags"
  }

  function FormatForPrompt(style: Style, doc: Document): (r: string)
    ensures SectionKey(style) !in doc ==> r == ""
  {
    Format(style, SectionOf(doc, SectionKey(style)))
  }

  /** The lines of a concatenation are the lines of each part, in order. */
  lemma {:induction false} LinesAppend(style: Style, a: Section, b: Section)
    ensures Lines(style, a + b) == Lines(style, a) + Lines(style, b)
    decreases |a|
  {
    if a == [] {
      assert a + b == b;
    } else {
      assert (a + b)[0] == a[0];
      assert (a + b)[1..] == a[1..] + b;
      LinesAppend(style, a[1..], b);
    }
  }

  /** The number of detail lines over a section. */
  function DetailCount(style: Style, s: Section): nat
    decreases |s|
  {
    if s == [] then 0 else CountHas(Details(style), s[0].entry) + DetailCount(style, s[1..])
  }

  /** One header line per entry plus one line per applicable detail. */
  lemma {:induction false} LineCount(style: Style, s: Section)
    ensures |Lines(style, s)| == |s| + DetailCount(style, s)
    decreases |s|
  {
    if s != [] {
      LineCount(style, s[1..]);
    }
  }

  /** No text that ends up in the prompt holds a line break. */
  predicate SingleLine(it: Item) {
    && '\n' !in it.name
    && '\n' !in DescriptionText(it.entry.description)
    && (it.entry.criteria.Present? ==> forall i :: 0 <= i < |it.entry.criteria.value| ==> '\n' !in it.entry.criteria.value[i])
    && (it.entry.examples.Present? ==> forall i :: 0 <= i < |it.entry.examples.value| ==> '\n' !in it.entry.examples.value[i])
    && (it.entry.indicators.Present? ==> forall i :: 0 <= i < |it.entry.indicators.value| ==> '\n' !in it.entry.indicators.value[i])
    && (it.entry.notes.Present? ==> '\n' !in it.entry.notes.value)
  }

  lemma DetailLineSingle(d: Detail, it: Item)
    requires SingleLine(it)
    ensures '\n' !in DetailLine(d, it.entry)
  {
    var e := it.entry;
    match d {
      case Criteria => if e.criteria.Present? { JoinAvoids("; ", e.criteria.value, '\n'); }
      case Examples => if e.examples.Present? { JoinAvoids(", ", e.examples.value, '\n'); }
      case Indicators => if e.indicators.Present? { JoinAvoids("; ", e.indicators.value, '\n'); }
      case Note =>
    }
  }

  lemma {:induction false} LinesSingle(style: Style, s: Section)
    requires forall i :: 0 <= i < |s| ==> SingleLine(s[i])
    ensures forall j :: 0 <= j < |Lines(style, s)| ==> '\n' !in Lines(style, s)[j]
    decreases |s|
  {
    if s != [] {
      assert forall i :: 0 <= i < |s| - 1 ==> s[1..][i] == s[i + 1];
      LinesSingle(style, s[1..]);
      var head := ItemLines(style, s[0]);
      forall j | 0 <= j < |head|
        ensures '\n' !in head[j]
      {
        if j > 0 {
          var ds := Details(style);
          assert head[j] in head[1..];
          var d :| d in ds && Has(d, s[0].entry) && head[j] == DetailLine(d, s[0].entry);
          DetailLineSingle(d, s[0]);
        }
      }
    }
  }

  /** When no text holds a line break, splitting the prompt fragment on
      line breaks gives back exactly its lines: one header per entry, each
      followed by the entry's applicable details. */
  lemma FormatRoundTrip(style: Style, s: Section)
    requires s != []
    requires forall i :: 0 <= i < |s| ==> SingleLine(s[i])
    ensures SplitOn(Format(style, s), '\n') == Lines(style, s)
  {
    LinesSingle(style, s);
    SplitJoin(Lines(style, s), '\n');
  }
}
