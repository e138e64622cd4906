/** The Notion client's data shaping: normalising database ids, flattening
    a page's properties into plain values, finding a page's title, and
    collecting a database's records across result pages. The API itself is
    not modelled: a query's answers are given as a list of responses. */
module NotionClient {
  import opened Wrappers
  import opened PyStr
  import opened Records

  // ---------------------------------------------------------------------------
  // Ids

  /** `s.split(c)[0]`: everything before the first `c`. */
  function BeforeFirst(s: string, c: char): (r: string)
    ensures c !in r
    ensures |r| <= |s| && r == s[..|r|]
    ensures c !in s ==> r == s
    ensures c in s ==> |r| < |s| && s[|r|] == c
  {
    if c in s then s[..IndexOf(s, c)] else s
  }

  /** The 8-4-4-4-12 grouping of a 32-character id. */
  function Hyphenate(s: string): (r: string)
    requires |s| == 32
    ensures |r| == 36
    ensures r[8] == '-' && r[13] == '-' && r[18] == '-' && r[23] == '-'
  {
    s[..8] + "-" + s[8..12] + "-" + s[12..16] + "-" + s[16..20] + "-" + s[20..]
  }

  /** Removing the hyphens of a grouped id gives back the id. */
  lemma HyphenateRemove(s: string)
    requires |s| == 32 && '-' !in s
    ensures RemoveChar(Hyphenate(s), '-') == s
    ensures forall x :: x in Hyphenate(s) ==> x in s || x == '-'
  {
    var a, b, c, d, e := s[..8], s[8..12], s[12..16], s[16..20], s[20..];
    var h := a + "-" + b + "-" + c + "-" + d + "-" + e;
    assert Hyphenate(s) == h;
    assert s == a + b + c + d + e;
    assert RemoveChar(h, '-') == a + b + c + d + e by {
      NoDashIn(s, 0, 8);
      NoDashIn(s, 8, 12);
      NoDashIn(s, 12, 16);
      NoDashIn(s, 16, 20);
      NoDashIn(s, 20, 32);
      RemoveGroups(a, b, c, d, e);
    }
    forall x | x in h
      ensures x in s || x == '-'
    {
      assert x in a || x in b || x in c || x in d || x in e || x == '-';
    }
  }

  /** Five hyphen-free groups joined by hyphens lose exactly those hyphens. */
  lemma RemoveGroups(a: string, b: string, c: string, d: string, e: string)
    requires '-' !in a && '-' !in b && '-' !in c && '-' !in d && '-' !in e
    ensures RemoveChar(a + "-" + b + "-" + c + "-" + d + "-" + e, '-') == a + b + c + d + e
  {
    RemoveAround(a + "-" + b + "-" + c + "-" + d, e);
    RemoveAround(a + "-" + b + "-" + c, d);
    RemoveAround(a + "-" + b, c);
    RemoveAround(a, b);
  }

  lemma NoDashIn(s: string, i: nat, j: nat)
    requires i <= j <= |s| && '-' !in s
    ensures '-' !in s[i..j] && RemoveChar(s[i..j], '-') == s[i..j]
  {
    assert forall k :: 0 <= k < j - i ==> s[i..j][k] == s[i + k];
  }

  /** Removing `-` around one `-`. */
  lemma RemoveAround(x: string, y: string)
    ensures RemoveChar(x + "-" + y, '-') == RemoveChar(x, '-') + RemoveChar(y, '-')
  {
    var t := "-" + y;
    assert x + "-" + y == x + t;
    RemoveCharConcat(x, t, '-');
    assert t[0] == '-' && t[1..] == y;
    assert RemoveChar(t, '-') == RemoveChar(y, '-');
  }

  /** `_clean_id`: cut at the first `?`, then at the first `#`, drop every
      hyphen, and regroup a 32-character result as 8-4-4-4-12. */
  function CleanId(id: string): (r: string)
    ensures '?' !in r && '#' !in r
    ensures var bare := RemoveChar(BeforeFirst(BeforeFirst(id, '?'), '#'), '-');
            && (|bare| == 32 ==> |r| == 36 && RemoveChar(r, '-') == bare)
            && (|bare| != 32 ==> r == bare && '-' !in r)
  {
    var bare := RemoveChar(BeforeFirst(BeforeFirst(id, '?'), '#'), '-');
    assert '?' !in bare;
    if |bare| == 32 then
      HyphenateRemove(bare);
      Hyphenate(bare)
    else bare
  }

  /** Cleaning an already clean id changes nothing. */
  lemma CleanIdIdempotent(id: string)
    ensures CleanId(CleanId(id)) == CleanId(id)
  {
    var r := CleanId(id);
    assert BeforeFirst(BeforeFirst(r, '?'), '#') == r;
    var bare := RemoveChar(BeforeFirst(BeforeFirst(id, '?'), '#'), '-');
    if |bare| == 32 {
      HyphenateRemove(bare);
    }
  }

  /** An id with no `?`, `#` or `-` keeps its characters in order; one of 32
      characters comes back grouped. */
  lemma CleanIdOfBare(id: string)
    requires '?' !in id && '#' !in id && '-' !in id
    ensures |id| != 32 ==> CleanId(id) == id
    ensures |id| == 32 ==> CleanId(id) == Hyphenate(id)
  {
  }

  // ---------------------------------------------------------------------------
  // Properties

  /** A rich-text item; only its `plain_text` is read. */
  datatype TextItem = TextItem(plainText: Option<string>)

  /** A property as the API returns it, by its `type`. */
  datatype PropData =
    | TitleProp(title: Option<seq<TextItem>>)
    | RichTextProp(richText: Option<seq<TextItem>>)
    | UrlProp(url: Nullable<string>)
    | MultiSelectProp(options: Option<seq<Option<string>>>)
      /** `None` when the select is absent, `null` or `{}`. */
    | SelectProp(select: Option<Option<string>>)
    | CreatedTimeProp(created: Nullable<string>)
    | LastEditedTimeProp(edited: Nullable<string>)
      /** Any other type; its `str()` is opaque. */
    | OtherProp(repr: string)

  /** A flattened property value. */
  datatype Value = Text(s: string) | Texts(items: seq<string>) | NullValue

  /** `d.get(k, "")` for a string field. */
  function TextOr(n: Nullable<string>): (v: Value)
    ensures n.Missing? ==> v == Text("")
    ensures n.Null? ==> v == NullValue
    ensures n.Present? ==> v == Text(n.value)
  {
    match n
    case Missing => Text("")
    case Null => NullValue
    case Present(s) => Text(s)
  }

  /** The first item's plain text, `""` when there are no items. */
  function FirstPlainText(items: Option<seq<TextItem>>): string {
    var xs := items.GetOr([]);
    if xs == [] then "" else xs[0].plainText.GetOr("")
  }

  /** One property's flattened value. */
  function ExtractValue(p: PropData): (v: Value)
    ensures p.TitleProp? && p.title.GetOr([]) == [] ==> v == Text("")
    ensures p.RichTextProp? && p.richText.GetOr([]) == [] ==> v == Text("")
    ensures p.SelectProp? && p.select.None? ==> v == Text("")
    ensures p.MultiSelectProp? ==>
              v.Texts? && |v.items| == |p.options.GetOr([])|
              && forall i :: 0 <= i < |v.items| ==> v.items[i] == p.options.GetOr([])[i].GetOr("")
    ensures p.OtherProp? ==> v == Text(p.repr)
  {
    match p
    case TitleProp(items) => Text(FirstPlainText(items))
    case RichTextProp(items) => Text(FirstPlainText(items))
    case UrlProp(url) => TextOr(url)
    case MultiSelectProp(options) =>
      var names := options.GetOr([]);
      Texts(seq(|names|, i requires 0 <= i < |names| => names[i].GetOr("")))
    case SelectProp(select) => Text(if select.Some? then select.value.GetOr("") else "")
    case CreatedTimeProp(t) => TextOr(t)
    case LastEditedTimeProp(t) => TextOr(t)
    case OtherProp(repr) => Text(repr)
  }

  type Properties = seq<(string, PropData)>

  /** `_extract_record_properties`: one entry per property, in order, with
      the property's flattened value. */
  function ExtractRecordProperties(props: Properties): (r: seq<(string, Value)>)
    ensures |r| == |props|
    ensures forall i :: 0 <= i < |props| ==> r[i].0 == props[i].0 && r[i].1 == ExtractValue(props[i].1)
  {
    seq(|props|, i requires 0 <= i < |props| => (props[i].0, ExtractValue(props[i].1)))
  }

  /** A title-typed property with at least one item. */
  predicate HasTitleText(p: PropData) {
    p.TitleProp? && p.title.GetOr([]) != []
  }

  /** `_extract_title`: the first plain text of the first title-typed
      property that has items ("Untitled" when that item has none);
      "Untitled" when there is no such property. */
  function ExtractTitle(props: Properties): (r: string)
    ensures (forall i :: 0 <= i < |props| ==> !HasTitleText(props[i].1)) ==> r == "Untitled"
    ensures forall i :: 0 <= i < |props| && HasTitleText(props[i].1)
                        && (forall j :: 0 <= j < i ==> !HasTitleText(props[j].1)) ==>
              r == props[i].1.title.value[0].plainText.GetOr("Untitled")
    decreases |props|
  {
    if props == [] then "Untitled"
    else if HasTitleText(props[0].1) then props[0].1.title.value[0].plainText.GetOr("Untitled")
    else
      assert forall i :: 0 <= i < |props| - 1 ==> props[1..][i] == props[i + 1];
      ExtractTitle(props[1..])
  }

  /** When the title item carries its text, the title is the value the
      property flattening gives the first titled property. */
  lemma TitleMatchesExtraction(props: Properties, i: nat)
    requires i < |props| && HasTitleText(props[i].1)
    requires forall j :: 0 <= j < i ==> !HasTitleText(props[j].1)
    requires props[i].1.title.value[0].plainText.Some?
    ensures ExtractRecordProperties(props)[i] == (props[i].0, Text(ExtractTitle(props)))
  {
  }

  // ---------------------------------------------------------------------------
  // Collecting records

  /** One answer to a database query: a page of results and whether more
      follow, or an API error. */
  datatype Response<R> = Page(results: seq<R>, hasMore: bool) | ApiError

  /** `max_records` is truthy: given and non-zero. */
  predicate Limited(max: Option<int>) {
    max.Some? && max.value != 0
  }

  /** Appending a page's results one by one, stopping once the limit is
      reached. */
  function AppendPage<R>(acc: seq<R>, results: seq<R>, max: Option<int>): (r: seq<R>)
    decreases |results|
  {
    if results == [] then acc
    else
      var acc' := acc + [results[0]];
      if Limited(max) && |acc'| >= max.value then acc' else AppendPage(acc', results[1..], max)
  }

  /** The query loop from the `k`-th response on, with the records collected
      so far: stop at an error (keeping what was collected), when no more
      pages follow, or when the limit is reached. Queries past the supplied
      responses fail. */
  function Fetch<R>(responses: seq<Response<R>>, k: nat, acc: seq<R>, max: Option<int>): seq<R>
    decreases |responses| - k
  {
    if k >= |responses| || responses[k].ApiError? then acc
    else
      var acc' := AppendPage(acc, responses[k].results, max);
      if responses[k].hasMore && (!Limited(max) || |acc'| < max.value) then Fetch(responses, k + 1, acc', max)
      else acc'
  }

  /** `get_database_records` over the responses its queries receive. */
  function GetDatabaseRecords<R>(responses: seq<Response<R>>, max: Option<int>): seq<R> {
    Fetch(responses, 0, [], max)
  }

  /** Where unlimited paging stops: just before the first error, or just
      after the first page with nothing more to follow. */
  function Until<R>(responses: seq<Response<R>>, k: nat): (e: nat)
    ensures k <= |responses| ==> k <= e <= |responses|
    decreases |responses| - k
  {
    if k >= |responses| || responses[k].ApiError? then k
    else if !responses[k].hasMore then k + 1
    else Until(responses, k + 1)
  }

  /** All results of a run of responses, in order. */
  function Flatten<R>(responses: seq<Response<R>>): seq<R>
    decreases |responses|
  {
    if responses == [] then []
    else (if responses[0].Page? then responses[0].results else []) + Flatten(responses[1..])
  }

  /** `xs[:n]` for `n >= 0`. */
  function Take<R>(xs: seq<R>, n: nat): (r: seq<R>)
    ensures |r| <= n && |r| <= |xs| && r == xs[..|r|]
    ensures |xs| <= n ==> r == xs
  {
    if |xs| <= n then xs else xs[..n]
  }

  lemma {:induction false} AppendPageUnlimited<R>(acc: seq<R>, results: seq<R>, max: Option<int>)
    requires !Limited(max)
    ensures AppendPage(acc, results, max) == acc + results
    decreases |results|
  {
    if results != [] {
      AppendPageUnlimited(acc + [results[0]], results[1..], max);
      assert acc + [results[0]] + results[1..] == acc + results;
    }
  }

  lemma {:induction false} AppendPageLimited<R>(acc: seq<R>, results: seq<R>, max: Option<int>)
    requires max.Some? && 0 < max.value && |acc| < max.value
    ensures AppendPage(acc, results, max) == Take(acc + results, max.value)
    decreases |results|
  {
    if results != [] {
      var acc' := acc + [results[0]];
      assert acc' + results[1..] == acc + results;
      if |acc'| < max.value {
        AppendPageLimited(acc', results[1..], max);
      } else {
        assert (acc + results)[..max.value] == acc';
      }
    }
  }

  /** The run of responses from `k` to where paging stops is its first
      response followed by the rest of the run. */
  lemma FlattenStep<R>(responses: seq<Response<R>>, k: nat)
    requires k < |responses| && responses[k].Page? && responses[k].hasMore
    ensures Flatten(responses[k..Until(responses, k)])
            == responses[k].results + Flatten(responses[k + 1..Until(responses, k)])
  {
    var e := Until(responses, k);
    assert responses[k..e][1..] == responses[k + 1..e];
  }

  lemma FlattenLast<R>(responses: seq<Response<R>>, k: nat)
    requires k < |responses| && responses[k].Page? && !responses[k].hasMore
    ensures Flatten(responses[k..Until(responses, k)]) == responses[k].results
  {
    assert responses[k..k + 1] == [responses[k]];
    assert responses[k..k + 1][1..] == [];
  }

  /** Without a limit, the loop collects every result of the pages it reads,
      in page order, and an error keeps what was collected before it. */
  lemma {:induction false} FetchUnlimited<R>(responses: seq<Response<R>>, k: nat, acc: seq<R>, max: Option<int>)
    requires !Limited(max) && k <= |responses|
    ensures Fetch(responses, k, acc, max) == acc + Flatten(responses[k..Until(responses, k)])
    decreases |responses| - k
  {
    if k < |responses| && responses[k].Page? {
      AppendPageUnlimited(acc, responses[k].results, max);
      if responses[k].hasMore {
        FetchUnlimited(responses, k + 1, acc + responses[k].results, max);
        FlattenStep(responses, k);
      } else {
        FlattenLast(responses, k);
      }
    }
  }

  /** With a positive limit, the loop collects the first `max` of those
      results. */
  lemma {:induction false} FetchLimited<R>(responses: seq<Response<R>>, k: nat, acc: seq<R>, max: Option<int>)
    requires max.Some? && 0 < max.value && |acc| < max.value && k <= |responses|
    ensures Fetch(responses, k, acc, max) == Take(acc + Flatten(responses[k..Until(responses, k)]), max.value)
    decreases |responses| - k
  {
    if k < |responses| && responses[k].Page? {
      var page := responses[k].results;
      AppendPageLimited(acc, page, max);
      var e := Until(responses, k);
      if responses[k].hasMore {
        assert e == Until(responses, k + 1);
        FlattenStep(responses, k);
        var more := Flatten(responses[k + 1..e]);
        assert acc + Flatten(responses[k..e]) == (acc + page) + more;
        if |acc + page| < max.value {
          assert Fetch(responses, k, acc, max) == Fetch(responses, k + 1, acc + page, max);
          FetchLimited(responses, k + 1, acc + page, max);
        } else {
          assert Fetch(responses, k, acc, max) == (acc + page)[..max.value];
          assert ((acc + page) + more)[..max.value] == (acc + page)[..max.value];
        }
      } else {
        FlattenLast(responses, k);
      }
    } else {
      assert responses[k..Until(responses, k)] == [];
    }
  }

  /** The records `get_database_records` returns: the results of the pages
      read, in order, up to the first error or the last page, cut to
      `max_records` when that is positive; at most one record for a
      negative limit. */
  lemma DatabaseRecords<R>(responses: seq<Response<R>>, max: Option<int>)
    ensures !Limited(max) ==> GetDatabaseRecords(responses, max) == Flatten(responses[..Until(responses, 0)])
    ensures max.Some? && max.value > 0 ==>
              GetDatabaseRecords(responses, max) == Take(Flatten(responses[..Until(responses, 0)]), max.value)
    ensures max.Some? && max.value < 0 ==> |GetDatabaseRecords(responses, max)| <= 1
  {
    assert responses[0..] == responses;
    if !Limited(max) {
      FetchUnlimited(responses, 0, [], max);
    } else if max.value > 0 {
      FetchLimited(responses, 0, [], max);
    } else if |responses| > 0 && responses[0].Page? && responses[0].results != [] {
      assert AppendPage([], responses[0].results, max) == [responses[0].results[0]];
    }
  }

  /** An error on the second query returns the first page's records. */
  lemma ErrorKeepsFirstPage<R>(first: seq<R>)
    ensures GetDatabaseRecords([Page(first, true), ApiError], None) == first
  {
    var rs: seq<Response<R>> := [Page(first, true), ApiError];
    DatabaseRecords(rs, None);
    assert rs[..Until(rs, 0)] == [Page(first, true)];
    assert [Page(first, true)][1..] == [];
  }
}
