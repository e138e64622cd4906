/** Applying proposed titles: checking that the database has a
    `Proposed_Title` field and a title field, choosing the records whose
    proposal is not blank, and writing each proposal into the title field.

    Reading a record gives its flattened properties (as
    `get_record_content` returns them; none when the page cannot be read),
    and whether each page update is accepted is a parameter. */
module TitleImprovements {
  import opened Wrappers
  import opened PyStr
  import NotionClient
  import opened NotionUtils

  /** The outcome of the schema checks. */
  datatype Check = MissingProposedTitle | MissingTitleField | Ready(titleField: string)

  /** A database must have `Proposed_Title`, and `Title` or else `Name`. */
  function CheckSchema(fields: set<string>): (c: Check)
    ensures c.MissingProposedTitle? <==> "Proposed_Title" !in fields
    ensures c.MissingTitleField? <==> "Proposed_Title" in fields && "Title" !in fields && "Name" !in fields
    ensures c.Ready? ==> c.titleField in fields && (c.titleField == "Title" || (c.titleField == "Name" && "Title" !in fields))
  {
    if "Proposed_Title" !in fields then MissingProposedTitle
    else if "Title" !in fields && "Name" !in fields then MissingTitleField
    else Ready(if "Title" in fields then "Title" else "Name")
  }

  /** With `--sample N` (non-zero), only `records[:N]`: the first N for a
      positive N, all but the last -N for a negative one. */
  function Sampled<T>(records: seq<T>, sample: Option<int>): (r: seq<T>)
    ensures sample.Some? && sample.value > 0 ==> |r| == (if sample.value < |records| then sample.value else |records|)
    ensures sample.Some? && sample.value < 0 ==> |r| == (if |records| + sample.value > 0 then |records| + sample.value else 0)
    ensures |r| <= |records| && r == records[..|r|]
    ensures sample.None? || sample.value == 0 ==> r == records
  {
    if sample.Some? && sample.value != 0 then Prefix(records, sample.value) else records
  }

  type Flat = seq<(string, NotionClient.Value)>

  /** `properties.get(name)` on the flattened properties. */
  function Lookup(props: Flat, name: string): (r: Option<NotionClient.Value>)
    ensures r.Some? ==> (name, r.value) in props
    ensures r.None? ==> forall i :: 0 <= i < |props| ==> props[i].0 != name
    decreases |props|
  {
    if props == [] then None
    else if props[0].0 == name then Some(props[0].1)
    else Lookup(props[1..], name)
  }

  /** A flattened value as the text reader sees it; a missing property is
      `{}`. */
  function AsInput(v: Option<NotionClient.Value>): (p: PropInput)
    ensures v.None? ==> p == Dict(None, None)
    ensures v.Some? && v.value.Text? ==> p == Str(v.value.s)
  {
    if v.None? then Dict(None, None)
    else if v.value.Text? then Str(v.value.s)
    else if v.value.Texts? then NotDict
    else NoneValue
  }

  /** The text of the record's `Proposed_Title`. */
  function ProposedOf(props: Flat): string {
    ExtractText(AsInput(Lookup(props, "Proposed_Title")), RichTextKind)
  }

  /** One planned change. */
  datatype Change = Change(id: string, currentTitle: string, proposedTitle: string)

  function ChangeFor(id: string, props: Flat, titleField: string): Change {
    Change(id, ExtractText(AsInput(Lookup(props, titleField)), AutoKind), Strip(ProposedOf(props)))
  }

  /** `records_to_update`: a change for each record, in order, whose
      proposed title is not blank, carrying the proposal stripped. */
  function RecordsToUpdate(ids: seq<string>, contentOf: string -> Flat, titleField: string): (r: seq<Change>)
    ensures |r| <= |ids|
    ensures forall c :: c in r ==> c.id in ids && c.proposedTitle != "" && c == ChangeFor(c.id, contentOf(c.id), titleField)
    decreases |ids|
  {
    if ids == [] then []
    else
      var init := ids[..|ids| - 1];
      var id := ids[|ids| - 1];
      assert ids == init + [id];
      var proposed := ProposedOf(contentOf(id));
      RecordsToUpdate(init, contentOf, titleField)
      + (if proposed != "" && Strip(proposed) != "" then [ChangeFor(id, contentOf(id), titleField)] else [])
  }

  /** Appending records appends their changes. */
  lemma RecordsToUpdateSnoc(ids: seq<string>, id: string, contentOf: string -> Flat, titleField: string)
    ensures RecordsToUpdate(ids + [id], contentOf, titleField)
            == RecordsToUpdate(ids, contentOf, titleField)
               + (if Strip(ProposedOf(contentOf(id))) != "" then [ChangeFor(id, contentOf(id), titleField)] else [])
  {
    assert (ids + [id])[..|ids|] == ids;
  }

  /** A record gets a change exactly when its proposed title is not
      blank. */
  lemma {:induction false} ChangedIffProposed(ids: seq<string>, contentOf: string -> Flat, titleField: string, id: string)
    requires id in ids
    ensures Strip(ProposedOf(contentOf(id))) != "" <==> HasChange(RecordsToUpdate(ids, contentOf, titleField), id)
    decreases |ids|
  {
    var init := ids[..|ids| - 1];
    var last := ids[|ids| - 1];
    assert ids == init + [last];
    RecordsToUpdateSnoc(init, last, contentOf, titleField);
    var added := if Strip(ProposedOf(contentOf(last))) != "" then [ChangeFor(last, contentOf(last), titleField)] else [];
    HasChangeConcat(RecordsToUpdate(init, contentOf, titleField), added, id);
    if added != [] {
      SingleChange(ChangeFor(last, contentOf(last), titleField), id);
    }
    if id in init {
      ChangedIffProposed(init, contentOf, titleField, id);
    }
  }

  /** Some change in `cs` is for `id`. */
  predicate HasChange(cs: seq<Change>, id: string) {
    exists c :: c in cs && c.id == id
  }

  /** A single change is for `id` exactly when its id is `id`. */
  lemma SingleChange(c: Change, id: string)
    ensures HasChange([c], id) <==> c.id == id
  {
    if c.id == id {
      assert c in [c];
    }
  }

  /** A change for `id` in two lists joined is in one of them. */
  lemma HasChangeConcat(a: seq<Change>, b: seq<Change>, id: string)
    ensures HasChange(a + b, id) <==> HasChange(a, id) || HasChange(b, id)
  {
    if HasChange(a + b, id) {
      var c :| c in a + b && c.id == id;
      assert c in a || c in b;
    }
    if HasChange(a, id) {
      var c :| c in a && c.id == id;
      assert c in a + b;
    }
    if HasChange(b, id) {
      var c :| c in b && c.id == id;
      assert c in a + b;
    }
  }

  /** The property type of the update: `title` for a field named title or
      name in any case, rich text otherwise. */
  function UpdateKind(titleField: string): (k: Kind)
    ensures k.TitleKind? || k.RichTextKind?
  {
    var lower := Lower(titleField);
    if lower == "title" || lower == "name" then TitleKind else RichTextKind
  }

  /** Both field names the schema check can choose write a title. */
  lemma ChosenFieldWritesTitle(fields: set<string>)
    requires CheckSchema(fields).Ready?
    ensures UpdateKind(CheckSchema(fields).titleField) == TitleKind
  {
    var f := CheckSchema(fields).titleField;
    if f == "Title" {
      assert Lower(f) == "title";
    } else {
      assert Lower(f) == "name";
    }
  }

  /** The update a change sends. */
  function UpdateOf(c: Change, kind: Kind): (string, PropInput) {
    (c.id, CreateTextProperty(c.proposedTitle, kind))
  }

  /** The updates of the accepted changes, in the order of the changes. */
  function Updates(changes: seq<Change>, kind: Kind, accepts: string -> bool): (r: seq<(string, PropInput)>)
    ensures |r| <= |changes|
    decreases |changes|
  {
    if changes == [] then []
    else
      var c := changes[|changes| - 1];
      Updates(changes[..|changes| - 1], kind, accepts) + (if accepts(c.id) then [UpdateOf(c, kind)] else [])
  }

  /** An update is sent exactly for each accepted change: a rejection
      neither stops the others nor leaves a trace. */
  lemma {:induction false} UpdatesExact(changes: seq<Change>, kind: Kind, accepts: string -> bool, w: (string, PropInput))
    ensures w in Updates(changes, kind, accepts) <==> exists c :: c in changes && accepts(c.id) && w == UpdateOf(c, kind)
    decreases |changes|
  {
    if changes != [] {
      var init := changes[..|changes| - 1];
      var last := changes[|changes| - 1];
      assert changes == init + [last];
      UpdatesExact(init, kind, accepts, w);
      if exists c :: c in changes && accepts(c.id) && w == UpdateOf(c, kind) {
        var c :| c in changes && accepts(c.id) && w == UpdateOf(c, kind);
        if c != last {
          assert c in init;
        }
      }
    }
  }

  /** When every update is accepted, every change is written. */
  lemma {:induction false} AllAcceptedAllWritten(changes: seq<Change>, kind: Kind, accepts: string -> bool)
    requires forall c :: c in changes ==> accepts(c.id)
    ensures |Updates(changes, kind, accepts)| == |changes|
    decreases |changes|
  {
    if changes != [] {
      var init := changes[..|changes| - 1];
      assert forall c :: c in init ==> c in changes;
      AllAcceptedAllWritten(init, kind, accepts);
      assert changes[|changes| - 1] in changes;
    }
  }

  /** `_apply_title_changes`: write each proposal; a rejected update is
      skipped and the rest go on. Returns the number written and the
      updates sent. */
  method ApplyTitleChanges(changes: seq<Change>, titleField: string, accepts: string -> bool)
    returns (successCount: nat, written: seq<(string, PropInput)>)
    ensures successCount == |written|
    ensures written == Updates(changes, UpdateKind(titleField), accepts)
  {
    successCount := 0;
    written := [];
    var kind := UpdateKind(titleField);
    for i := 0 to |changes|
      invariant successCount == |written|
      invariant written == Updates(changes[..i], kind, accepts)
    {
      var c := changes[i];
      assert changes[..i + 1][..i] == changes[..i];
      if accepts(c.id) {
        written := written + [UpdateOf(c, kind)];
        successCount := successCount + 1;
      }
    }
    assert changes[..|changes|] == changes;
  }

  /** Each written title reads back as the stripped proposal. */
  lemma WrittenTitleReadsBack(c: Change, fields: set<string>)
    requires CheckSchema(fields).Ready?
    ensures ExtractText(CreateTextProperty(c.proposedTitle, UpdateKind(CheckSchema(fields).titleField)), AutoKind)
            == c.proposedTitle
  {
    ChosenFieldWritesTitle(fields);
    assert Contents([TextBlock(Some(c.proposedTitle))]) == c.proposedTitle + Contents([]);
  }
}
