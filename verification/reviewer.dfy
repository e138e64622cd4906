/** Review reconciliation: export categorizations to spreadsheet rows with
    empty reviewer columns, read edited rows back into corrections, and
    summarise review priorities. Cells are text; the CSV encoding itself is
    outside the model. */
module Reviewer {
  import opened Wrappers
  import opened PyStr
  import opened Records
  import Tally

  // ---------------------------------------------------------------------
  // Export
  // ---------------------------------------------------------------------

  /** The categorizations the issues-only export keeps: not a recipe
      (absent means it is one), the title needs improvement (absent means
      it does not), or a quality score below 3 (absent counts as 5). */
  predicate HasIssue(c: Categorization) {
    || !c.isRecipe.GetOr(true)
    || c.titleNeedsImprovement.GetOr(false)
    || c.qualityScore.GetOr(5) < 3
  }

  /** The issues-only filter, keeping order. */
  function IssuesOnly(cats: seq<Categorization>): (r: seq<Categorization>)
    ensures |r| <= |cats|
    decreases |cats|
  {
    if cats == [] then []
    else IssuesOnly(cats[..|cats| - 1]) + (if HasIssue(cats[|cats| - 1]) then [cats[|cats| - 1]] else [])
  }

  /** A categorization is kept by the filter iff it is one of the input's
      and has an issue. */
  lemma {:induction false} IssuesOnlyMembers(cats: seq<Categorization>)
    ensures forall c :: c in IssuesOnly(cats) <==> c in cats && HasIssue(c)
    decreases |cats|
  {
    if cats != [] {
      var init := cats[..|cats| - 1];
      IssuesOnlyMembers(init);
      assert cats == init + [cats[|cats| - 1]];
    }
  }

  /** The sheet's columns, in export order; the last five are the
      reviewer's. */
  datatype Column =
    | RecipeIndex | RecordId | OriginalTitle | ProposedTitle | TitleNeedsImprovement
    | IsRecipe | PrimaryCategory | CuisineType | DietaryTags | UsageTags
    | QualityScore | ContentSummary | Confidence | Reasoning | ExistingTags
    | CorrectedTitle | CorrectedCategory | CorrectedIsRecipe | ReviewNotes | Approved
  {
    /** The header text of the column. */
    function Name(): string {
      match this
      case RecipeIndex => "recipe_index"
      case RecordId => "record_id"
      case OriginalTitle => "original_title"
      case ProposedTitle => "proposed_title"
      case TitleNeedsImprovement => "title_needs_improvement"
      case IsRecipe => "is_recipe"
      case PrimaryCategory => "primary_category"
      case CuisineType => "cuisine_type"
      case DietaryTags => "dietary_tags"
      case UsageTags => "usage_tags"
      case QualityScore => "quality_score"
      case ContentSummary => "content_summary"
      case Confidence => "confidence"
      case Reasoning => "reasoning"
      case ExistingTags => "existing_tags"
      case CorrectedTitle => "corrected_title"
      case CorrectedCategory => "corrected_category"
      case CorrectedIsRecipe => "corrected_is_recipe"
      case ReviewNotes => "review_notes"
      case Approved => "approved"
    }

    predicate IsReviewColumn() {
      CorrectedTitle? || CorrectedCategory? || CorrectedIsRecipe? || ReviewNotes? || Approved?
    }
  }

  /** The column order of the exported sheet. */
  const Columns: seq<Column> := [
    RecipeIndex, RecordId, OriginalTitle, ProposedTitle, TitleNeedsImprovement,
    IsRecipe, PrimaryCategory, CuisineType, DietaryTags, UsageTags,
    QualityScore, ContentSummary, Confidence, Reasoning, ExistingTags,
    CorrectedTitle, CorrectedCategory, CorrectedIsRecipe, ReviewNotes, Approved]

  /** The header line's field names. */
  function FieldNames(): (names: seq<string>)
    ensures |names| == |Columns|
    ensures forall i :: 0 <= i < |Columns| ==> names[i] == Columns[i].Name()
  {
    seq(|Columns|, i requires 0 <= i < |Columns| => Columns[i].Name())
  }

  /** `str(b)` for a Python boolean. */
  function BoolText(b: bool): string {
    if b then "True" else "False"
  }

  /** Cell text of an optional integer; `None` writes as an empty cell. */
  function IntCell(o: Option<int>): string {
    match o
    case None => ""
    case Some(i) => IntToString(i)
  }

  /** Cell text of a field read with default `""`; JSON `null` also writes
      as an empty cell. */
  function TextCell(n: Nullable<string>): string {
    match n
    case Present(s) => s
    case _ => ""
  }

  /** Cell text of a list field: its items joined with "; ". */
  function ListCell(o: Option<seq<string>>): string {
    Join("; ", o.GetOr([]))
  }

  /** The exported text of one column for one categorization. */
  function CellText(c: Categorization, col: Column): (t: string)
    ensures col.IsReviewColumn() ==> t == ""
  {
    match col
    case RecipeIndex => IntCell(c.recipeIndex)
    case RecordId => c.recordId.GetOr("")
    case OriginalTitle => c.originalTitle.GetOr("")
    case ProposedTitle => TextCell(c.proposedTitle)
    case TitleNeedsImprovement => BoolText(c.titleNeedsImprovement.GetOr(false))
    case IsRecipe => BoolText(c.isRecipe.GetOr(true))
    case PrimaryCategory => TextCell(c.primaryCategory)
    case CuisineType => TextCell(c.cuisineType)
    case DietaryTags => ListCell(c.dietaryTags)
    case UsageTags => ListCell(c.usageTags)
    case QualityScore => IntCell(c.qualityScore)
    case ContentSummary => c.contentSummary.GetOr("")
    case Confidence => IntCell(c.confidence)
    case Reasoning => c.reasoning.GetOr("")
    case ExistingTags => ListCell(c.existingTags)
    case _ => ""
  }

  /** A sheet row: column to cell text. */
  type SheetRow = map<Column, string>

  /** The exported row for one categorization: every column filled, the
      reviewer columns empty. */
  function ExportRow(c: Categorization): (row: SheetRow)
    ensures forall col: Column :: col in row && row[col] == CellText(c, col)
  {
    ColumnsComplete();
    map col: Column | col in Columns :: CellText(c, col)
  }

  /** Every column is exported. */
  lemma ColumnsComplete()
    ensures forall col: Column :: col in Columns
  {
    forall col: Column ensures col in Columns {
      match col
      case RecipeIndex | RecordId | OriginalTitle | ProposedTitle | TitleNeedsImprovement => CategorizationColumnListed(col);
      case IsRecipe | PrimaryCategory | CuisineType | DietaryTags | UsageTags => TagColumnListed(col);
      case QualityScore | ContentSummary | Confidence | Reasoning | ExistingTags => DetailColumnListed(col);
      case CorrectedTitle | CorrectedCategory | CorrectedIsRecipe | ReviewNotes | Approved => ReviewColumnListed(col);
    }
  }

  /** Each of the identifying and title columns is in the header. */
  lemma CategorizationColumnListed(col: Column)
    requires col == RecipeIndex || col == RecordId || col == OriginalTitle || col == ProposedTitle || col == TitleNeedsImprovement
    ensures col in Columns
  {
    if col == RecipeIndex {
      assert Columns[0] == col;
    } else if col == RecordId {
      assert Columns[1] == col;
    } else if col == OriginalTitle {
      assert Columns[2] == col;
    } else if col == ProposedTitle {
      assert Columns[3] == col;
    } else {
      assert Columns[4] == col;
    }
  }

  /** Each of the category and tag columns is in the header. */
  lemma TagColumnListed(col: Column)
    requires col == IsRecipe || col == PrimaryCategory || col == CuisineType || col == DietaryTags || col == UsageTags
    ensures col in Columns
  {
    if col == IsRecipe {
      assert Columns[5] == col;
    } else if col == PrimaryCategory {
      assert Columns[6] == col;
    } else if col == CuisineType {
      assert Columns[7] == col;
    } else if col == DietaryTags {
      assert Columns[8] == col;
    } else {
      assert Columns[9] == col;
    }
  }

  /** Each of the score, summary and reasoning columns is in the header. */
  lemma DetailColumnListed(col: Column)
    requires col == QualityScore || col == ContentSummary || col == Confidence || col == Reasoning || col == ExistingTags
    ensures col in Columns
  {
    if col == QualityScore {
      assert Columns[10] == col;
    } else if col == ContentSummary {
      assert Columns[11] == col;
    } else if col == Confidence {
      assert Columns[12] == col;
    } else if col == Reasoning {
      assert Columns[13] == col;
    } else {
      assert Columns[14] == col;
    }
  }

  /** Each of the reviewer's columns is in the header. */
  lemma ReviewColumnListed(col: Column)
    requires col == CorrectedTitle || col == CorrectedCategory || col == CorrectedIsRecipe || col == ReviewNotes || col == Approved
    ensures col in Columns
  {
    if col == CorrectedTitle {
      assert Columns[15] == col;
    } else if col == CorrectedCategory {
      assert Columns[16] == col;
    } else if col == CorrectedIsRecipe {
      assert Columns[17] == col;
    } else if col == ReviewNotes {
      assert Columns[18] == col;
    } else {
      assert Columns[19] == col;
    }
  }

  /** One exported row per categorization, in order. */
  function ExportRows(cats: seq<Categorization>): (rows: seq<SheetRow>)
    ensures |rows| == |cats|
    ensures forall i :: 0 <= i < |cats| ==> rows[i] == ExportRow(cats[i])
  {
    seq(|cats|, i requires 0 <= i < |cats| => ExportRow(cats[i]))
  }

  /** A written sheet: its file name, header and rows. */
  datatype Sheet = Sheet(fileName: string, header: seq<string>, rows: seq<SheetRow>)

  /** `export_to_csv`: nothing when the report could not be loaded, is
      empty, or holds no categorizations; otherwise the (possibly
      filtered) rows under the file name the mode selects. A filter that
      keeps nothing still writes a header-only sheet. */
  function ExportToCsv(doc: Option<AnalysisDoc>, focusOnIssues: bool): (r: Option<Sheet>)
    ensures r.Some? <==> doc.Some? && doc.value.Truthy() && doc.value.Categorizations() != []
    ensures r.Some? ==> r.value.header == FieldNames()
    ensures r.Some? ==>
              r.value.fileName == (if focusOnIssues then "categorization_issues.csv" else "categorization_review.csv")
    ensures r.Some? && !focusOnIssues ==> r.value.rows == ExportRows(doc.value.Categorizations())
    ensures r.Some? && focusOnIssues ==> r.value.rows == ExportRows(IssuesOnly(doc.value.Categorizations()))
  {
    if doc.None? || !doc.value.Truthy() then None
    else
      var cats := doc.value.Categorizations();
      if cats == [] then None
      else
        var kept := if focusOnIssues then IssuesOnly(cats) else cats;
        var name := if focusOnIssues then "categorization_issues.csv" else "categorization_review.csv";
        Some(Sheet(name, FieldNames(), ExportRows(kept)))
  }

  // ---------------------------------------------------------------------
  // Import
  // ---------------------------------------------------------------------

  /** A row as read back: `None` is the filler for a cell missing from a
      short row. */
  type ImportRow = map<Column, Option<string>>

  /** `row.get(k, "")`. */
  function Cell(row: ImportRow, col: Column): Option<string> {
    if col in row then row[col] else Some("")
  }

  /** Reading an exported sheet back gives its cells unchanged. */
  function AsRead(row: SheetRow): (r: ImportRow)
    ensures r.Keys == row.Keys
    ensures forall k :: k in row ==> r[k] == Some(row[k])
  {
    map k | k in row :: Some(row[k])
  }

  /** The keys a corrections dictionary may hold. */
  datatype CorrectionType = TitleFix | CategoryFix | RecipeFlagFix | NotesEntry {
    function Name(): string {
      match this
      case TitleFix => "title"
      case CategoryFix => "primary_category"
      case RecipeFlagFix => "is_recipe"
      case NotesEntry => "review_notes"
    }
  }

  /** The reviewer's corrections for one row, in the order the source
      inserts them. */
  datatype Corrections = Corrections(
    title: Option<string>,
    primaryCategory: Option<string>,
    isRecipe: Option<bool>,
    reviewNotes: Option<string>)
  {
    /** The dictionary's keys in insertion order. */
    function Keys(): (ks: seq<CorrectionType>)
      ensures |ks| <= 4
      ensures TitleFix in ks <==> title.Some?
      ensures CategoryFix in ks <==> primaryCategory.Some?
      ensures RecipeFlagFix in ks <==> isRecipe.Some?
      ensures NotesEntry in ks <==> reviewNotes.Some?
      ensures forall i, j :: 0 <= i < j < |ks| ==> ks[i] != ks[j]
    {
      (if title.Some? then [TitleFix] else [])
      + (if primaryCategory.Some? then [CategoryFix] else [])
      + (if isRecipe.Some? then [RecipeFlagFix] else [])
      + (if reviewNotes.Some? then [NotesEntry] else [])
    }

    predicate Empty() {
      title.None? && primaryCategory.None? && isRecipe.None? && reviewNotes.None?
    }
  }

  /** One imported correction. */
  datatype Correction = Correction(
    recipeIndex: int,
    recordId: Option<string>,
    originalTitle: Option<string>,
    corrections: Corrections)

  /** One row that could not be processed, numbered as the sheet shows it. */
  datatype Issue = Issue(row: int, message: string)

  /** What one row yields. */
  datatype RowOutcome = Skipped | Corrected(correction: Correction) | Failed(message: string)

  const ErrorPrefix: string := "Error processing row: "
  const NoneStrip: string := "'NoneType' object has no attribute 'strip'"

  /** The message of a failed `int(text)`. */
  function InvalidIntMessage(text: string): string {
    "invalid literal for int() with base 10: '" + text + "'"
  }

  /** `str(v).lower()` of a cell read back. */
  function LowerText(o: Option<string>): string {
    match o
    case Some(s) => Lower(s)
    case None => "none"
  }

  /** The title or category correction: the stripped value, when non-empty
      and different from the original cell. */
  function TextFix(corrected: string, original: Option<string>): (r: Option<string>)
    ensures r.Some? <==> Strip(corrected) != [] && Some(Strip(corrected)) != original
    ensures r.Some? ==> r.value == Strip(corrected)
  {
    var v := Strip(corrected);
    if v != [] && Some(v) != original then Some(v) else None
  }

  /** The is-recipe correction: "true" or "false" after stripping and
      lower-casing, and different from the original cell. */
  function FlagFix(corrected: string, original: Option<string>): (r: Option<bool>)
    ensures r.Some? <==> (Lower(Strip(corrected)) == "true" || Lower(Strip(corrected)) == "false")
                         && Lower(Strip(corrected)) != LowerText(original)
    ensures r.Some? ==> r.value == (Lower(Strip(corrected)) == "true")
  {
    var v := Lower(Strip(corrected));
    if (v == "true" || v == "false") && v != LowerText(original) then Some(v == "true") else None
  }

  /** The review-notes entry: the stripped notes when non-empty. */
  function NotesFix(notes: string): (r: Option<string>)
    ensures r.Some? <==> Strip(notes) != []
    ensures r.Some? ==> r.value == Strip(notes)
  {
    if Strip(notes) != [] then Some(Strip(notes)) else None
  }

  /** The four corrections of a row, read in source order; `None` when a
      reviewer cell is missing, which fails at its `.strip()`. */
  function ReadFixes(row: ImportRow): (r: Option<Corrections>)
    ensures r.Some? <==> Cell(row, CorrectedTitle).Some? && Cell(row, CorrectedCategory).Some?
                         && Cell(row, CorrectedIsRecipe).Some? && Cell(row, ReviewNotes).Some?
    ensures r.Some? ==> r.value == Corrections(
              TextFix(Cell(row, CorrectedTitle).value, Cell(row, OriginalTitle)),
              TextFix(Cell(row, CorrectedCategory).value, Cell(row, PrimaryCategory)),
              FlagFix(Cell(row, CorrectedIsRecipe).value, Cell(row, IsRecipe)),
              NotesFix(Cell(row, ReviewNotes).value))
  {
    match Cell(row, CorrectedTitle)
    case None => None
    case Some(ct) =>
      match Cell(row, CorrectedCategory)
      case None => None
      case Some(cc) =>
        match Cell(row, CorrectedIsRecipe)
        case None => None
        case Some(cr) =>
          match Cell(row, ReviewNotes)
          case None => None
          case Some(notes) =>
            Some(Corrections(TextFix(ct, Cell(row, OriginalTitle)), TextFix(cc, Cell(row, PrimaryCategory)),
                             FlagFix(cr, Cell(row, IsRecipe)), NotesFix(notes)))
  }

  /** The row has an index cell whose stripped text is not blank. */
  predicate IndexGiven(row: ImportRow) {
    Cell(row, RecipeIndex).Some? && Strip(Cell(row, RecipeIndex).value) != []
  }

  /** `_process_csv_row`. A blank index skips the row before anything else
      is read; the index is converted only once a correction exists, so a
      malformed index fails only rows that carry corrections. */
  function ProcessRow(row: ImportRow): (r: RowOutcome)
    ensures Cell(row, RecipeIndex).None? ==> r == Failed(ErrorPrefix + NoneStrip)
    ensures Cell(row, RecipeIndex).Some? && Strip(Cell(row, RecipeIndex).value) == [] ==> r == Skipped
    ensures IndexGiven(row) && ReadFixes(row).None? ==> r == Failed(ErrorPrefix + NoneStrip)
    ensures IndexGiven(row) && ReadFixes(row).Some? && ReadFixes(row).value.Empty() ==> r == Skipped
    ensures IndexGiven(row) && ReadFixes(row).Some? && !ReadFixes(row).value.Empty()
            && ParseInt(Strip(Cell(row, RecipeIndex).value)).Some? ==>
              r == Corrected(Correction(ParseInt(Strip(Cell(row, RecipeIndex).value)).value,
                                        Cell(row, RecordId), Cell(row, OriginalTitle), ReadFixes(row).value))
    ensures r.Corrected? ==>
              && Cell(row, RecipeIndex).Some?
              && ParseInt(Strip(Cell(row, RecipeIndex).value)) == Some(r.correction.recipeIndex)
              && ReadFixes(row) == Some(r.correction.corrections)
              && !r.correction.corrections.Empty()
              && r.correction.recordId == Cell(row, RecordId)
              && r.correction.originalTitle == Cell(row, OriginalTitle)
    ensures r.Failed? ==> r.message == ErrorPrefix + NoneStrip
                          || (ReadFixes(row).Some? && !ReadFixes(row).value.Empty()
                              && Cell(row, RecipeIndex).Some?
                              && ParseInt(Strip(Cell(row, RecipeIndex).value)) == None
                              && r.message == ErrorPrefix + InvalidIntMessage(Strip(Cell(row, RecipeIndex).value)))
  {
    match Cell(row, RecipeIndex)
    case None => Failed(ErrorPrefix + NoneStrip)
    case Some(rawIndex) =>
      var index := Strip(rawIndex);
      if index == [] then Skipped
      else
        match ReadFixes(row)
        case None => Failed(ErrorPrefix + NoneStrip)
        case Some(fixes) =>
          if fixes.Empty() then Skipped
          else
            match ParseInt(index)
            case None => Failed(ErrorPrefix + InvalidIntMessage(index))
            case Some(n) => Corrected(Correction(n, Cell(row, RecordId), Cell(row, OriginalTitle), fixes))
  }

  /** A row with a correction but an index that is not an integer fails,
      with the message naming the index text. */
  lemma BadIndexFails(row: ImportRow)
    requires Cell(row, RecipeIndex).Some? && Strip(Cell(row, RecipeIndex).value) != []
    requires ReadFixes(row).Some? && !ReadFixes(row).value.Empty()
    requires ParseInt(Strip(Cell(row, RecipeIndex).value)) == None
    ensures ProcessRow(row) == Failed(ErrorPrefix + InvalidIntMessage(Strip(Cell(row, RecipeIndex).value)))
  {
  }

  /** The rows of a sheet: corrections and issues, rows numbered from 2
      (the header is row 1). */
  datatype ImportResult = ImportResult(corrections: seq<Correction>, issues: seq<Issue>)

  /** The outcome of every row. */
  function Outcomes(rows: seq<ImportRow>): (os: seq<RowOutcome>)
    ensures |os| == |rows|
    ensures forall i :: 0 <= i < |rows| ==> os[i] == ProcessRow(rows[i])
  {
    seq(|rows|, i requires 0 <= i < |rows| => ProcessRow(rows[i]))
  }

  /** The `import_corrections` row loop over the rows' outcomes: the
      corrections are appended, each failure is recorded with its row
      number, and processing continues. */
  function Collect(os: seq<RowOutcome>): (r: ImportResult)
    ensures |r.corrections| + |r.issues| <= |os|
    ensures forall i :: 0 <= i < |r.issues| ==> 2 <= r.issues[i].row <= |os| + 1
    decreases |os|
  {
    if os == [] then ImportResult([], [])
    else
      var prev := Collect(os[..|os| - 1]);
      match os[|os| - 1]
      case Skipped => prev
      case Corrected(c) => ImportResult(prev.corrections + [c], prev.issues)
      case Failed(m) => ImportResult(prev.corrections, prev.issues + [Issue(|os| + 1, m)])
  }

  function ImportRows(rows: seq<ImportRow>): ImportResult {
    Collect(Outcomes(rows))
  }

  /** Issues are reported in row order, and every failed row is reported
      with its number and message, every corrected row's correction kept:
      processing continues past a failure. */
  lemma {:induction false} CollectExact(os: seq<RowOutcome>)
    ensures forall i, j :: 0 <= i < j < |Collect(os).issues| ==>
              Collect(os).issues[i].row < Collect(os).issues[j].row
    ensures forall k :: 0 <= k < |os| && os[k].Failed? ==> Issue(k + 2, os[k].message) in Collect(os).issues
    ensures forall k :: 0 <= k < |os| && os[k].Corrected? ==> os[k].correction in Collect(os).corrections
    decreases |os|
  {
    if os != [] {
      var init := os[..|os| - 1];
      CollectExact(init);
      assert forall k :: 0 <= k < |os| - 1 ==> os[k] == init[k];
    }
  }

  /** Only failed rows are reported, and only corrected rows contribute. */
  lemma {:induction false} CollectOnlyFrom(os: seq<RowOutcome>)
    ensures forall x :: x in Collect(os).issues ==>
              exists k :: 0 <= k < |os| && os[k].Failed? && x == Issue(k + 2, os[k].message)
    ensures forall c :: c in Collect(os).corrections ==>
              exists k :: 0 <= k < |os| && os[k] == Corrected(c)
    decreases |os|
  {
    if os != [] {
      var init := os[..|os| - 1];
      CollectOnlyFrom(init);
      assert forall k :: 0 <= k < |os| - 1 ==> os[k] == init[k];
    }
  }

  /** `import_corrections`: no file without rows to read; a corrections
      document only when at least one correction was found. */
  datatype CorrectionsDoc = CorrectionsDoc(totalCorrections: nat, corrections: seq<Correction>, importIssues: seq<Issue>)

  function ImportCorrections(sheet: Option<seq<ImportRow>>): (r: Option<CorrectionsDoc>)
    ensures sheet.None? ==> r.None?
    ensures sheet.Some? ==> (r.Some? <==> ImportRows(sheet.value).corrections != [])
    ensures r.Some? ==> r.value.totalCorrections == |r.value.corrections|
                        && r.value.corrections == ImportRows(sheet.value).corrections
                        && r.value.importIssues == ImportRows(sheet.value).issues
  {
    match sheet
    case None => None
    case Some(rows) =>
      var res := ImportRows(rows);
      if res.corrections == [] then None
      else Some(CorrectionsDoc(|res.corrections|, res.corrections, res.issues))
  }

  // ---------------------------------------------------------------------
  // Round trips
  // ---------------------------------------------------------------------

  /** An exported row read back unedited yields no correction and no
      issue: every reviewer column is empty. */
  lemma UneditedRowSkipped(c: Categorization)
    ensures ProcessRow(AsRead(ExportRow(c))) == Skipped
  {
    var row := AsRead(ExportRow(c));
    assert Cell(row, CorrectedTitle) == Some("");
    assert Cell(row, CorrectedCategory) == Some("");
    assert Cell(row, CorrectedIsRecipe) == Some("");
    assert Cell(row, ReviewNotes) == Some("");
    assert Strip("") == [];
    assert Lower("") == "";
  }

  /** Exporting and importing with no edits finds zero corrections and
      zero issues. */
  lemma ZeroEditRoundTrip(cats: seq<Categorization>)
    ensures ImportRows(Reread(ExportRows(cats))) == ImportResult([], [])
  {
    var os := Outcomes(Reread(ExportRows(cats)));
    forall k | 0 <= k < |os| ensures os[k] == Skipped {
      UneditedRowSkipped(cats[k]);
    }
    CollectAllSkipped(os);
  }

  /** Rows that all skip leave nothing behind. */
  lemma {:induction false} CollectAllSkipped(os: seq<RowOutcome>)
    requires forall k :: 0 <= k < |os| ==> os[k] == Skipped
    ensures Collect(os) == ImportResult([], [])
    decreases |os|
  {
    if os != [] {
      CollectAllSkipped(os[..|os| - 1]);
    }
  }

  /** Every exported row read back. */
  function Reread(rows: seq<SheetRow>): (r: seq<ImportRow>)
    ensures |r| == |rows|
    ensures forall i :: 0 <= i < |rows| ==> r[i] == AsRead(rows[i])
  {
    seq(|rows|, i requires 0 <= i < |rows| => AsRead(rows[i]))
  }

  /** A reviewer who types a new title into an exported row whose index is
      set produces exactly one correction, a title correction. */
  lemma TitleEditRoundTrip(c: Categorization, typed: string)
    requires c.recipeIndex.Some?
    requires Strip(typed) != [] && Strip(typed) != c.originalTitle.GetOr("")
    ensures ProcessRow(AsRead(ExportRow(c)[CorrectedTitle := typed]))
            == Corrected(Correction(c.recipeIndex.value, Some(c.recordId.GetOr("")), Some(c.originalTitle.GetOr("")),
                                    Corrections(Some(Strip(typed)), None, None, None)))
  {
    var row := AsRead(ExportRow(c)[CorrectedTitle := typed]);
    EditedRowCells(c, typed);
    TitleEditedRow(row, typed, c.recipeIndex.value, c.recordId.GetOr(""), c.originalTitle.GetOr(""));
  }

  /** The cells of a row whose only reviewer entry is a new title. */
  predicate TitleEdited(row: ImportRow, typed: string, n: int, id: string, original: string) {
    && Cell(row, CorrectedTitle) == Some(typed)
    && Cell(row, CorrectedCategory) == Some("") && Cell(row, CorrectedIsRecipe) == Some("")
    && Cell(row, ReviewNotes) == Some("")
    && Cell(row, OriginalTitle) == Some(original)
    && Cell(row, RecipeIndex) == Some(IntToString(n))
    && Cell(row, RecordId) == Some(id)
  }

  /** An exported row with a typed title has those cells. */
  lemma EditedRowCells(c: Categorization, typed: string)
    requires c.recipeIndex.Some?
    ensures TitleEdited(AsRead(ExportRow(c)[CorrectedTitle := typed]), typed, c.recipeIndex.value,
                        c.recordId.GetOr(""), c.originalTitle.GetOr(""))
  {
    EditedCell(c, CorrectedTitle, typed);
    EditedCell(c, CorrectedCategory, typed);
    EditedCell(c, CorrectedIsRecipe, typed);
    EditedCell(c, ReviewNotes, typed);
    EditedCell(c, OriginalTitle, typed);
    EditedCell(c, RecipeIndex, typed);
    EditedCell(c, RecordId, typed);
  }

  /** Processing a row whose only reviewer entry is a new title. */
  lemma TitleEditedRow(row: ImportRow, typed: string, n: int, id: string, original: string)
    requires TitleEdited(row, typed, n, id, original)
    requires Strip(typed) != [] && Strip(typed) != original
    ensures ProcessRow(row) == Corrected(Correction(n, Some(id), Some(original), Corrections(Some(Strip(typed)), None, None, None)))
  {
    OnlyTitleFixes(row, typed);
    IndexedRow(row, n);
  }

  /** A title-only correction is a dictionary with the single key
      `title`. */
  lemma TitleOnlyKeys(t: string)
    ensures Corrections(Some(t), None, None, None).Keys() == [TitleFix]
  {
  }

  /** A cell of an exported row whose new-title cell was typed into. */
  lemma EditedCell(c: Categorization, col: Column, typed: string)
    ensures Cell(AsRead(ExportRow(c)[CorrectedTitle := typed]), col)
            == Some(if col == CorrectedTitle then typed else CellText(c, col))
  {
  }

  /** A row whose only reviewer entry is a new title yields exactly a
      title correction. */
  lemma OnlyTitleFixes(row: ImportRow, typed: string)
    requires Cell(row, CorrectedTitle) == Some(typed)
    requires Cell(row, CorrectedCategory) == Some("") && Cell(row, CorrectedIsRecipe) == Some("")
    requires Cell(row, ReviewNotes) == Some("")
    requires Strip(typed) != [] && Some(Strip(typed)) != Cell(row, OriginalTitle)
    ensures ReadFixes(row) == Some(Corrections(Some(Strip(typed)), None, None, None))
  {
    assert Strip("") == [];
    assert Lower("") == "";
  }

  /** A row whose index cell is the rendering of `n` and that carries
      corrections is corrected under index `n`. */
  lemma IndexedRow(row: ImportRow, n: int)
    requires Cell(row, RecipeIndex) == Some(IntToString(n))
    requires ReadFixes(row).Some? && !ReadFixes(row).value.Empty()
    ensures ProcessRow(row) == Corrected(Correction(n, Cell(row, RecordId), Cell(row, OriginalTitle), ReadFixes(row).value))
  {
    ParseIntOfIntToString(n);
    IntToStringTrimmed(n);
  }

  /** The decimal rendering of an integer has no surrounding whitespace
      and is never blank. */
  lemma IntToStringTrimmed(n: int)
    ensures Strip(IntToString(n)) == IntToString(n) && IntToString(n) != []
  {
    var s := IntToString(n);
    var m: nat := if n < 0 then -n else n;
    DigitsNotSpace(NatToString(m));
    assert !IsSpace(s[0]) && !IsSpace(s[|s| - 1]);
    StripTrimmed(s);
  }

  /** A categorization exported without a recipe index (the analyzer never
      sets one unless the model's reply carries it) comes back as nothing,
      whatever the reviewer typed into the row. */
  lemma EditsWithoutIndexDropped(c: Categorization, edits: map<Column, string>)
    requires c.recipeIndex.None?
    requires RecipeIndex !in edits
    ensures ProcessRow(AsRead(ExportRow(c) + edits)) == Skipped
  {
    var row := AsRead(ExportRow(c) + edits);
    assert Cell(row, RecipeIndex) == Some("");
    assert Strip("") == [];
  }

  // ---------------------------------------------------------------------
  // Summaries
  // ---------------------------------------------------------------------

  /** The four review priorities (absent fields default as in the source:
      a recipe, no title problem, quality and confidence 5). */
  predicate NonRecipe(c: Categorization) { !c.isRecipe.GetOr(true) }
  predicate NeedsTitle(c: Categorization) { c.titleNeedsImprovement.GetOr(false) }
  predicate LowQuality(c: Categorization) { c.qualityScore.GetOr(5) <= 2 }
  predicate LowConfidence(c: Categorization) { c.confidence.GetOr(5) <= 2 }

  /** The review flags a potential-issue entry may list. */
  datatype Flag = MarkedAsNonRecipe | TitleNeedsImprovementFlag | LowQualityFlag | LowConfidenceFlag {
    function Name(): string {
      match this
      case MarkedAsNonRecipe => "marked_as_non_recipe"
      case TitleNeedsImprovementFlag => "title_needs_improvement"
      case LowQualityFlag => "low_quality"
      case LowConfidenceFlag => "low_confidence"
    }
  }

  /** The review flags of one categorization, in the fixed order
      non-recipe, title, low quality, low confidence. */
  function Flags(c: Categorization): (fs: seq<Flag>)
    ensures MarkedAsNonRecipe in fs <==> NonRecipe(c)
    ensures TitleNeedsImprovementFlag in fs <==> NeedsTitle(c)
    ensures LowQualityFlag in fs <==> LowQuality(c)
    ensures LowConfidenceFlag in fs <==> LowConfidence(c)
    ensures fs == [] <==> !(NonRecipe(c) || NeedsTitle(c) || LowQuality(c) || LowConfidence(c))
    ensures forall i, j :: 0 <= i < j < |fs| ==> FlagRank(fs[i]) < FlagRank(fs[j])
  {
    (if NonRecipe(c) then [MarkedAsNonRecipe] else [])
    + (if NeedsTitle(c) then [TitleNeedsImprovementFlag] else [])
    + (if LowQuality(c) then [LowQualityFlag] else [])
    + (if LowConfidence(c) then [LowConfidenceFlag] else [])
  }

  /** Position of a flag in the fixed listing order. */
  function FlagRank(f: Flag): nat {
    match f
    case MarkedAsNonRecipe => 0
    case TitleNeedsImprovementFlag => 1
    case LowQualityFlag => 2
    case LowConfidenceFlag => 3
  }

  /** One entry of `potential_issues`. */
  datatype PotentialIssue = PotentialIssue(
    recipeIndex: Option<int>, title: Option<string>, issues: seq<Flag>, reasoning: string)

  /** The summary report (the timestamp is left out). The category key is
      `None` for a JSON `null` category. */
  datatype ReviewSummary = ReviewSummary(
    totalRecipes: nat,
    nonRecipes: nat,
    titleImprovements: nat,
    lowQuality: nat,
    lowConfidence: nat,
    categoryDistribution: Tally.Tally<Option<string>>,
    potentialIssues: seq<PotentialIssue>)

  /** Number of categorizations satisfying `p`. */
  function CountWhere(cats: seq<Categorization>, p: Categorization -> bool): (n: nat)
    ensures n <= |cats|
    decreases |cats|
  {
    if cats == [] then 0
    else CountWhere(cats[..|cats| - 1], p) + (if p(cats[|cats| - 1]) then 1 else 0)
  }

  /** The category key: "Unknown" when the field is missing. */
  function CategoryKey(c: Categorization): Option<string> {
    c.primaryCategory.Get(Some("Unknown"))
  }

  function CategoryKeys(cats: seq<Categorization>): (ks: seq<Option<string>>)
    ensures |ks| == |cats|
    ensures forall i :: 0 <= i < |cats| ==> ks[i] == CategoryKey(cats[i])
  {
    seq(|cats|, i requires 0 <= i < |cats| => CategoryKey(cats[i]))
  }

  function IssueEntry(c: Categorization): PotentialIssue {
    PotentialIssue(c.recipeIndex, c.originalTitle, Flags(c), c.reasoning.GetOr(""))
  }

  /** The potential-issue entries: one per flagged categorization, in order. */
  function PotentialIssues(cats: seq<Categorization>): (ps: seq<PotentialIssue>)
    ensures |ps| <= |cats|
    ensures forall p :: p in ps ==> p.issues != []
    decreases |cats|
  {
    if cats == [] then []
    else
      var c := cats[|cats| - 1];
      PotentialIssues(cats[..|cats| - 1]) + (if Flags(c) != [] then [IssueEntry(c)] else [])
  }

  /** `generate_review_summary` over loaded categorizations. */
  function ReviewSummaryOf(cats: seq<Categorization>): (s: ReviewSummary)
    ensures s.totalRecipes == |cats|
    ensures s.nonRecipes <= s.totalRecipes && s.titleImprovements <= s.totalRecipes
    ensures s.lowQuality <= s.totalRecipes && s.lowConfidence <= s.totalRecipes
  {
    ReviewSummary(
      |cats|,
      CountWhere(cats, NonRecipe),
      CountWhere(cats, NeedsTitle),
      CountWhere(cats, LowQuality),
      CountWhere(cats, LowConfidence),
      Tally.TallyOf(CategoryKeys(cats)),
      PotentialIssues(cats))
  }

  /** The category distribution counts every categorization once, and a
      categorization has a potential-issue entry iff at least one flag
      fires. */
  lemma ReviewSummaryShape(cats: seq<Categorization>)
    ensures Tally.Sum(ReviewSummaryOf(cats).categoryDistribution) == |cats|
    ensures forall c :: c in cats && Flags(c) != [] ==> IssueEntry(c) in ReviewSummaryOf(cats).potentialIssues
    ensures forall p :: p in ReviewSummaryOf(cats).potentialIssues ==>
              exists c :: c in cats && Flags(c) != [] && p == IssueEntry(c)
  {
    Tally.TallyOfCounts(CategoryKeys(cats));
    PotentialIssuesExact(cats);
  }

  lemma {:induction false} PotentialIssuesExact(cats: seq<Categorization>)
    ensures forall c :: c in cats && Flags(c) != [] ==> IssueEntry(c) in PotentialIssues(cats)
    ensures forall p :: p in PotentialIssues(cats) ==>
              exists c :: c in cats && Flags(c) != [] && p == IssueEntry(c)
    decreases |cats|
  {
    if cats != [] {
      var init := cats[..|cats| - 1];
      PotentialIssuesExact(init);
      assert cats == init + [cats[|cats| - 1]];
    }
  }

  /** Positions of `cats` whose categorization satisfies `p`. */
  function Positions(cats: seq<Categorization>, p: Categorization -> bool): set<nat> {
    set i: nat | i < |cats| && p(cats[i])
  }

  /** Each review priority counts exactly the positions whose condition
      holds, which are those carrying the matching flag. */
  lemma ReviewSummaryCounts(cats: seq<Categorization>)
    ensures ReviewSummaryOf(cats).nonRecipes == |Positions(cats, NonRecipe)|
    ensures ReviewSummaryOf(cats).titleImprovements == |Positions(cats, NeedsTitle)|
    ensures ReviewSummaryOf(cats).lowQuality == |Positions(cats, LowQuality)|
    ensures ReviewSummaryOf(cats).lowConfidence == |Positions(cats, LowConfidence)|
  {
    CountWherePositions(cats, NonRecipe);
    CountWherePositions(cats, NeedsTitle);
    CountWherePositions(cats, LowQuality);
    CountWherePositions(cats, LowConfidence);
  }

  /** `CountWhere` is the number of positions whose categorization
      satisfies `p`. */
  lemma {:induction false} CountWherePositions(cats: seq<Categorization>, p: Categorization -> bool)
    ensures CountWhere(cats, p) == |Positions(cats, p)|
    decreases |cats|
  {
    if cats != [] {
      var n := |cats| - 1;
      var init := cats[..n];
      CountWherePositions(init, p);
      if p(cats[n]) {
        assert Positions(cats, p) == Positions(init, p) + {n};
      } else {
        assert Positions(cats, p) == Positions(init, p);
      }
    }
  }

  /** The correction types of all corrections, in order, one per key. */
  function CorrectionKeys(cs: seq<Correction>): seq<CorrectionType>
    decreases |cs|
  {
    if cs == [] then [] else CorrectionKeys(cs[..|cs| - 1]) + cs[|cs| - 1].corrections.Keys()
  }

  /** The correction-type counter of the corrections summary. */
  function CorrectionTypes(cs: seq<Correction>): Tally.Tally<CorrectionType> {
    Tally.TallyOf(CorrectionKeys(cs))
  }

  /** Number of corrections that include a correction of type `t`. */
  function CountIncluding(cs: seq<Correction>, t: CorrectionType): nat
    decreases |cs|
  {
    if cs == [] then 0
    else CountIncluding(cs[..|cs| - 1], t) + (if t in cs[|cs| - 1].corrections.Keys() then 1 else 0)
  }

  /** The corrections summary counts, per correction type, the corrections
      that include it, and lists only types that occur. */
  lemma CorrectionTypesCount(cs: seq<Correction>)
    ensures forall t :: Tally.Get(CorrectionTypes(cs), t) == CountIncluding(cs, t)
    ensures Tally.Sum(CorrectionTypes(cs)) == |CorrectionKeys(cs)|
  {
    Tally.TallyOfCounts(CorrectionKeys(cs));
    forall t ensures Tally.Occurrences(CorrectionKeys(cs), t) == CountIncluding(cs, t) {
      OccurrencesIncluding(cs, t);
    }
  }

  lemma {:induction false} OccurrencesIncluding(cs: seq<Correction>, t: CorrectionType)
    ensures Tally.Occurrences(CorrectionKeys(cs), t) == CountIncluding(cs, t)
    decreases |cs|
  {
    if cs != [] {
      var init := cs[..|cs| - 1];
      OccurrencesIncluding(init, t);
      var ks := cs[|cs| - 1].corrections.Keys();
      Tally.OccurrencesAppend(CorrectionKeys(init), ks, t);
      Tally.OccurrencesDistinct(ks, t);
    }
  }
}
