# Recipe organizer core, modelled in Dafny

The recipe organizer pulls a recipe collection out of a Notion database. It
asks a language model to categorize each recipe (category, cuisine, dietary
and usage tags, title quality), and hands the results to a person for review
through a spreadsheet. It then writes the reviewed data back into Notion: new
AI properties on the database, and improved titles on its pages. This project
models the deterministic logic around those two services and proves what it
promises. The language model and the Notion API are parameters: functions
from a request to an outcome.

| module | file | what it models |
|---|---|---|
| `Wrappers` | `wrappers.dfy` | `Option` and `Result` |
| `PyStr` | `pystr.dfy` | the Python built-ins the logic uses: `strip`, `lower`, `split`, `join`, `replace`, `int()`, `str()`, prefix slices, truthiness |
| `Tally` | `tally.dfy` | insertion-ordered counters (`defaultdict(int)`, `Counter`) |
| `Values` | `json.dfy` | loosely typed settings, profile entries, options and saved documents |
| `Records` | `records.dfy` | the extracted recipe and the categorization the model returns |
| `Config` | `config.dfy` | configuration from the environment and the required-credentials check |
| `Profiles` | `profiles.dfy` | analysis profiles, shortcuts and default settings |
| `ConfigLoader` | `config_loader.dfy` | the vocabulary files and their prompt fragments |
| `Analyzer` | `analyzer.dfy` | collection statistics and the categorization pass |
| `Reviewer` | `reviewer.dfy` | spreadsheet export, correction import and the review summary |
| `AnalyzeCmd` | `analyze_cmd.dfy` | the `analyze` command: settings resolution, range parsing, the run and the save |
| `NotionClient` | `notion_client.dfy` | id cleaning, property flattening, title extraction and paged record queries |
| `NotionUtils` | `notion_utils.dfy` | reading and writing text properties |
| `Enhance` | `enhance.dfy` | in-place database enhancement: the plan, the statistics, schema payloads and record updates |
| `TitleImprovements` | `title_improvements.dfy` | applying proposed titles |
| `FileUtils` | `file_utils.dfy` | default paths and the saved-document dictionary |
| `Pipeline` | `pipeline.dfy` | the multi-step pipeline: validation, step calls, early stop, restart advice, the shared client |

Design decisions:

- Python's three states of a JSON field are kept apart (`Nullable`: absent,
  `null`, present). `d.get(k, default)` falls back only for a missing key.
- A key the program spells out is a constructor of `Values.Key`. Any other
  key is `Named` with its text.
- Dictionaries whose order shows in the output are sequences of pairs. This
  covers YAML sections, Notion property lists and counters.
- A sample size wins over a range in `analyze`, as the command's warning
  at `src/commands/analyze_cmd.py:141` says
  (`AnalyzeCmd.SampleWinsOverRange`).
- The step list of the pipeline is the three names in
  `src/pipeline.py:128`. `create-enhanced-database` is not a step, whatever
  the integration tests expect.
- The analyzer never stamps `recipe_index` on a categorization. The export's
  `recipe_index` column is therefore always empty, and re-importing an edited
  sheet drops every edit (`Reviewer.EditsWithoutIndexDropped`).

## Model

| member | source | states |
|---|---|---|
| Config.FromEnv | src/config.py:40-59 | loading succeeds exactly when `MAX_RETRIES` (default `"3"`) is an integer literal; the token, endpoint and key come from their variables (default empty); the database id is present iff its variable is set |
| Config.Missing | src/config.py:63-70 | the missing credentials are exactly the empty ones, listed in checking order |
| Config.ValidateRequired | src/config.py:61-75 | validation passes iff the token, endpoint and key are all non-empty; otherwise the message is the fixed prefix followed by the missing names joined by `", "` |
| Config.EmptyEnvironment | src/config.py:27-37 | with nothing set, every field takes its default: deployment `gpt-4.1`, version `2025-04-01-preview`, log level `INFO`, data dir `data`, 3 retries |
| Config.NothingSet | src/config.py:63-75 | with no credential set, the message names `NOTION_TOKEN`, `AZURE_OPENAI_ENDPOINT`, `AZURE_OPENAI_KEY` in that order |
| Config.ValidationIgnoresOthers | src/config.py:61-75 | the database id, deployment, version and other settings never change the verdict |
| Profiles.LoadCached | src/notion_client/profile_loader.py:23-42 | a cached document is returned as is; otherwise a readable file's document is returned and cached, and a missing or unreadable file gives the built-in document and leaves the cache empty |
| Profiles.CachedDocumentStays | src/notion_client/profile_loader.py:23-42 | once a document has been read or cached, every later load returns that same document, whatever the file has become |
| Profiles.ListedProfilesFound | src/notion_client/profile_loader.py:44-91 | when the listing succeeds, a profile is listed iff `get_profile_settings` finds it, and the listing shows that profile's own description or "No description" |
| Profiles.ListedShortcutsOnly | src/notion_client/profile_loader.py:55-104 | when the listing succeeds, a shortcut that names a profile is listed, and an unlisted name names none |
| Profiles.DefaultSettings | src/notion_client/profile_loader.py:65-80 | a non-empty `flag_defaults` wins; otherwise a non-empty `default` profile, description included; otherwise the fallback defaults |
| Profiles.ApplyProfile | src/notion_client/profile_loader.py:106-121 | an unknown or empty profile leaves the base unchanged; otherwise the result has the base's keys plus the profile's keys except `description`, profile values winning and every other base value kept |
| Profiles.Descriptions | src/notion_client/profile_loader.py:82-104 | the listing raises iff some entry is not a dictionary; otherwise one entry per profile or shortcut, holding its description, or "No description" when it has none |
| Profiles.BuiltInDefaults | src/notion_client/profile_loader.py:152-169 | the built-in `flag_defaults` equal the fallback defaults, so without a usable file the defaults are the fallback |
| Profiles.BuiltInShortcuts | src/notion_client/profile_loader.py:148-151 | the built-in shortcut `quick` names profile `quick`, `test` names `testing`, and no other shortcut exists |
| Profiles.BuiltInQuickProfile | src/notion_client/profile_loader.py:135-139 | applying the built-in `quick` profile turns `use_llm` and `include_content_review` off and keeps every other setting |
| Profiles.QuickProfileBuiltIn | src/notion_client/profile_loader.py:135-139 | the default profiles' `quick` entry holds a description and turns both language-model switches off |
| Profiles.ApplyQuickProfile | src/notion_client/profile_loader.py:135-139 | any profile with the `quick` entries turns `use_llm` and `include_content_review` off and keeps every other setting |
| ConfigLoader.SectionNames | src/notion_client/config_loader.py:72-85 | the primary categories, cuisine types and dietary tag names are the entry names of their section in file order, none when the section is missing |
| ConfigLoader.AutoAssignableUsageTags | src/notion_client/config_loader.py:87-96 | a name is returned iff some usage tag of that name has `assignment: auto`; no usage tags section gives none |
| ConfigLoader.AutoTagsAppend | src/notion_client/config_loader.py:92-94 | the filter keeps section order: the tags of two concatenated sections are the tags of each, in order |
| ConfigLoader.DetailShown | src/notion_client/config_loader.py:109-112 | among detail lines of distinct kinds, a detail's line is present iff the entry's field for it is truthy |
| ConfigLoader.ItemLines | src/notion_client/config_loader.py:108-112 | an entry contributes its header `- **name**: description` followed by one line per truthy detail |
| ConfigLoader.ItemDetails | src/notion_client/config_loader.py:103-145 | under an entry's header a category shows criteria and examples, a cuisine its indicators, a dietary tag its criteria and note, each exactly when the field is truthy |
| ConfigLoader.FormatForPrompt | src/notion_client/config_loader.py:98-147 | a missing section formats as the empty text |
| ConfigLoader.LinesAppend | src/notion_client/config_loader.py:103-114 | the lines of concatenated sections are the lines of each section in order |
| ConfigLoader.LineCount | src/notion_client/config_loader.py:103-114 | the formatted text has one header line per entry plus one line per truthy detail |
| ConfigLoader.LinesSingle | src/notion_client/config_loader.py:103-114 | when names and fields hold no newline, no formatted line holds one |
| ConfigLoader.FormatRoundTrip | src/notion_client/config_loader.py:114 | splitting the formatted text of a non-empty section on newlines gives back exactly its lines |
| Analyzer.CountWithUrlsExact | src/notion_client/analyzer.py:64-68 | the URL count is exactly the number of records whose url is non-empty and not "No URL" |
| Analyzer.CountWithTagsExact | src/notion_client/analyzer.py:79-82 | the tag count is exactly the number of records whose tag list is non-empty |
| Analyzer.CountsAppend | src/notion_client/analyzer.py:63-82 | the URL and tag counts of two collections joined are the sums of their counts |
| Analyzer.TitlesMembers | src/notion_client/analyzer.py:86-90 | a title is collected iff it is non-empty and some record carries it |
| Analyzer.TitlesAppend | src/notion_client/analyzer.py:63-90 | the titles of two collections joined are the first's followed by the second's, so titles keep record order |
| Analyzer.AnalyzeBasicStats | src/notion_client/analyzer.py:50-95 | the total is the number of records; the URL count is the number of records with a usable URL, the tag count the number with a non-empty tag list; a title is collected iff it is non-empty and some record carries it |
| Analyzer.AllTagsLength | src/notion_client/analyzer.py:83-85 | the tag occurrences gathered record by record number exactly the per-record tag counts summed |
| Analyzer.BasicStatsTags | src/notion_client/analyzer.py:79-93 | the unique tags are exactly the keys of the usage counter, the counter sums to the number of tag occurrences, and each tag's count is its number of occurrences |
| Analyzer.ReplyContribution | src/notion_client/analyzer.py:176-186 | one more record adds to the categorizations exactly the stamped payload of a parsed, non-empty reply, and nothing for invalid JSON, a service error or an empty object |
| Analyzer.Stamp | src/notion_client/analyzer.py:183-186 | a kept reply carries the record's title ("Untitled" when absent), its existing tags and its record id ("" when absent), and keeps its category, cuisine and dietary tags |
| Analyzer.Sampled | src/notion_client/analyzer.py:147-149 | the analysed records are a prefix: a positive size keeps the first that many, a negative size drops that many from the end, and no size or 0 keeps them all |
| Analyzer.CategoryKeysMembers | src/notion_client/analyzer.py:191-194 | a category is counted iff some categorization has it as its truthy primary category |
| Analyzer.KeysAppend | src/notion_client/analyzer.py:189-198 | the category and cuisine keys of two lists joined are the first's followed by the second's, so keys keep categorization order |
| Analyzer.CuisineKeysMembers | src/notion_client/analyzer.py:195-198 | a cuisine is counted iff some categorization has it as its truthy cuisine type |
| Analyzer.CategorizeRecipes | src/notion_client/analyzer.py:141-202 | the total is the sampled count; the categorizations are exactly the successful stamped replies in record order; each distribution counts exactly its keys over those categorizations |
| Analyzer.Absorb | src/notion_client/analyzer.py:183-200 | one successful reply is appended and the three distributions stay the exact counts of the kept categorizations |
| Analyzer.CountAll | src/notion_client/analyzer.py:199-200 | counting each dietary tag continues the exact count over the tags seen so far |
| Analyzer.SnocTally | src/notion_client/analyzer.py:192-200 | counting one more key is one increment of that key's count |
| Analyzer.SuccessesFromRecords | src/notion_client/analyzer.py:170-188 | there are no more categorizations than analysed records, and each is the stamped reply of some analysed record |
| Analyzer.OutcomeStamped | src/notion_client/analyzer.py:181-186 | a kept categorization came from a parsed, non-empty reply and carries its record's title, tags and id |
| Analyzer.FailureLeavesNoTrace | src/notion_client/analyzer.py:181-183 | a record whose reply fails or is empty adds nothing to the categorizations |
| Analyzer.DistributionTotals | src/notion_client/analyzer.py:190-200 | the category and cuisine counts each sum to at most the number of categorizations, and each dietary tag is counted once per occurrence |
| Analyzer.DietaryIncrement | src/notion_client/analyzer.py:199-200 | one more categorization adds to each dietary tag exactly its occurrences in that categorization |
| Reviewer.IssuesOnly | src/notion_client/reviewer.py:91-98 | the issues-only filter keeps at most the input's categorizations, in order |
| Reviewer.IssuesOnlyMembers | src/notion_client/reviewer.py:92-98 | a categorization is kept iff it is in the input and is not a recipe (absent means it is one), needs a better title (absent means no), or has a quality score below 3 (absent counts as 5) |
| Reviewer.CellText | src/notion_client/reviewer.py:140-164 | the five reviewer columns are exported empty |
| Reviewer.ExportRow | src/notion_client/reviewer.py:139-165 | an exported row fills every column of the sheet with that column's cell text |
| Reviewer.ColumnsComplete | src/notion_client/reviewer.py:111-133 | every column of the row is one of the header's field names |
| Reviewer.ExportRows | src/notion_client/reviewer.py:139-165 | one row per exported categorization, in order |
| Reviewer.ExportToCsv | src/notion_client/reviewer.py:69-172 | a sheet is written iff the report loads, is non-empty and holds categorizations; it has the fixed header, is named by the mode, and holds all rows or only the issue rows |
| Reviewer.AsRead | src/notion_client/reviewer.py:185-191 | reading a written row back gives each of its cells unchanged, for cells without a carriage return |
| Reviewer.TextFix | src/notion_client/reviewer.py:719-729 | a title or category correction is recorded iff the stripped entry is non-empty and differs from the original cell, and it is the stripped entry |
| Reviewer.FlagFix | src/notion_client/reviewer.py:731-736 | an is-recipe correction is recorded iff the entry reads `true` or `false` after strip and lower-casing and differs from the original cell read the same way; its value is whether it reads `true` |
| Reviewer.NotesFix | src/notion_client/reviewer.py:738-741 | review notes are recorded iff their stripped text is non-empty, as that text |
| Reviewer.ReadFixes | src/notion_client/reviewer.py:717-741 | the corrections are read iff all four reviewer cells are present, and are the four field corrections in source order |
| Reviewer.ProcessRow | src/notion_client/reviewer.py:710-758 | every row has one outcome: a missing index cell, or a missing reviewer cell under a non-blank index, fails with the `NoneType` `strip` message; a blank index or no corrections skips the row; corrections under an index `int()` accepts (any spacing or sign it allows) give a correction carrying that integer, the corrections, the record id and title; corrections under an index it rejects fail with its message |
| Reviewer.BadIndexFails | src/notion_client/reviewer.py:744-758 | a row with corrections but a non-integer index fails with the message naming that index |
| Reviewer.Collect | src/notion_client/reviewer.py:188-193 | no more corrections plus issues than rows, and every issue's row number lies between 2 and the number of rows plus 1 |
| Reviewer.CollectExact | src/notion_client/reviewer.py:188-193 | issues are in row order, every failed row is reported as its number and message, every corrected row's correction is kept: processing continues past a failure |
| Reviewer.CollectOnlyFrom | src/notion_client/reviewer.py:188-193 | every issue comes from a failed row and every correction from a corrected row |
| Reviewer.ImportCorrections | src/notion_client/reviewer.py:174-231 | no sheet gives nothing; a corrections document is written iff some correction was found, and it holds all corrections, their count and all issues |
| Reviewer.UneditedRowSkipped | src/notion_client/reviewer.py:159-163 | an exported row read back unedited yields neither a correction nor an issue |
| Reviewer.ZeroEditRoundTrip | src/notion_client/reviewer.py:139-193 | exporting and importing with no edits finds no correction and no issue |
| Reviewer.TitleEditRoundTrip | src/notion_client/reviewer.py:713-750 | typing a new title into an exported row with an index yields exactly one correction: the stripped title and nothing else, under that index, record id and original title |
| Reviewer.TitleEditedRow | src/notion_client/reviewer.py:713-750 | a row whose only filled correction cell is a new title, with an index, id and original title, imports as that single title correction |
| Reviewer.TitleOnlyKeys | src/notion_client/reviewer.py:722-746 | such a correction's dictionary has the single key `title` |
| Reviewer.OnlyTitleFixes | src/notion_client/reviewer.py:719-741 | a row whose only reviewer entry is a new title reads as a title correction alone |
| Reviewer.IndexedRow | src/notion_client/reviewer.py:713-750 | a row whose index cell renders the integer `n` and that has corrections is corrected under index `n` |
| Reviewer.EditsWithoutIndexDropped | src/notion_client/reviewer.py:141 | a categorization exported without a recipe index is skipped on import whatever the reviewer typed into the other cells |
| Reviewer.Flags | src/notion_client/reviewer.py:827-836 | each of the four flags is listed iff its condition holds, in the fixed order non-recipe, title, low quality, low confidence; no flag iff none holds |
| Reviewer.PotentialIssues | src/notion_client/reviewer.py:826-846 | at most one entry per categorization, and each entry lists at least one flag |
| Reviewer.ReviewSummaryOf | src/notion_client/reviewer.py:794-817 | the total is the number of categorizations and each priority count is at most that total; the exact counts are stated by `Reviewer.ReviewSummaryCounts` |
| Reviewer.ReviewSummaryShape | src/notion_client/reviewer.py:819-846 | the category distribution counts every categorization once, and a categorization has a potential-issue entry iff at least one flag fires |
| Reviewer.ReviewSummaryCounts | src/notion_client/reviewer.py:796-813 | each review priority (non-recipes, title improvements, low quality, low confidence) is exactly the number of categorizations meeting its condition |
| Reviewer.CountWherePositions | src/notion_client/reviewer.py:796-813 | a filtered count is the number of positions whose categorization satisfies the condition |
| Reviewer.CorrectionTypesCount | src/notion_client/reviewer.py:767-770 | the corrections summary counts, per correction type, the corrections that include it, and its counts sum to the number of keys |
| AnalyzeCmd.QuickStep | src/commands/analyze_cmd.py:83-91 | without `--quick` the settings are unchanged; with it, the `quick` shortcut's profile is applied when the shortcut names one, and otherwise both language-model switches are turned off |
| AnalyzeCmd.QuickUsesShortcutProfile | src/commands/analyze_cmd.py:83-91 | with `--quick`, a `quick` shortcut naming a known, non-empty profile lays that profile's entries, its description aside, over the settings |
| AnalyzeCmd.WithDefaultProfile | src/notion_client/profile_loader.py:65-77 | after the in-place update, the document's `default` profile is the updated settings dictionary |
| AnalyzeCmd.DocAfterQuick | src/commands/analyze_cmd.py:81-91 | the profiles document seen by step 3 is unchanged unless `--quick` updated the `default` profile that step 1 handed out |
| AnalyzeCmd.SampleStep | src/commands/analyze_cmd.py:97-102 | a non-zero `--sample` sets `sample_size` and removes both indices; otherwise nothing changes |
| AnalyzeCmd.ParseRange | src/commands/analyze_cmd.py:105-114 | a range parses iff it splits on `-` into exactly two parts that are both integer literals |
| AnalyzeCmd.RangeBounds | src/commands/analyze_cmd.py:104-120 | a non-empty `--range` that does not parse fails the command; without one, the separate start and end flags are used |
| AnalyzeCmd.OverrideOf | src/commands/analyze_cmd.py:116-130 | only the option keys can be overridden |
| AnalyzeCmd.OverridesGet | src/commands/analyze_cmd.py:116-130 | a key is present after step 6 exactly when it was before or its option was given; a given option's value wins, and every other value is kept |
| AnalyzeCmd.BasicOnlyStep | src/commands/analyze_cmd.py:132-135 | `--basic-only` turns both language-model switches off; without it nothing changes |
| AnalyzeCmd.BasicOnlyKeeps | src/commands/analyze_cmd.py:132-135 | step 7 loses no key and changes no value but the two switches |
| AnalyzeCmd.SampleOverridesRange | src/commands/analyze_cmd.py:137-143 | with a truthy sample size neither index survives; otherwise nothing changes |
| AnalyzeCmd.SampleOverridesRangeKeeps | src/commands/analyze_cmd.py:137-143 | the final check removes no key but the two indices and changes no value |
| AnalyzeCmd.Resolve | src/commands/analyze_cmd.py:80-143 | settings resolution fails exactly when a given range does not parse |
| AnalyzeCmd.FinishGet | src/commands/analyze_cmd.py:116-143 | after steps 6 and 7 and the final check a key other than the indices holds `False` for a switch under `--basic-only`, else its given option, else what step 4 left |
| AnalyzeCmd.FinishExcludesIndices | src/commands/analyze_cmd.py:137-143 | after the final check a truthy sample size never coexists with an index |
| AnalyzeCmd.FinishIndices | src/commands/analyze_cmd.py:116-119 | when step 4 left no truthy sample size, given bounds are the resulting indices |
| AnalyzeCmd.FinishOptions | src/commands/analyze_cmd.py:120-135 | given batch size, delay and timeout survive step 7 and the final check, and so do the switches without `--basic-only` |
| AnalyzeCmd.SampleStepKeeps | src/commands/analyze_cmd.py:97-102 | step 4 leaves every key but the sample size and the indices as it was |
| AnalyzeCmd.SampleExcludesRange | src/commands/analyze_cmd.py:137-143 | a resolved truthy sample size never coexists with a start or end index |
| AnalyzeCmd.BasicOnlyWins | src/commands/analyze_cmd.py:132-135 | `--basic-only` wins over every other source of the two switches |
| AnalyzeCmd.GivenOptionsWin | src/commands/analyze_cmd.py:116-130 | a given batch size, delay, timeout or switch overrides the profiles, the switches only without `--basic-only` |
| AnalyzeCmd.SampleWinsOverRange | src/commands/analyze_cmd.py:97-143 | a non-zero `--sample` always wins: that sample size and no index, even alongside a valid `--range` |
| AnalyzeCmd.RangeApplied | src/commands/analyze_cmd.py:104-120 | a range that parses sets both indices when no sample size is in play |
| AnalyzeCmd.SwitchesFromProfiles | src/commands/analyze_cmd.py:80-135 | without the switch options or `--basic-only`, the switches are what the defaults, the shortcut and the profile made them |
| AnalyzeCmd.QuickWithoutShortcut | src/commands/analyze_cmd.py:84-91 | `--quick` with no `quick` shortcut, and nothing later touching the switches, leaves statistics only |
| AnalyzeCmd.QuickSticksThroughDefaultProfile | src/commands/analyze_cmd.py:81-95 | `--quick --profile default` stays statistics only when the defaults came from a file's `default` profile, because step 2 updated that very profile |
| AnalyzeCmd.RangeNeedsOneDash | src/commands/analyze_cmd.py:107 | a range without exactly one `-` never parses, so negative bounds cannot be written |
| AnalyzeCmd.RangeRoundTrip | src/commands/analyze_cmd.py:107-109 | the text `a-b` of two non-negative integers parses back to `(a, b)` |
| AnalyzeCmd.LlmArguments | src/commands/analyze_cmd.py:178-187 | the call passes sample size, both indices, batch size, delay (default 0), timeout (default 30) and content review (default on), each taken from the settings when present |
| AnalyzeCmd.SampleArgument | src/notion_client/analyzer.py:147-149 | an integer sample size slices (0 meaning all), a falsy one keeps all records, and any other truthy value fails the slice |
| AnalyzeCmd.DisplayStats | src/notion_client/analyzer.py:97-110 | the statistics display raises exactly when the collection has no records |
| AnalyzeCmd.SaveWithoutLlm | src/commands/analyze_cmd.py:198-214 | the save step of a non-empty run without the language model: a report is saved iff `--output` was given, and it holds the placeholder with the settings used |
| AnalyzeCmd.RunAsWritten | src/commands/analyze_cmd.py:166-214 | as written, an empty collection crashes at the statistics display and nothing else does; a non-empty run without `use_llm` only saves statistics when asked |
| AnalyzeCmd.AnalyzeAsWritten | src/commands/analyze_cmd.py:104-169 | as written, a bad range stops the command and missing input stops it; a loaded document without records crashes; otherwise the run proceeds with the resolved settings |
| AnalyzeCmd.AsWrittenNeverSavesWithLlm | src/commands/analyze_cmd.py:178-196 | as written, with `use_llm` on, the run always ends in a configuration error or the language-model error branch and never saves |
| AnalyzeCmd.Run | src/commands/analyze_cmd.py:166-214 | an empty collection crashes before anything is saved; configuration errors iff the collection is non-empty, `use_llm` is on and validation fails; a report is saved iff `--output` was given or `use_llm` is on, at the resolved output path; with `use_llm` on it holds exactly the categorization results of the sampled records |
| AnalyzeCmd.Analyze | src/commands/analyze_cmd.py:48-214 | a bad range or missing input stops the command before anything runs; it crashes iff the settings resolve and the loaded document has no records; a finished run had valid settings and a non-empty collection |
| NotionClient.CleanId | src/notion_client/client.py:30-61 | the cleaned id holds no `?` or `#`; it is the id cut at the first `?` and then at the first `#` with its hyphens removed, regrouped 8-4-4-4-12 exactly when that leaves 32 characters |
| NotionClient.HyphenateRemove | src/notion_client/client.py:55-59 | removing the hyphens of a regrouped 32-character id gives the id back, and regrouping adds only hyphens |
| NotionClient.CleanIdIdempotent | src/notion_client/client.py:30-61 | cleaning an already cleaned id changes nothing |
| NotionClient.CleanIdOfBare | src/notion_client/client.py:54-61 | a bare id is kept as it is unless it has 32 characters, in which case it comes back grouped |
| NotionClient.ExtractValue | src/notion_client/client.py:214-253 | an empty title or rich-text array and an empty select flatten to `""`, a multi-select to its tag names, a string field to its value, and any other type to its text form |
| NotionClient.ExtractRecordProperties | src/notion_client/client.py:209-255 | every property is flattened, under its own name and in order |
| NotionClient.ExtractTitle | src/notion_client/client.py:300-311 | the title is the first plain text of the first title-typed property with items, "Untitled" when that item has no text or no such property exists; title properties with empty arrays are skipped |
| NotionClient.TitleMatchesExtraction | src/notion_client/client.py:217-220 | when the first titled property's item carries text, the flattened value of that property is the extracted title |
| NotionClient.AppendPageUnlimited | src/notion_client/client.py:131-136 | without a positive limit, every result of a page is collected |
| NotionClient.AppendPageLimited | src/notion_client/client.py:131-136 | with a positive limit not yet reached, a page's results are collected up to the limit |
| NotionClient.FetchUnlimited | src/notion_client/client.py:139-150 | without a limit the loop collects the results of every page it reads, in order, stopping after the last page or before the first error |
| NotionClient.FetchLimited | src/notion_client/client.py:139-150 | with a positive limit the loop collects the same results cut to the limit |
| NotionClient.DatabaseRecords | src/notion_client/client.py:119-160 | the records returned are the results of the pages read up to the first error or the last page, cut to a positive `max_records`; a negative limit gives at most one record |
| NotionClient.ErrorKeepsFirstPage | src/notion_client/client.py:152-160 | an API error on the second query keeps the records of the first page |
| NotionUtils.ExtractText | src/utils/notion_utils.py:6-50 | a string is its own text; `None` and other non-dictionaries read as empty; a dictionary reads the array of the requested type, automatic detection preferring `title` to `rich_text` |
| NotionUtils.CreateTextProperty | src/utils/notion_utils.py:53-68 | one text block holding the content, under `title` for the title type and under `rich_text` for any other |
| NotionUtils.CreateExtractRoundTrip | src/utils/notion_utils.py:6-68 | reading back a created property gives its content for the title, rich-text and automatic types; an unknown type reads nothing |
| NotionUtils.ContentsAppend | src/utils/notion_utils.py:40-47 | the text of concatenated block lists is the concatenation of their texts |
| NotionUtils.SplitBlocks | src/utils/notion_utils.py:40-47 | a text split over two blocks reads back whole |
| Enhance.SchemaOf | src/commands/enhance_database_cmd.py:22-53 | loading the vocabularies fails, with `'NoneType' object has no attribute 'get'`, iff some file is empty (loads as `None`); otherwise the option lists are the entry names of the categories, cuisines, dietary tags and usage tags sections, in file order |
| Enhance.EnhancedProperties | src/commands/enhance_database_cmd.py:174-203 | six properties with distinct names are planned |
| Enhance.ToAdd | src/commands/enhance_database_cmd.py:205-209 | a planned property is added iff its name is not already in the schema |
| Enhance.CreatePlan | src/commands/enhance_database_cmd.py:161-224 | the plan adds exactly the missing properties; the total after is the existing count plus those; statistics are computed iff the analysis is a non-empty document; analysis is reported whenever it was loaded |
| Enhance.TotalAfterCounts | src/commands/enhance_database_cmd.py:220 | `total_properties_after` is the size of the union of the existing and planned names, none counted twice |
| Enhance.DistinctNames | src/commands/enhance_database_cmd.py:205-209 | the properties to add carry as many distinct names as there are properties |
| Enhance.CalculateStats | src/commands/enhance_database_cmd.py:227-252 | totals cover every categorization; `will_enhance` is the smaller of their number and the record count; the distributions count the truthy categories and the non-zero quality scores of the first `record_count` categorizations |
| Enhance.StatsTotals | src/commands/enhance_database_cmd.py:241-250 | the category counts sum to `with_categories` and the quality counts to `with_quality`, neither exceeds `will_enhance`, and no `Score 0` bucket is ever counted |
| Enhance.NoScoreZero | src/commands/enhance_database_cmd.py:247-249 | a zero quality score is never counted |
| Enhance.PayloadOf | src/commands/enhance_database_cmd.py:361-379 | the five known types convert, select and multi-select with their options; any other type is skipped |
| Enhance.SchemaPayloads | src/commands/enhance_database_cmd.py:358-379 | a payload is produced iff its property has a known type, under that property's name |
| Enhance.PlannedPayloads | src/commands/enhance_database_cmd.py:161-209 | every property the plan adds reaches the schema update |
| Enhance.Lookup | src/commands/enhance_database_cmd.py:405-410 | an id is in the lookup iff some categorization carries it |
| Enhance.LookupLast | src/commands/enhance_database_cmd.py:408-410 | the lookup keeps the last categorization carrying each id |
| Enhance.RecordPayload | src/commands/enhance_database_cmd.py:425-475 | each field is written iff its analysis value is truthy, with that value; the proposed title only when the title needs improvement; the source domain iff one was found |
| Enhance.AnalysisEntries | src/commands/enhance_database_cmd.py:406-408 | no analysis, or an empty one, gives no entries |
| Enhance.PopulateEnhancedData | src/commands/enhance_database_cmd.py:396-492 | the count is the number of records that have an analysis entry, a non-empty update and an accepted page update; only such records are updated |
| Enhance.NoAnalysisNoUpdates | src/commands/enhance_database_cmd.py:406-422 | without analysis data no record is updated |
| TitleImprovements.CheckSchema | src/commands/apply_title_improvements_cmd.py:55-67 | the command stops iff `Proposed_Title` is missing, or else iff both `Title` and `Name` are missing; otherwise it writes `Title`, falling back to `Name` |
| TitleImprovements.Sampled | src/commands/apply_title_improvements_cmd.py:74-76 | the records kept are a prefix: a positive N keeps the first N, a negative N drops N from the end, and no sample or 0 keeps them all |
| TitleImprovements.RecordsToUpdate | src/commands/apply_title_improvements_cmd.py:80-104 | each change is for one of the records, carries the record's current title and its stripped proposal, and that proposal is not blank |
| TitleImprovements.ChangedIffProposed | src/commands/apply_title_improvements_cmd.py:84-104 | a record gets a change iff its proposed title is not blank after stripping |
| TitleImprovements.RecordsToUpdateSnoc | src/commands/apply_title_improvements_cmd.py:84-104 | the changes keep record order: one more record appends at most its own change |
| TitleImprovements.UpdateKind | src/commands/apply_title_improvements_cmd.py:180 | the update is always of title or rich-text type |
| TitleImprovements.ChosenFieldWritesTitle | src/commands/apply_title_improvements_cmd.py:62-67 | either field the schema check can choose is written as a title property |
| TitleImprovements.ApplyTitleChanges | src/commands/apply_title_improvements_cmd.py:165-195 | the updates sent are those of the accepted changes, in order, and the success count is their number |
| TitleImprovements.UpdatesExact | src/commands/apply_title_improvements_cmd.py:176-192 | an update is sent iff some change carries it and its update is accepted, so a rejected update skips only its own record |
| TitleImprovements.AllAcceptedAllWritten | src/commands/apply_title_improvements_cmd.py:176-192 | when every update is accepted, every change is written |
| TitleImprovements.WrittenTitleReadsBack | src/commands/apply_title_improvements_cmd.py:179-181 | each title written reads back as the stripped proposal |
| FileUtils.DefaultInputPath | src/utils/file_utils.py:10-12 | the default input lies under the data directory |
| FileUtils.DefaultOutputPath | src/utils/file_utils.py:15-24 | every default output lies under the data directory: the fixed names for the analysis report, the review directory and the raw export, and `processed/<type>.json` for any other type |
| FileUtils.ResolveOutputPath | src/utils/file_utils.py:37-41 | a non-empty provided path always wins; otherwise the type's default |
| FileUtils.ResolveInputFile | src/utils/file_utils.py:27-34 | a path is returned iff the candidate file exists, and it is the provided path or, without one, the default input |
| FileUtils.OtherTypesDistinct | src/utils/file_utils.py:23-24 | two different types outside the fixed three never share a default path |
| FileUtils.SharedDefaults | src/utils/file_utils.py:10-24 | the raw export is written where input is read from by default, and the type `analysis_report` shares the analysis report's path |
| FileUtils.DefaultEntries | src/utils/file_utils.py:56-57 | the export time and record count: the length of `records` when present, 0 when absent, and an error when `records` has no length |
| FileUtils.ExportData | src/utils/file_utils.py:49-60 | saving fails iff `records` has no length; otherwise the document holds the two default keys, the metadata and the data, the data overriding the metadata and both overriding the defaults |
| FileUtils.ReExportUnchanged | src/utils/file_utils.py:55-60 | saving a saved document again without metadata writes it back unchanged, its own time and count taking precedence |
| Pipeline.StepNamed | src/pipeline.py:128 | exactly the three names `extract`, `analyze` and `review` denote steps |
| Pipeline.InvalidSteps | src/pipeline.py:127-129 | a name is reported invalid iff it is given and is not a step name |
| Pipeline.StepsOf | src/pipeline.py:154-161 | valid names map one-to-one, in order, onto the steps they name |
| Pipeline.InvocationFor | src/pipeline.py:38-109 | each step calls its own command; a truthy global limit or timeout wins over the profile's value; the language-model switches default to on and the review flags to off |
| Pipeline.CallFor | src/pipeline.py:38-109 | a step's call is made iff its settings can be read: the settings and its section are dictionaries, or, for extract, the global limit is truthy; a review section that is not a dictionary raises inside the step's handler, every other read error outside it; the error is the `AttributeError` naming the type of the value `.get` was called on (`'NoneType'`, `'str'`, `'list'` ...); a call carries the step's section entries |
| Pipeline.ExtractIgnoresSectionUnderLimit | src/pipeline.py:43-44 | under a truthy global limit the extract call is made and does not depend on the extract section, whatever it holds |
| Pipeline.ZeroLimitDefers | src/pipeline.py:42-65 | a global limit of 0 is falsy, so the profile's record and recipe counts are used |
| Pipeline.RunFrom | src/pipeline.py:160-178 | the steps run in order; a step that raises inside its handler, in its command or while reading its settings there, stops the run with the calls made so far and suggests a restart from it iff more than one step remains; a settings error outside the handler stops the run before the step's call as an unexpected error |
| Pipeline.Execute | src/pipeline.py:127-178 | a list with any invalid name is rejected with exactly those names before anything runs; an unexpected error comes from settings that are not a dictionary or from an extract or analyze section that is not one, never from the review section |
| Pipeline.AllValid | src/pipeline.py:127-129 | the names of steps are never reported invalid |
| Pipeline.NamesAreSteps | src/pipeline.py:154-161 | the names of some steps denote those same steps |
| Pipeline.CompletesIffAllFinish | src/pipeline.py:160-178 | a valid pipeline completes iff every step's call can be made and finishes |
| Pipeline.PlanCompletes | src/pipeline.py:160-178 | running a list of calls completes iff every call can be made and its command finishes |
| Pipeline.FinishesAsPlanned | src/pipeline.py:38-109 | every step finishes iff every call computed for the steps up front can be made and finishes |
| Pipeline.RestartRepeatsFailure | src/pipeline.py:169-172 | restarting with the suggested steps fails first, at the same step with the same message, making again only the failed call if there was one |
| Pipeline.ReviewSectionFailsInStep | src/pipeline.py:93-109 | a review section that is not a dictionary fails the review step itself, before its command is called, with the `AttributeError` naming the section's type and with restart advice when steps remain |
| Pipeline.FailsFirst | src/pipeline.py:160-172 | a first step that raises, inside its handler before its call or in the command, fails the run there with that message, with no call or that one call made, suggesting a restart iff more steps follow |
| Pipeline.RunPipelineAsWritten | src/pipeline.py:112-178 | as written, the run is rejected iff some name is invalid, and with exactly those names |
| Pipeline.AsWrittenUnknownProfileStops | src/pipeline.py:141-151 | as written, an unknown profile stops every valid pipeline with the unexpected error `'NoneType' object has no attribute 'get'` before its first call |
| Pipeline.ProfileSettingsOrEmpty | src/pipeline.py:143-148 | the settings used are always a dictionary: the profile's entry when it is one, `{}` otherwise |
| Pipeline.RunPipeline | src/pipeline.py:112-178 | the run is rejected iff some name is invalid; an unexpected error can only come from an extract or analyze section that is present but not a dictionary |
| Pipeline.UnknownProfileIgnored | src/pipeline.py:141-148 | with the fallback, an unknown profile runs exactly as if no profile was given |
| Pipeline.GetClient | src/pipeline.py:31-35 | a cached client is returned without creating another; otherwise the creation's outcome is returned and cached when it succeeds |
| Pipeline.GetClients | src/pipeline.py:31-35 | over any sequence of requests at most one client is created, and every successful request returns the cached client |

## Left out

- The language model call and the parsing of its reply. The call is a parameter returning an optional payload; an invalid reply or a raised exception is `None`.
- Notion network calls: `test_connection`, `get_page`, `get_page_children`, `search_pages`, `get_record_content`, `pages.update` and `databases.update`. Their outcomes are parameters: the list of query responses, the flattened content of a page, whether an update is accepted. `NotionClient.GetDatabaseRecords` folds only API errors; other exceptions are not modelled.
- The HTML review page (`generate_html_review`) and every console or table display function. These are presentation, and their percentages are floating point.
- `urlparse`. The domain of a URL is a parameter, both in the enhancement and in the collection statistics; the statistics' domain counter is not modelled.
- File, YAML, JSON and CSV input and output, directory creation, timestamps and `pathlib` normalisation. Loaded documents, rows and cells are passed in as values, the export time as text, and whether a file exists as a predicate.
- `format_usage_tags_for_prompt`: its source is cut off after its first lines.
- `str(prop_data)` for a property of another type is an opaque text carried by the property (`NotionClient.ExtractValue`).
- Batching, inter-batch delay, timeouts, range slicing, `failed_analyses`, usage-tag distribution, content-quality statistics and the average quality score. The analyzer as written implements none of them, although `analyze` passes the settings for them.
- The command-line glue: option parsing, confirmation prompts, dry runs, `--force`, the `enhance` command's own flow and sampling, and the arguments the pipeline always fixes (no input or output path, HTML on, no range). The step display name (`step.title()`) is not modelled.
- `Values.Section`: a section that is present but not a dictionary reads as `{}`, where Python would raise when it calls `.get` on it.
- `Profiles.ShortcutProfile`: a shortcut entry that is not a dictionary gives `None`, where Python would raise.
- `ConfigLoader.FormatForPrompt`: entries whose criteria, examples or indicators are not lists of strings, or whose description or notes are not strings, are not modelled; Python would format or raise on them.
- `Reviewer.IssuesOnly`: a categorization field of the wrong type (a `null` quality score compared with 3, say) raises in Python; `Records.Categorization` types its fields, so such values are not modelled.
- `FileUtils.ReExportUnchanged`: metadata carrying a `records` entry without a length, which the data does not override, makes the second save raise; the lemma excludes it.
- `Pipeline.RunFrom`: a command's own behaviour is a parameter (`perform`), so what the extract, analyze and review commands do inside a pipeline is not followed into their bodies here.
- `Profiles.DefaultSettings`: a truthy `default` profile that is not a dictionary (a string, say) is returned as is by Python; the model falls back to the built-in defaults.
- `Profiles.ApplyProfile`: a truthy profile entry that is not a dictionary (a string, a list) makes Python raise at `.items()`; the model returns the base unchanged.
- `Records.Categorization`: the flags, scores and tag lists of a categorization cannot hold a JSON `null`. Python treats a `null` `is_recipe` as a non-recipe and raises on a `null` score compared with a number or a `null` tag list iterated. The members that read these fields model only absent and well-typed values: `Analyzer.CategorizeRecipes`, `Reviewer.Flags`, `Reviewer.ReviewSummaryOf`, `Reviewer.ExportRow` and `Enhance.RecordPayload`.
- `Analyzer.CategorizeRecipes`: a `null` `dietary_tags` raises in Python; it is not representable here.
- `Reviewer.Flags`: a `null` `is_recipe` is flagged as a non-recipe by Python, and a `null` quality score or confidence raises; neither is representable here.
- `Reviewer.ReviewSummaryOf`: the same `null` values change or break the priority counts in Python; they are not representable here.
- `Reviewer.ExportRow`: the CSV writer writes a `null` flag or score as an empty cell, and joining a `null` tag list raises; neither is representable here.
- `Enhance.RecordPayload`: `null` flags, scores or tag lists are falsy and skipped in Python; they are not representable here.
- `Reviewer.AsRead`: the sheet is read without `newline=''`, so a cell holding a carriage return reads back with a line feed instead; cells are assumed to hold none.
- `Reviewer.InvalidIntMessage`: the message always quotes the text with `'`, as `repr` does for text without a single quote; `repr`'s switch to `"` and its escapes are not modelled.
- `PyStr.ParseInt`: whitespace and digits are ASCII only; Python's `int()` also accepts other Unicode digits and spaces, which give `None` here.

## Findings

| source | as written | input that shows it | evidently intended | confidence | as-written member | corrected member |
|---|---|---|---|---|---|---|
| src/commands/analyze_cmd.py:178-187 | `categorize_recipes_llm` is called with `start_index`, `end_index`, `batch_size`, `batch_delay`, `timeout` and `include_content_review`, but its signature (`src/notion_client/analyzer.py:141-143`) takes only the records and `sample_size`; the `TypeError` is caught at lines 194-196 and nothing is saved | any run on a non-empty collection with `use_llm` true and valid credentials, e.g. `analyze` with the default profile | call the analyzer with the sample size and save the categorization results | not executed | `AnalyzeCmd.RunAsWritten`, shown by `AnalyzeCmd.AsWrittenNeverSavesWithLlm` | `AnalyzeCmd.Run` |
| src/pipeline.py:144-148 | `get_profile_settings` returns `None` for an unknown profile (`src/notion_client/profile_loader.py:52-53`) without raising, so `profile_settings` becomes `None`; the first step's `ctx.profile_settings.get(...)` (lines 43, 63, 96) sits outside the step's `try` and is reported as an unexpected error | `pipeline extract analyze --profile nosuch` | an unknown profile falls back to the `{}` the code starts from (line 143) and the steps run | not executed | `Pipeline.RunPipelineAsWritten`, shown by `Pipeline.AsWrittenUnknownProfileStops` | `Pipeline.RunPipeline`, proved by `Pipeline.UnknownProfileIgnored` |
