/** The `analyze` command: layered resolution of the analysis settings
    (defaults, quick shortcut, profile, sample, range and individual flags,
    basic-only), the sample/range conflict rule, and the decision what to
    save. Loading files, console output and the recommendations display are
    outside the model; the recipes, the profiles document, the configuration
    and the language model are passed in. */
module AnalyzeCmd {
  import opened Wrappers
  import opened PyStr
  import opened Values
  import opened Profiles
  import opened Records
  import Analyzer
  import Config
  import FileUtils

  /** The command-line options; `None` is an option that was not given. */
  datatype Flags = Flags(
    output: Option<string>,
    profile: Option<string>,
    quick: bool,
    sample: Option<int>,
    startIndex: Option<int>,
    endIndex: Option<int>,
    rangeSpec: Option<string>,
    batchSize: Option<int>,
    batchDelay: Option<real>,
    timeout: Option<int>,
    useLlm: Option<bool>,
    includeContentReview: Option<bool>,
    basicOnly: bool)

  predicate GivenNumber(o: Option<int>) {
    o.Some? && o.value != 0
  }

  // ---------------------------------------------------------------------------
  // Step 2: the quick shortcut

  /** Step 2 on the settings: the `quick` shortcut's profile when it names
      one, otherwise statistics only. */
  function QuickStep(data: Dict, settings: Dict, quick: bool): (r: Dict)
    ensures !quick ==> r == settings
    ensures quick && !Truthy(ShortcutProfile(data, Quick)) ==>
              && r.Keys == settings.Keys + {UseLlm, IncludeContentReview}
              && r[UseLlm] == JBool(false) && r[IncludeContentReview] == JBool(false)
              && (forall k :: k in settings && k != UseLlm && k != IncludeContentReview ==> r[k] == settings[k])
    ensures quick && ShortcutProfile(data, Quick).JStr? && ShortcutProfile(data, Quick).s != "" ==>
              r == ApplyProfile(data, settings, KeyOf(ShortcutProfile(data, Quick).s))
  {
    if !quick then settings
    else
      var shortcut := ShortcutProfile(data, Quick);
      if Truthy(shortcut) then
        if shortcut.JStr? then ApplyProfile(data, settings, KeyOf(shortcut.s)) else settings
      else StatsOnly(settings)
  }

  /** With `--quick`, a `quick` shortcut that names a known, non-empty
      profile lays that profile's entries, its description aside, over the
      settings. */
  lemma QuickUsesShortcutProfile(data: Dict, settings: Dict, name: string)
    requires name != ""
    requires Quick in Section(data, Shortcuts) && Section(data, Shortcuts)[Quick].JObj?
    requires GetOr(Section(data, Shortcuts)[Quick].fields, Profile, JNull) == JStr(name)
    requires ProfileSettings(data, KeyOf(name)).JObj? && ProfileSettings(data, KeyOf(name)).fields != map[]
    ensures QuickStep(data, settings, true) == settings + (ProfileSettings(data, KeyOf(name)).fields - {Description})
  {
  }

  /** Both language-model features off, everything else kept. */
  function StatsOnly(settings: Dict): (r: Dict)
    ensures r.Keys == settings.Keys + {UseLlm, IncludeContentReview}
    ensures r[UseLlm] == JBool(false) && r[IncludeContentReview] == JBool(false)
    ensures forall k :: k in settings && k != UseLlm && k != IncludeContentReview ==> r[k] == settings[k]
  {
    settings[UseLlm := JBool(false)][IncludeContentReview := JBool(false)]
  }

  /** The starting settings are the `default` profile's own dictionary: a
      document read from a file is kept, and without `flag_defaults`
      `get_default_settings` hands out that profile itself rather than a copy. */
  predicate SharesDefaultProfile(src: Source) {
    && src.Loaded?
    && Section(src.data, FlagDefaults) == map[]
    && ProfileSettings(src.data, DefaultName).JObj?
    && ProfileSettings(src.data, DefaultName).fields != map[]
  }

  /** The document with its `default` profile replaced. */
  function WithDefaultProfile(data: Dict, p: Dict): (r: Dict)
    ensures ProfileSettings(r, DefaultName) == JObj(p)
  {
    data[ProfilesSection := JObj(Section(data, ProfilesSection)[DefaultName := JObj(p)])]
  }

  /** The document as step 3 sees it: step 2's in-place update also changes
      the shared `default` profile. */
  function DocAfterQuick(src: Source, settings: Dict, quick: bool): (r: Dict)
    ensures !quick ==> r == LoadProfiles(src)
    ensures !SharesDefaultProfile(src) ==> r == LoadProfiles(src)
  {
    var data := LoadProfiles(src);
    if quick && !Truthy(ShortcutProfile(data, Quick)) && SharesDefaultProfile(src) then
      WithDefaultProfile(data, QuickStep(data, settings, quick))
    else data
  }

  // ---------------------------------------------------------------------------
  // Steps 4 to 7 and the final check

  /** Step 4: a non-zero `--sample` sets `sample_size` and drops any range. */
  function SampleStep(settings: Dict, sample: Option<int>): (r: Dict)
    ensures !GivenNumber(sample) ==> r == settings
    ensures GivenNumber(sample) ==>
              && r.Keys == settings.Keys + {SampleSize} - {StartIndex, EndIndex}
              && r[SampleSize] == JInt(sample.value)
              && (forall k :: k in r && k != SampleSize ==> r[k] == settings[k])
  {
    if GivenNumber(sample) then (settings[SampleSize := JInt(sample.value)] - {StartIndex}) - {EndIndex}
    else settings
  }

  /** Step 4 leaves every key but the sample size and the indices alone. */
  lemma SampleStepKeeps(settings: Dict, sample: Option<int>, k: Key)
    requires k != SampleSize && k != StartIndex && k != EndIndex
    ensures Get(SampleStep(settings, sample), k) == Get(settings, k)
  {
    if GivenNumber(sample) {
      assert k in SampleStep(settings, sample) <==> k in settings;
    }
  }

  /** Step 5: `"a-b"` split on `-` into exactly two parts, each a Python
      integer literal. */
  function ParseRange(spec: string): (r: Option<(int, int)>)
    ensures r.Some? ==> |SplitOn(spec, '-')| == 2
    ensures r.Some? <==> (|SplitOn(spec, '-')| == 2
                          && ParseInt(SplitOn(spec, '-')[0]).Some?
                          && ParseInt(SplitOn(spec, '-')[1]).Some?)
  {
    var parts := SplitOn(spec, '-');
    if |parts| != 2 then None
    else
      match (ParseInt(parts[0]), ParseInt(parts[1]))
      case (Some(a), Some(b)) => Some((a, b))
      case _ => None
  }

  /** The start and end indices step 6 applies: parsed from a non-empty
      `--range` (which replaces the separate flags), else the flags;
      `None` when the range does not parse. */
  function RangeBounds(f: Flags): (r: Option<(Option<int>, Option<int>)>)
    ensures r.None? <==> GivenText(f.rangeSpec) && ParseRange(f.rangeSpec.value).None?
    ensures !GivenText(f.rangeSpec) ==> r == Some((f.startIndex, f.endIndex))
  {
    if GivenText(f.rangeSpec) then
      match ParseRange(f.rangeSpec.value)
      case None => None
      case Some((a, b)) => Some((Some(a), Some(b)))
    else Some((f.startIndex, f.endIndex))
  }

  /** The value step 6 writes for key `k`, if the corresponding option was
      given. */
  function OverrideOf(k: Key, start: Option<int>, end: Option<int>, f: Flags): (v: Option<Json>)
    ensures v.Some? ==> k in OptionKeys
  {
    match k
    case StartIndex => if start.Some? then Some(JInt(start.value)) else None
    case EndIndex => if end.Some? then Some(JInt(end.value)) else None
    case BatchSize => if f.batchSize.Some? then Some(JInt(f.batchSize.value)) else None
    case BatchDelay => if f.batchDelay.Some? then Some(JReal(f.batchDelay.value)) else None
    case Timeout => if f.timeout.Some? then Some(JInt(f.timeout.value)) else None
    case UseLlm => if f.useLlm.Some? then Some(JBool(f.useLlm.value)) else None
    case IncludeContentReview =>
      if f.includeContentReview.Some? then Some(JBool(f.includeContentReview.value)) else None
    case _ => None
  }

  const OptionKeys: set<Key> :=
    {StartIndex, EndIndex, BatchSize, BatchDelay, Timeout, UseLlm, IncludeContentReview}

  /** Step 6: each option that was given overrides its setting. */
  function Overrides(settings: Dict, start: Option<int>, end: Option<int>, f: Flags): Dict {
    var given := map k | k in OptionKeys && OverrideOf(k, start, end, f).Some? :: OverrideOf(k, start, end, f).value;
    settings + given
  }

  /** Step 6 on one key: the option's value if it was given, and nothing
      else changes. */
  lemma OverridesGet(settings: Dict, start: Option<int>, end: Option<int>, f: Flags, k: Key)
    ensures k in Overrides(settings, start, end, f) <==> k in settings || OverrideOf(k, start, end, f).Some?
    ensures OverrideOf(k, start, end, f).Some? ==> Overrides(settings, start, end, f)[k] == OverrideOf(k, start, end, f).value
    ensures k in settings && OverrideOf(k, start, end, f).None? ==> Overrides(settings, start, end, f)[k] == settings[k]
    ensures Get(Overrides(settings, start, end, f), k)
            == if OverrideOf(k, start, end, f).Some? then OverrideOf(k, start, end, f).value else Get(settings, k)
  {
  }

  /** Step 7: `--basic-only` turns both language-model features off. */
  function BasicOnlyStep(settings: Dict, basicOnly: bool): (r: Dict)
    ensures basicOnly ==> Get(r, UseLlm) == JBool(false) && Get(r, IncludeContentReview) == JBool(false)
    ensures !basicOnly ==> r == settings
  {
    if basicOnly then settings[UseLlm := JBool(false)][IncludeContentReview := JBool(false)] else settings
  }

  /** Step 7 keeps every key, and the value of every key but the two
      switches. */
  lemma BasicOnlyKeeps(settings: Dict, basicOnly: bool, k: Key)
    ensures k in settings ==> k in BasicOnlyStep(settings, basicOnly)
    ensures k != UseLlm && k != IncludeContentReview ==>
              (k in BasicOnlyStep(settings, basicOnly) <==> k in settings)
              && Get(BasicOnlyStep(settings, basicOnly), k) == Get(settings, k)
    ensures k in settings && k != UseLlm && k != IncludeContentReview ==> BasicOnlyStep(settings, basicOnly)[k] == settings[k]
  {
  }

  /** The final check: with a truthy `sample_size`, a start or end index
      that is not `None` makes both go. */
  function SampleOverridesRange(settings: Dict): (r: Dict)
    ensures Truthy(Get(settings, SampleSize)) ==> Get(r, StartIndex) == JNull && Get(r, EndIndex) == JNull
    ensures !Truthy(Get(settings, SampleSize)) ==> r == settings
  {
    if Truthy(Get(settings, SampleSize))
       && (Get(settings, StartIndex) != JNull || Get(settings, EndIndex) != JNull)
    then (settings - {StartIndex}) - {EndIndex}
    else settings
  }

  /** The final check loses no key but the indices and changes no value. */
  lemma SampleOverridesRangeKeeps(settings: Dict, k: Key)
    ensures k in SampleOverridesRange(settings) ==> k in settings && SampleOverridesRange(settings)[k] == settings[k]
    ensures k != StartIndex && k != EndIndex ==>
              (k in SampleOverridesRange(settings) <==> k in settings)
              && Get(SampleOverridesRange(settings), k) == Get(settings, k)
  {
  }

  // ---------------------------------------------------------------------------
  // The whole resolution

  /** The settings after steps 1 to 3: defaults, quick shortcut, profile. */
  function Profiled(src: Source, f: Flags): Dict {
    var data := LoadProfiles(src);
    var base := DefaultSettings(data);
    var quick := QuickStep(data, base, f.quick);
    if GivenText(f.profile) then ApplyProfile(DocAfterQuick(src, base, f.quick), quick, KeyOf(f.profile.value))
    else quick
  }

  /** The settings before the range step: steps 1 to 4. */
  function EarlySettings(src: Source, f: Flags): Dict {
    SampleStep(Profiled(src, f), f.sample)
  }

  /** Steps 6 and 7 and the final check, from the settings of step 4. */
  function Finish(early: Dict, start: Option<int>, end: Option<int>, f: Flags): Dict {
    SampleOverridesRange(BasicOnlyStep(Overrides(early, start, end, f), f.basicOnly))
  }

  /** Steps 1 to 7 and the final check: the effective settings, or a failure
      when `--range` does not parse (and then nothing is analysed). */
  function Resolve(src: Source, f: Flags): (r: Result<Dict>)
    ensures r.Failure? <==> GivenText(f.rangeSpec) && ParseRange(f.rangeSpec.value).None?
    ensures r.Success? ==>
              RangeBounds(f).Some?
              && r.value == Finish(EarlySettings(src, f), RangeBounds(f).value.0, RangeBounds(f).value.1, f)
  {
    match RangeBounds(f)
    case None => Failure("Invalid range format: " + f.rangeSpec.value + ". Use format like '50-100'")
    case Some((start, end)) => Success(Finish(EarlySettings(src, f), start, end, f))
  }

  // ---------------------------------------------------------------------------
  // Properties of the resolution

  /** The value a key other than the indices has after steps 6 and 7 and
      the final check: off under `--basic-only` for the two switches, else
      the given option, else what step 4 left. */
  lemma FinishGet(early: Dict, start: Option<int>, end: Option<int>, f: Flags, k: Key)
    requires k != StartIndex && k != EndIndex
    ensures Get(Finish(early, start, end, f), k)
            == if f.basicOnly && (k == UseLlm || k == IncludeContentReview) then JBool(false)
               else if OverrideOf(k, start, end, f).Some? then OverrideOf(k, start, end, f).value
               else Get(early, k)
  {
    var over := Overrides(early, start, end, f);
    var late := BasicOnlyStep(over, f.basicOnly);
    OverridesGet(early, start, end, f, k);
    BasicOnlyKeeps(over, f.basicOnly, k);
    SampleOverridesRangeKeeps(late, k);
  }

  /** After steps 6 and 7 and the final check a truthy sample size leaves
      no index. */
  lemma FinishExcludesIndices(early: Dict, start: Option<int>, end: Option<int>, f: Flags)
    ensures var r := Finish(early, start, end, f);
            Truthy(Get(r, SampleSize)) ==> Get(r, StartIndex) == JNull && Get(r, EndIndex) == JNull
  {
    var late := BasicOnlyStep(Overrides(early, start, end, f), f.basicOnly);
    if !Truthy(Get(late, SampleSize)) {
      SampleOverridesRangeKeeps(late, SampleSize);
    }
  }

  /** The indices after steps 6 and 7 and the final check: the given bounds
      when step 4 left no sample size. */
  lemma FinishIndices(early: Dict, start: Option<int>, end: Option<int>, f: Flags)
    requires !Truthy(Get(early, SampleSize))
    ensures start.Some? ==> Get(Finish(early, start, end, f), StartIndex) == JInt(start.value)
    ensures end.Some? ==> Get(Finish(early, start, end, f), EndIndex) == JInt(end.value)
  {
    var late := BasicOnlyStep(Overrides(early, start, end, f), f.basicOnly);
    LateKeeps(early, start, end, f, SampleSize);
    assert Finish(early, start, end, f) == late;
    LateKeeps(early, start, end, f, StartIndex);
    LateKeeps(early, start, end, f, EndIndex);
  }

  /** Steps 6 and 7 on one key other than the two switches. */
  lemma LateKeeps(early: Dict, start: Option<int>, end: Option<int>, f: Flags, k: Key)
    requires k != UseLlm && k != IncludeContentReview
    ensures Get(BasicOnlyStep(Overrides(early, start, end, f), f.basicOnly), k)
            == if OverrideOf(k, start, end, f).Some? then OverrideOf(k, start, end, f).value else Get(early, k)
  {
    OverridesGet(early, start, end, f, k);
    BasicOnlyKeeps(Overrides(early, start, end, f), f.basicOnly, k);
  }

  /** After resolution a truthy sample size excludes any start or end index. */
  lemma SampleExcludesRange(src: Source, f: Flags)
    requires Resolve(src, f).Success? && Truthy(Get(Resolve(src, f).value, SampleSize))
    ensures Get(Resolve(src, f).value, StartIndex) == JNull && Get(Resolve(src, f).value, EndIndex) == JNull
  {
    var bounds := RangeBounds(f).value;
    FinishExcludesIndices(EarlySettings(src, f), bounds.0, bounds.1, f);
  }

  /** `--basic-only` wins over every other source of the two switches. */
  lemma BasicOnlyWins(src: Source, f: Flags)
    requires Resolve(src, f).Success? && f.basicOnly
    ensures Get(Resolve(src, f).value, UseLlm) == JBool(false)
    ensures Get(Resolve(src, f).value, IncludeContentReview) == JBool(false)
  {
    var bounds := RangeBounds(f).value;
    FinishGet(EarlySettings(src, f), bounds.0, bounds.1, f, UseLlm);
    FinishGet(EarlySettings(src, f), bounds.0, bounds.1, f, IncludeContentReview);
  }

  /** An option that was given overrides whatever the profiles said
      (`--use-llm` unless `--basic-only` is given as well). */
  lemma GivenOptionsWin(src: Source, f: Flags)
    requires Resolve(src, f).Success?
    ensures f.batchSize.Some? ==> Get(Resolve(src, f).value, BatchSize) == JInt(f.batchSize.value)
    ensures f.batchDelay.Some? ==> Get(Resolve(src, f).value, BatchDelay) == JReal(f.batchDelay.value)
    ensures f.timeout.Some? ==> Get(Resolve(src, f).value, Timeout) == JInt(f.timeout.value)
    ensures !f.basicOnly && f.useLlm.Some? ==> Get(Resolve(src, f).value, UseLlm) == JBool(f.useLlm.value)
    ensures !f.basicOnly && f.includeContentReview.Some? ==>
              Get(Resolve(src, f).value, IncludeContentReview) == JBool(f.includeContentReview.value)
  {
    var bounds := RangeBounds(f).value;
    FinishOptions(EarlySettings(src, f), bounds.0, bounds.1, f);
  }

  /** The options of step 6 survive step 7 and the final check (the two
      switches only without `--basic-only`). */
  lemma FinishOptions(early: Dict, start: Option<int>, end: Option<int>, f: Flags)
    ensures f.batchSize.Some? ==> Get(Finish(early, start, end, f), BatchSize) == JInt(f.batchSize.value)
    ensures f.batchDelay.Some? ==> Get(Finish(early, start, end, f), BatchDelay) == JReal(f.batchDelay.value)
    ensures f.timeout.Some? ==> Get(Finish(early, start, end, f), Timeout) == JInt(f.timeout.value)
    ensures !f.basicOnly && f.useLlm.Some? ==> Get(Finish(early, start, end, f), UseLlm) == JBool(f.useLlm.value)
    ensures !f.basicOnly && f.includeContentReview.Some? ==>
              Get(Finish(early, start, end, f), IncludeContentReview) == JBool(f.includeContentReview.value)
  {
    FinishGet(early, start, end, f, BatchSize);
    FinishGet(early, start, end, f, BatchDelay);
    FinishGet(early, start, end, f, Timeout);
    FinishGet(early, start, end, f, UseLlm);
    FinishGet(early, start, end, f, IncludeContentReview);
  }

  /** A non-zero `--sample` always wins: the result has that sample size and
      no start or end index, even when a valid `--range` was given too. */
  lemma SampleWinsOverRange(src: Source, f: Flags)
    requires GivenNumber(f.sample) && Resolve(src, f).Success?
    ensures Get(Resolve(src, f).value, SampleSize) == JInt(f.sample.value)
    ensures Get(Resolve(src, f).value, StartIndex) == JNull
    ensures Get(Resolve(src, f).value, EndIndex) == JNull
  {
    var early := EarlySettings(src, f);
    assert Get(early, SampleSize) == JInt(f.sample.value);
    var bounds := RangeBounds(f).value;
    var r := Resolve(src, f).value;
    assert r == Finish(early, bounds.0, bounds.1, f);
    FinishGet(early, bounds.0, bounds.1, f, SampleSize);
    FinishExcludesIndices(early, bounds.0, bounds.1, f);
  }

  /** A range that parses sets both indices when no sample size is in play. */
  lemma RangeApplied(src: Source, f: Flags, a: int, b: int)
    requires GivenText(f.rangeSpec) && ParseRange(f.rangeSpec.value) == Some((a, b))
    requires !Truthy(Get(EarlySettings(src, f), SampleSize))
    ensures Resolve(src, f).Success?
    ensures Get(Resolve(src, f).value, StartIndex) == JInt(a)
    ensures Get(Resolve(src, f).value, EndIndex) == JInt(b)
  {
    assert RangeBounds(f) == Some((Some(a), Some(b)));
    FinishIndices(EarlySettings(src, f), Some(a), Some(b), f);
  }

  /** The effect of the steps after step 3 on the two switches: without
      `--use-llm`/`--no-llm`, `--include-content-review`/`--no-content-review`
      or `--basic-only`, they are what steps 1 to 3 made them. */
  lemma SwitchesFromProfiles(src: Source, f: Flags)
    requires Resolve(src, f).Success? && f.useLlm.None? && f.includeContentReview.None? && !f.basicOnly
    ensures Get(Resolve(src, f).value, UseLlm) == Get(Profiled(src, f), UseLlm)
    ensures Get(Resolve(src, f).value, IncludeContentReview) == Get(Profiled(src, f), IncludeContentReview)
  {
    var bounds := RangeBounds(f).value;
    var profiled := Profiled(src, f);
    var early := EarlySettings(src, f);
    SampleStepKeeps(profiled, f.sample, UseLlm);
    SampleStepKeeps(profiled, f.sample, IncludeContentReview);
    assert Get(Finish(early, bounds.0, bounds.1, f), UseLlm) == Get(early, UseLlm) by {
      FinishGet(early, bounds.0, bounds.1, f, UseLlm);
    }
    assert Get(Finish(early, bounds.0, bounds.1, f), IncludeContentReview) == Get(early, IncludeContentReview) by {
      FinishGet(early, bounds.0, bounds.1, f, IncludeContentReview);
    }
  }

  /** `--quick` with no `quick` shortcut, and nothing later touching the two
      switches, leaves statistics only. */
  lemma QuickWithoutShortcut(src: Source, f: Flags)
    requires f.quick && !Truthy(ShortcutProfile(LoadProfiles(src), Quick))
    requires !GivenText(f.profile) && f.useLlm.None? && f.includeContentReview.None? && !f.basicOnly
    requires Resolve(src, f).Success?
    ensures Get(Resolve(src, f).value, UseLlm) == JBool(false)
    ensures Get(Resolve(src, f).value, IncludeContentReview) == JBool(false)
  {
    SwitchesFromProfiles(src, f);
  }

  /** Step 2 writes into the shared `default` profile, so `--quick
      --profile default` keeps statistics only when the document is read from
      a file without `flag_defaults` or a `quick` shortcut. */
  lemma QuickSticksThroughDefaultProfile(src: Source, f: Flags)
    requires SharesDefaultProfile(src)
    requires f.quick && !Truthy(ShortcutProfile(LoadProfiles(src), Quick))
    requires GivenText(f.profile) && KeyOf(f.profile.value) == DefaultName
    requires f.useLlm.None? && f.includeContentReview.None? && !f.basicOnly
    requires Resolve(src, f).Success?
    ensures Get(Resolve(src, f).value, UseLlm) == JBool(false)
    ensures Get(Resolve(src, f).value, IncludeContentReview) == JBool(false)
  {
    assert Get(Profiled(src, f), UseLlm) == JBool(false) && Get(Profiled(src, f), IncludeContentReview) == JBool(false) by {
      var data := LoadProfiles(src);
      var base := DefaultSettings(data);
      var quick := QuickStep(data, base, f.quick);
      var doc := DocAfterQuick(src, base, f.quick);
      assert doc == WithDefaultProfile(data, quick);
      var applied := ApplyProfile(doc, quick, DefaultName);
      assert applied[UseLlm] == JBool(false);
      assert applied[IncludeContentReview] == JBool(false);
      assert Profiled(src, f) == applied;
    }
    SwitchesFromProfiles(src, f);
  }

  /** A range string must contain exactly one `-`: a negative index or a
      third part cannot be written. */
  lemma RangeNeedsOneDash(spec: string)
    requires CountChar(spec, '-') != 1
    ensures ParseRange(spec).None?
  {
    SplitCount(spec, '-');
  }

  /** `str(a) + "-" + str(b)` parses back for non-negative bounds. */
  lemma {:induction false} RangeRoundTrip(a: nat, b: nat)
    ensures ParseRange(IntToString(a) + "-" + IntToString(b)) == Some((a, b))
  {
    var x := IntToString(a);
    var y := IntToString(b);
    NoDashInNat(a);
    NoDashInNat(b);
    SplitTwo(x, y, '-');
    ParseIntOfIntToString(a);
    ParseIntOfIntToString(b);
  }

  lemma NoDashInNat(n: nat)
    ensures '-' !in IntToString(n)
  {
    var t := IntToString(n);
    assert forall i :: 0 <= i < |t| ==> IsDigit(t[i]);
  }

  /** Splitting `x + [c] + y` on `c` when neither part contains `c`. */
  lemma SplitTwo(x: string, y: string, c: char)
    requires c !in x && c !in y
    ensures SplitOn(x + [c] + y, c) == [x, y]
  {
    var s := x + [c] + y;
    assert s[|x|] == c;
    var i := IndexOf(s, c);
    assert s[..|x|] == x;
    assert i == |x|;
    assert s[..i] == x;
    assert s[i + 1..] == y;
  }

  // ---------------------------------------------------------------------------
  // Running the analysis and saving

  /** The keyword arguments `analyze` passes to `categorize_recipes_llm`
      besides `recipe_data`, with their defaults. */
  function LlmArguments(settings: Dict): (args: Dict)
    ensures args.Keys == OptionKeys - {UseLlm} + {SampleSize}
    ensures forall k :: k in args && k in settings ==> args[k] == settings[k]
    ensures BatchDelay !in settings ==> args[BatchDelay] == JInt(0)
    ensures Timeout !in settings ==> args[Timeout] == JInt(30)
    ensures IncludeContentReview !in settings ==> args[IncludeContentReview] == JBool(true)
    ensures forall k :: k in {SampleSize, StartIndex, EndIndex, BatchSize} && k !in settings ==>
              args[k] == JNull
  {
    map[
      SampleSize := Get(settings, SampleSize),
      StartIndex := Get(settings, StartIndex),
      EndIndex := Get(settings, EndIndex),
      BatchSize := Get(settings, BatchSize),
      BatchDelay := GetOr(settings, BatchDelay, JInt(0)),
      Timeout := GetOr(settings, Timeout, JInt(30)),
      IncludeContentReview := GetOr(settings, IncludeContentReview, JBool(true))]
  }

  /** The parameters `categorize_recipes_llm` accepts. */
  const AnalyzerParameters: set<Key> := {Named("recipe_data"), SampleSize}

  /** What `categorize_recipes_llm` makes of `sample_size`: an integer (a
      boolean counts as 0 or 1) or nothing; any other truthy value fails when
      it is used as a slice bound. */
  function SampleArgument(v: Json): (r: Result<Option<int>>)
    ensures v.JInt? ==> r == Success(if v.i == 0 then None else Some(v.i))
    ensures !Truthy(v) ==> r == Success(None)
    ensures r.Failure? <==> Truthy(v) && !v.JInt? && !v.JBool?
  {
    match v
    case JInt(i) => Success(if i == 0 then None else Some(i))
    case JBool(b) => Success(if b then Some(1) else None)
    case _ => if Truthy(v) then Failure("slice indices must be integers or None") else Success(None)
  }

  /** What is saved: the path, the basic statistics and the categorization
      part. */
  datatype Categorized = Placeholder(settingsUsed: Dict) | Results(results: Analyzer.CategorizationResults)

  datatype Report = Report(path: string, basicStats: Analyzer.BasicStats, categorization: Categorized)

  /** How a run ends. */
  datatype RunOutcome =
    | InvalidRange(message: string)
    | NoInput
    | ConfigError(message: string)
    | LlmError
    | Crashed(message: string)
    | Finished(saved: Option<Report>)

  /** Displaying the basic statistics divides the URL and tag counts by the
      number of records, outside any handler: an empty collection raises
      `ZeroDivisionError` and ends the command before anything is saved. */
  function DisplayStats(records: seq<RecipeRecord>): (crash: Option<string>)
    ensures crash.Some? <==> Analyzer.AnalyzeBasicStats(records).totalRecipes == 0
  {
    if records == [] then Some("division by zero") else None
  }

  /** The save step without language-model results: saved iff `--output`
      was given, with the placeholder. */
  function SaveWithoutLlm(f: Flags, settings: Dict, records: seq<RecipeRecord>, cfg: Config.Config): (o: RunOutcome)
    ensures o.Finished?
    ensures o.saved.Some? <==> GivenText(f.output)
    ensures o.saved.Some? ==> o.saved.value.categorization == Placeholder(settings)
  {
    if GivenText(f.output) then
      Finished(Some(Report(FileUtils.ResolveOutputPath(f.output, "analysis", cfg.dataDir), Analyzer.AnalyzeBasicStats(records), Placeholder(settings))))
    else Finished(None)
  }

  /** `analyze` as written, once the settings are resolved and the recipes
      loaded: the call passes keywords the analyzer does not accept, so
      whenever `use_llm` holds the `TypeError` ends the run in the "LLM
      Analysis Error" branch. */
  function RunAsWritten(f: Flags, settings: Dict, records: seq<RecipeRecord>, cfg: Config.Config): (o: RunOutcome)
    ensures o.Crashed? <==> records == []
    ensures records != [] && !Truthy(Get(settings, UseLlm)) ==> o == SaveWithoutLlm(f, settings, records, cfg)
  {
    if DisplayStats(records).Some? then Crashed(DisplayStats(records).value)
    else if Truthy(Get(settings, UseLlm)) then
      match Config.ValidateRequired(cfg)
      case Some(message) => ConfigError(message)
      case None =>
        if {Named("recipe_data")} + LlmArguments(settings).Keys <= AnalyzerParameters then
          // not reached: the keyword set always exceeds the parameters
          Finished(None)
        else LlmError
    else SaveWithoutLlm(f, settings, records, cfg)
  }

  function AnalyzeAsWritten(src: Source, f: Flags, recipes: Option<seq<RecipeRecord>>, cfg: Config.Config): (o: RunOutcome)
    ensures Resolve(src, f).Failure? ==> o.InvalidRange?
    ensures Resolve(src, f).Success? && recipes.None? ==> o == NoInput
    ensures Resolve(src, f).Success? && recipes.Some? ==> o == RunAsWritten(f, Resolve(src, f).value, recipes.value, cfg)
    ensures o.Crashed? <==> Resolve(src, f).Success? && recipes == Some([])
  {
    match Resolve(src, f)
    case Failure(message) => InvalidRange(message)
    case Success(settings) =>
      if recipes.None? then NoInput else RunAsWritten(f, settings, recipes.value, cfg)
  }

  /** The discrepancy: the call's keywords are not all parameters of the
      analyzer, so with `use_llm` on, the as-written command never saves. */
  lemma AsWrittenNeverSavesWithLlm(f: Flags, settings: Dict, records: seq<RecipeRecord>, cfg: Config.Config)
    requires Truthy(Get(settings, UseLlm)) && records != []
    ensures RunAsWritten(f, settings, records, cfg).ConfigError? || RunAsWritten(f, settings, records, cfg) == LlmError
  {
    var args := LlmArguments(settings);
    assert StartIndex in args;
    assert StartIndex !in AnalyzerParameters;
  }

  /** `analyze` once the settings are resolved and the recipes loaded, with
      the call reduced to the arguments the analyzer accepts. */
  method Run(f: Flags, settings: Dict, records: seq<RecipeRecord>, cfg: Config.Config, oracle: Analyzer.Oracle)
    returns (o: RunOutcome)
    ensures !Truthy(Get(settings, UseLlm)) ==> o == RunAsWritten(f, settings, records, cfg)
    ensures o.Crashed? <==> records == []
    ensures o.ConfigError? <==> records != [] && Truthy(Get(settings, UseLlm)) && Config.ValidateRequired(cfg).Some?
    ensures o.LlmError? <==> (records != [] && Truthy(Get(settings, UseLlm)) && Config.ValidateRequired(cfg).None?
                              && SampleArgument(Get(settings, SampleSize)).Failure?)
    ensures o.Finished? ==>
              && (o.saved.Some? <==> GivenText(f.output) || Truthy(Get(settings, UseLlm)))
              && (o.saved.Some? ==> o.saved.value.path == FileUtils.ResolveOutputPath(f.output, "analysis", cfg.dataDir))
              && (o.saved.Some? ==> (o.saved.value.categorization.Placeholder? <==> !Truthy(Get(settings, UseLlm))))
    ensures o.Finished? && o.saved.Some? && o.saved.value.categorization.Results? ==>
              && SampleArgument(Get(settings, SampleSize)).Success?
              && var rs := Analyzer.Sampled(records, SampleArgument(Get(settings, SampleSize)).value);
              var results := o.saved.value.categorization.results;
              && results.totalAnalyzed == |rs|
              && results.categorizations == Analyzer.Successes(oracle, rs)
              && Analyzer.Consistent(results)
  {
    var crash := DisplayStats(records);
    if crash.Some? {
      return Crashed(crash.value);
    }
    if !Truthy(Get(settings, UseLlm)) {
      return SaveWithoutLlm(f, settings, records, cfg);
    }
    var invalid := Config.ValidateRequired(cfg);
    if invalid.Some? {
      return ConfigError(invalid.value);
    }
    var sample := SampleArgument(Get(settings, SampleSize));
    if sample.Failure? {
      return LlmError;
    }
    var results := Analyzer.CategorizeRecipes(records, sample.value, oracle);
    var stats := Analyzer.AnalyzeBasicStats(records);
    o := Finished(Some(Report(FileUtils.ResolveOutputPath(f.output, "analysis", cfg.dataDir), stats, Results(results))));
  }

  /** The whole command: resolve the settings, stop on a bad range or
      missing input, then run. */
  method Analyze(src: Source, f: Flags, recipes: Option<seq<RecipeRecord>>, cfg: Config.Config, oracle: Analyzer.Oracle)
    returns (o: RunOutcome)
    ensures Resolve(src, f).Failure? ==> o.InvalidRange?
    ensures Resolve(src, f).Success? && recipes.None? ==> o == NoInput
    ensures o.Crashed? <==> Resolve(src, f).Success? && recipes == Some([])
    ensures o.Finished? ==> Resolve(src, f).Success? && recipes.Some? && recipes.value != []
  {
    var resolved := Resolve(src, f);
    if resolved.Failure? {
      return InvalidRange(resolved.error);
    }
    if recipes.None? {
      return NoInput;
    }
    o := Run(f, resolved.value, recipes.value, cfg, oracle);
  }
}
