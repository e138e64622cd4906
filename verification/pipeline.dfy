/** The pipeline that chains the extract, analyze and review commands:
    step-name validation, the invocation each step makes from the global
    options and the profile's settings, the run that stops at the first
    failure with restart guidance, and the shared lazily created client.

    What a command does when invoked is a parameter (`perform`): it either
    finishes or raises, and a raise inside a command becomes a
    `PipelineStepError` for that step. */
module Pipeline {
  import opened Wrappers
  import opened PyStr
  import opened Values
  import Profiles

  datatype Step = Extract | Analyze | Review {
    /** The step's name on the command line. */
    function Name(): string {
      match this
      case Extract => "extract"
      case Analyze => "analyze"
      case Review => "review"
    }

    /** The key of the step's section in a profile. */
    function SectionKey(): Key {
      match this
      case Extract => ExtractStep
      case Analyze => AnalyzeStep
      case Review => ReviewStep
    }
  }

  /** The step a name denotes, if any. */
  function StepNamed(name: string): (r: Option<Step>)
    ensures r.Some? ==> r.value.Name() == name
    ensures r.None? <==> forall s: Step :: s.Name() != name
  {
    if name == "extract" then Some(Extract)
    else if name == "analyze" then Some(Analyze)
    else if name == "review" then Some(Review)
    else None
  }

  /** The names that are not steps, in the order given. */
  function InvalidSteps(names: seq<string>): (r: seq<string>)
    ensures |r| <= |names|
    ensures forall x :: x in r <==> x in names && StepNamed(x).None?
    decreases |names|
  {
    if names == [] then []
    else
      var init := names[..|names| - 1];
      var last := names[|names| - 1];
      assert names == init + [last];
      InvalidSteps(init) + (if StepNamed(last).None? then [last] else [])
  }

  /** The steps of a list of valid names. */
  function StepsOf(names: seq<string>): (r: seq<Step>)
    requires InvalidSteps(names) == []
    ensures |r| == |names|
    ensures forall i :: 0 <= i < |names| ==> r[i].Name() == names[i]
  {
    seq(|names|, i requires 0 <= i < |names| =>
      assert names[i] in names && names[i] !in InvalidSteps(names);
      StepNamed(names[i]).value)
  }

  /** The arguments each command is called with; the arguments the pipeline
      always fixes (no input or output path, HTML on, no range) are left
      implicit. */
  datatype Invocation =
    | ExtractCall(databaseId: Json, maxRecords: Json, dryRun: Json)
    | AnalyzeCall(profile: Json, quick: Json, sample: Json, batchSize: Json, batchDelay: Json,
                  timeout: Json, useLlm: Json, includeContentReview: Json)
    | ReviewCall(csv: Json, issuesOnly: Json, summary: Json)

  /** The step's section holds a dictionary, or is absent (read as `{}`). */
  predicate SectionIsDict(profileSettings: Json, step: Step) {
    profileSettings.JObj?
    && (step.SectionKey() in profileSettings.fields ==> profileSettings.fields[step.SectionKey()].JObj?)
  }

  /** The entries of the step's section; `{}` when it is absent or is not a
      dictionary. */
  function SectionOf(profileSettings: Json, step: Step): Dict {
    if profileSettings.JObj? && step.SectionKey() in profileSettings.fields
       && profileSettings.fields[step.SectionKey()].JObj?
    then profileSettings.fields[step.SectionKey()].fields
    else map[]
  }

  /** The call a step makes: the global `limit` (and `timeout`) wins over
      the profile's value when it is truthy; the analysis switches default
      to on and the flags to off. */
  function InvocationFor(step: Step, settings: Dict, options: Dict): (c: Invocation)
    ensures step.Extract? <==> c.ExtractCall?
    ensures step.Analyze? <==> c.AnalyzeCall?
    ensures step.Review? <==> c.ReviewCall?
    ensures c.ExtractCall? ==> c.maxRecords == (if Truthy(Get(options, Limit)) then options[Limit] else Get(settings, Records))
    ensures c.AnalyzeCall? ==> c.sample == (if Truthy(Get(options, Limit)) then options[Limit] else Get(settings, Recipes))
    ensures c.AnalyzeCall? ==> c.timeout == (if Truthy(Get(options, Timeout)) then options[Timeout] else Get(settings, Timeout))
    ensures c.AnalyzeCall? && UseLlm !in settings ==> c.useLlm == JBool(true)
    ensures c.AnalyzeCall? && IncludeContentReview !in settings ==> c.includeContentReview == JBool(true)
    ensures c.ReviewCall? && Csv !in settings ==> c.csv == JBool(false)
  {
    match step
    case Extract =>
      ExtractCall(Get(options, DatabaseId),
                  Or(Get(options, Limit), Get(settings, Records)),
                  GetOr(options, DryRun, JBool(false)))
    case Analyze =>
      AnalyzeCall(Get(options, Profile),
                  GetOr(options, Quick, JBool(false)),
                  Or(Get(options, Limit), Get(settings, Recipes)),
                  Get(settings, BatchSize),
                  Get(settings, BatchDelay),
                  Or(Get(options, Timeout), Get(settings, Timeout)),
                  GetOr(settings, UseLlm, JBool(true)),
                  GetOr(settings, IncludeContentReview, JBool(true)))
    case Review =>
      ReviewCall(GetOr(settings, Csv, JBool(false)),
                 GetOr(settings, IssuesOnly, JBool(false)),
                 GetOr(settings, Summary, JBool(false)))
  }

  /** A global limit of 0 is falsy, so the profile's value is used. */
  lemma ZeroLimitDefers(step: Step, settings: Dict, options: Dict)
    requires Limit in options && options[Limit] == JInt(0)
    ensures step.Extract? ==> InvocationFor(step, settings, options).maxRecords == Get(settings, Records)
    ensures step.Analyze? ==> InvocationFor(step, settings, options).sample == Get(settings, Recipes)
  {
  }

  /** What a step comes to before its command runs: the call it makes, or
      the error raised while its settings are read, either inside the
      step's handler (reported as the step's failure) or outside it
      (reported as an unexpected error). */
  datatype Prepared = Call(invocation: Invocation) | RaisedInStep(message: string) | RaisedOutside(message: string)


  /** The call of a step. Every step reads `ctx.profile_settings.get(step,
      {})` outside its handler. The extract step then reads `records` from
      its section only when the global limit is falsy; the analyze step
      reads its section outside the handler; the review step reads it
      inside. */
  function CallFor(step: Step, profileSettings: Json, options: Dict): (p: Prepared)
    ensures p.Call? <==> SectionIsDict(profileSettings, step)
                         || (profileSettings.JObj? && step.Extract? && Truthy(Get(options, Limit)))
    ensures p.RaisedInStep? <==> profileSettings.JObj? && !SectionIsDict(profileSettings, step) && step.Review?
    ensures p.Call? ==> p.invocation == InvocationFor(step, SectionOf(profileSettings, step), options)
    ensures !p.Call? && !profileSettings.JObj? ==> p.message == NoAttributeGet(profileSettings)
    ensures !p.Call? && profileSettings.JObj? ==>
              && step.SectionKey() in profileSettings.fields
              && p.message == NoAttributeGet(profileSettings.fields[step.SectionKey()])
  {
    if !profileSettings.JObj? then RaisedOutside(NoAttributeGet(profileSettings))
    else
      var section := GetOr(profileSettings.fields, step.SectionKey(), JObj(map[]));
      match step
      case Extract =>
        if Truthy(Get(options, Limit)) || section.JObj? then Call(InvocationFor(step, SectionOf(profileSettings, step), options))
        else RaisedOutside(NoAttributeGet(section))
      case Analyze =>
        if section.JObj? then Call(InvocationFor(step, section.fields, options)) else RaisedOutside(NoAttributeGet(section))
      case Review =>
        if section.JObj? then Call(InvocationFor(step, section.fields, options)) else RaisedInStep(NoAttributeGet(section))
  }

  /** Under a truthy global limit the extract call does not depend on the
      profile's extract section at all. */
  lemma ExtractIgnoresSectionUnderLimit(profileSettings: Json, profileSettings': Json, options: Dict)
    requires profileSettings.JObj? && profileSettings'.JObj? && Truthy(Get(options, Limit))
    ensures CallFor(Extract, profileSettings, options) == CallFor(Extract, profileSettings', options)
    ensures CallFor(Extract, profileSettings, options).Call?
  {
    var c := CallFor(Extract, profileSettings, options).invocation;
    var c' := CallFor(Extract, profileSettings', options).invocation;
    assert c.maxRecords == options[Limit] == c'.maxRecords;
  }

  /** What a command invocation does. */
  datatype StepResult = Done | Raised(message: string)

  /** How a pipeline run ends. `calls` are the invocations made, in order. */
  datatype Outcome =
    | Rejected(invalid: seq<string>)
    | Completed(calls: seq<Invocation>)
    | StepFailed(calls: seq<Invocation>, at: nat, step: Step, message: string, restart: Option<seq<string>>)
    | Unexpected(calls: seq<Invocation>, at: nat, step: Step, message: string)

  /** The call of every step, in order. A step's call depends only on the
      step, the settings and the options, so computing all of them up front
      gives each step the call it would make when reached. */
  function Plan(steps: seq<Step>, profileSettings: Json, options: Dict): (plan: seq<Prepared>)
    ensures |plan| == |steps|
    ensures forall j :: 0 <= j < |steps| ==> plan[j] == CallFor(steps[j], profileSettings, options)
  {
    seq(|steps|, j requires 0 <= j < |steps| => CallFor(steps[j], profileSettings, options))
  }

  /** `calls` are the planned calls of the first steps, in order. */
  predicate CallsMade(plan: seq<Prepared>, calls: seq<Invocation>) {
    |calls| <= |plan| && forall j :: 0 <= j < |calls| ==> plan[j] == Call(calls[j])
  }

  /** The first `n` calls finished. */
  predicate AllDone(calls: seq<Invocation>, n: nat, perform: Invocation -> StepResult) {
    n <= |calls| && forall j :: 0 <= j < n ==> perform(calls[j]).Done?
  }

  /** The steps from index `i` on, after `done` has run; `plan` holds each
      step's call. */
  function RunFrom(steps: seq<Step>, plan: seq<Prepared>, i: nat,
                   perform: Invocation -> StepResult, done: seq<Invocation>): (o: Outcome)
    requires |plan| == |steps| && i <= |steps| && |done| == i
    requires CallsMade(plan, done) && AllDone(done, i, perform)
    ensures !o.Rejected? && CallsMade(plan, o.calls) && i <= |o.calls| && o.calls[..i] == done
    ensures o.Completed? ==> |o.calls| == |steps| && AllDone(o.calls, |steps|, perform)
    ensures !o.Completed? ==> i <= o.at < |steps| && o.step == steps[o.at] && AllDone(o.calls, o.at, perform)
    ensures o.StepFailed? ==>
              && ((|o.calls| == o.at + 1 && perform(o.calls[o.at]) == Raised(o.message))
                  || (|o.calls| == o.at && plan[o.at] == RaisedInStep(o.message)))
              && (o.restart.Some? <==> |steps| - o.at > 1)
              && (o.restart.Some? ==> o.restart.value == Names(steps[o.at..]))
    ensures o.Unexpected? ==> |o.calls| == o.at && plan[o.at] == RaisedOutside(o.message)
    decreases |steps| - i
  {
    if i == |steps| then Completed(done)
    else
      var restart := if |steps| - i > 1 then Some(Names(steps[i..])) else None;
      match plan[i]
      case RaisedOutside(message) => Unexpected(done, i, steps[i], message)
      case RaisedInStep(message) => StepFailed(done, i, steps[i], message, restart)
      case Call(call) =>
        var result := perform(call);
        if result.Raised? then StepFailed(done + [call], i, steps[i], result.message, restart)
        else RunFrom(steps, plan, i + 1, perform, done + [call])
  }

  /** The command-line names of some steps. */
  function Names(steps: seq<Step>): (r: seq<string>)
    ensures |r| == |steps|
    ensures forall i :: 0 <= i < |steps| ==> r[i] == steps[i].Name()
  {
    seq(|steps|, i requires 0 <= i < |steps| => steps[i].Name())
  }

  /** The profile's settings as `get_profile_settings` returns them: the
      profile's entry, `None` for an unknown profile; without a profile,
      `{}`. */
  function LoadedSettings(profile: Option<string>, profiles: Dict): (r: Json)
    ensures !GivenText(profile) ==> r == JObj(map[])
  {
    if GivenText(profile) then Profiles.ProfileSettings(profiles, KeyOf(profile.value)) else JObj(map[])
  }

  /** The settings the pipeline evidently means to use: the profile's entry
      when it is a dictionary, `{}` otherwise (the value it starts from). */
  function ProfileSettingsOrEmpty(profile: Option<string>, profiles: Dict): (r: Json)
    ensures r.JObj?
    ensures LoadedSettings(profile, profiles).JObj? ==> r == LoadedSettings(profile, profiles)
  {
    var loaded := LoadedSettings(profile, profiles);
    if loaded.JObj? then loaded else JObj(map[])
  }

  /** `run_pipeline` as written: an invalid name rejects the whole list
      before anything runs; otherwise the steps run in order until the
      first failure. */
  function RunPipelineAsWritten(names: seq<string>, profile: Option<string>, options: Option<Dict>,
                                profiles: Dict, perform: Invocation -> StepResult): (o: Outcome)
    ensures o.Rejected? <==> InvalidSteps(names) != []
    ensures o.Rejected? ==> o.invalid == InvalidSteps(names)
  {
    Execute(names, LoadedSettings(profile, profiles), options.GetOr(map[]), perform)
  }

  /** `run_pipeline` with an unknown profile falling back to no settings. */
  function RunPipeline(names: seq<string>, profile: Option<string>, options: Option<Dict>,
                       profiles: Dict, perform: Invocation -> StepResult): (o: Outcome)
    ensures o.Rejected? <==> InvalidSteps(names) != []
    ensures o.Rejected? ==> o.invalid == InvalidSteps(names)
    ensures o.Unexpected? ==> o.step.Analyze? || o.step.Extract?
    ensures o.Unexpected? ==> !SectionIsDict(ProfileSettingsOrEmpty(profile, profiles), o.step)
  {
    Execute(names, ProfileSettingsOrEmpty(profile, profiles), options.GetOr(map[]), perform)
  }

  /** Validation, then the run. */
  function Execute(names: seq<string>, profileSettings: Json, options: Dict,
                   perform: Invocation -> StepResult): (o: Outcome)
    ensures o.Rejected? <==> InvalidSteps(names) != []
    ensures o.Rejected? ==> o.invalid == InvalidSteps(names)
    ensures !o.Rejected? && !o.Completed? ==> o.at < |names|
    ensures o.Unexpected? ==> !SectionIsDict(profileSettings, o.step)
    ensures o.Unexpected? && profileSettings.JObj? ==> !o.step.Review?
  {
    var invalid := InvalidSteps(names);
    if invalid != [] then Rejected(invalid)
    else
      var steps := StepsOf(names);
      RunFrom(steps, Plan(steps, profileSettings, options), 0, perform, [])
  }

  /** A list of step names has no invalid entry. */
  lemma {:induction false} AllValid(names: seq<string>)
    requires forall i :: 0 <= i < |names| ==> StepNamed(names[i]).Some?
    ensures InvalidSteps(names) == []
    decreases |names|
  {
    if names != [] {
      AllValid(names[..|names| - 1]);
    }
  }

  /** The names of the steps are all valid. */
  lemma NamesValid(steps: seq<Step>)
    ensures InvalidSteps(Names(steps)) == []
  {
    var names := Names(steps);
    forall i | 0 <= i < |names| ensures StepNamed(names[i]).Some? {
      assert StepNamed(steps[i].Name()).Some?;
    }
    AllValid(names);
  }

  /** The names of the steps read back as those steps. */
  lemma NamesAreSteps(steps: seq<Step>)
    ensures InvalidSteps(Names(steps)) == []
    ensures StepsOf(Names(steps)) == steps
  {
    NamesValid(steps);
    var r := StepsOf(Names(steps));
    forall i | 0 <= i < |steps| ensures r[i] == steps[i] {
      assert r[i].Name() == steps[i].Name();
    }
  }

  /** A step's call can be made and the command finishes. */
  predicate Finishes(step: Step, profileSettings: Json, options: Dict, perform: Invocation -> StepResult) {
    CallFor(step, profileSettings, options).Call? && perform(CallFor(step, profileSettings, options).invocation).Done?
  }

  /** When every remaining planned call can be made and finishes, the run
      completes with one call per step. */
  lemma {:induction false} RunFromCompletes(steps: seq<Step>, plan: seq<Prepared>, i: nat,
                                            perform: Invocation -> StepResult, done: seq<Invocation>)
    requires |plan| == |steps| && i <= |steps| && |done| == i
    requires CallsMade(plan, done) && AllDone(done, i, perform)
    requires forall j :: i <= j < |steps| ==> plan[j].Call? && perform(plan[j].invocation).Done?
    ensures RunFrom(steps, plan, i, perform, done).Completed?
    decreases |steps| - i
  {
    if i < |steps| {
      var c := plan[i].invocation;
      var done' := done + [c];
      assert forall j :: 0 <= j < i ==> done'[j] == done[j];
      RunFromCompletes(steps, plan, i + 1, perform, done');
    }
  }

  /** A pipeline of valid names completes exactly when every step's call
      can be made and finishes. */
  lemma CompletesIffAllFinish(names: seq<string>, profileSettings: Json, options: Dict, perform: Invocation -> StepResult)
    requires InvalidSteps(names) == []
    ensures Execute(names, profileSettings, options, perform).Completed?
            <==> forall j :: 0 <= j < |names| ==> Finishes(StepsOf(names)[j], profileSettings, options, perform)
  {
    var steps := StepsOf(names);
    var plan := Plan(steps, profileSettings, options);
    ExecuteRuns(names, profileSettings, options, perform);
    PlanCompletes(steps, plan, perform);
    FinishesAsPlanned(steps, profileSettings, options, perform);
  }

  /** Every step finishes exactly when every planned call can be made and
      finishes. */
  lemma FinishesAsPlanned(steps: seq<Step>, profileSettings: Json, options: Dict, perform: Invocation -> StepResult)
    ensures var plan := Plan(steps, profileSettings, options);
            (forall j :: 0 <= j < |steps| ==> Finishes(steps[j], profileSettings, options, perform))
            <==> (forall j :: 0 <= j < |steps| ==> plan[j].Call? && perform(plan[j].invocation).Done?)
  {
    var plan := Plan(steps, profileSettings, options);
    forall j | 0 <= j < |steps|
      ensures Finishes(steps[j], profileSettings, options, perform) <==> plan[j].Call? && perform(plan[j].invocation).Done?
    {
      assert plan[j] == CallFor(steps[j], profileSettings, options);
    }
  }

  /** A run from the first step completes exactly when every planned call
      can be made and finishes. */
  lemma PlanCompletes(steps: seq<Step>, plan: seq<Prepared>, perform: Invocation -> StepResult)
    requires |plan| == |steps|
    ensures RunFrom(steps, plan, 0, perform, []).Completed?
            <==> forall j :: 0 <= j < |steps| ==> plan[j].Call? && perform(plan[j].invocation).Done?
  {
    var o := RunFrom(steps, plan, 0, perform, []);
    if forall j :: 0 <= j < |steps| ==> plan[j].Call? && perform(plan[j].invocation).Done? {
      RunFromCompletes(steps, plan, 0, perform, []);
    }
    if o.Completed? {
      forall j | 0 <= j < |steps| ensures plan[j].Call? && perform(plan[j].invocation).Done? {
        assert plan[j] == Call(o.calls[j]);
      }
    }
  }

  /** Restarting with the suggested steps makes the failed call again
      first, and with the same command behaviour fails the same way. */
  lemma RestartRepeatsFailure(names: seq<string>, profileSettings: Json, options: Dict, perform: Invocation -> StepResult)
    requires Execute(names, profileSettings, options, perform).StepFailed?
    requires Execute(names, profileSettings, options, perform).restart.Some?
    ensures var o := Execute(names, profileSettings, options, perform);
            var o' := Execute(o.restart.value, profileSettings, options, perform);
            && o'.StepFailed? && o'.at == 0 && o'.step == o.step && o'.message == o.message
            && o'.calls == o.calls[o.at..]
  {
    var steps := StepsOf(names);
    ExecuteRuns(names, profileSettings, options, perform);
    var o := Execute(names, profileSettings, options, perform);
    NamesAreSteps(steps[o.at..]);
    ExecuteRuns(o.restart.value, profileSettings, options, perform);
    RestFailsFirst(steps, profileSettings, options, perform);
  }

  /** The steps from a failed one on, run afresh, fail at their first step
      the same way. */
  lemma RestFailsFirst(steps: seq<Step>, profileSettings: Json, options: Dict, perform: Invocation -> StepResult)
    requires RunFrom(steps, Plan(steps, profileSettings, options), 0, perform, []).StepFailed?
    ensures var o := RunFrom(steps, Plan(steps, profileSettings, options), 0, perform, []);
            var rest := steps[o.at..];
            var o' := RunFrom(rest, Plan(rest, profileSettings, options), 0, perform, []);
            && o'.StepFailed? && o'.at == 0 && o'.step == o.step && o'.message == o.message
            && o'.calls == o.calls[o.at..]
  {
    var plan := Plan(steps, profileSettings, options);
    var o := RunFrom(steps, plan, 0, perform, []);
    var rest := steps[o.at..];
    var plan' := Plan(rest, profileSettings, options);
    assert plan'[0] == plan[o.at];
    FailsFirst(rest, plan', perform);
  }

  /** A review section that is not a dictionary fails the review step
      itself, inside its handler: a step failure before the command is
      called, with restart advice when steps remain. */
  lemma ReviewSectionFailsInStep(names: seq<string>, profileSettings: Json, options: Dict, perform: Invocation -> StepResult)
    requires InvalidSteps(names) == [] && names != [] && names[0] == "review"
    requires profileSettings.JObj? && ReviewStep in profileSettings.fields
    requires !profileSettings.fields[ReviewStep].JObj?
    ensures var o := Execute(names, profileSettings, options, perform);
            && o.StepFailed? && o.at == 0 && o.step == Review && o.calls == []
            && (o.restart.Some? <==> |names| > 1)
            && o.message == NoAttributeGet(profileSettings.fields[ReviewStep])
  {
    var steps := StepsOf(names);
    assert steps[0] == Review by {
      assert steps[0].Name() == "review";
    }
    ExecuteRuns(names, profileSettings, options, perform);
    ReviewRaisesFirst(steps, profileSettings, options);
    FailsFirst(steps, Plan(steps, profileSettings, options), perform);
  }

  /** A first review step whose section is not a dictionary raises inside
      its handler. */
  lemma ReviewRaisesFirst(steps: seq<Step>, profileSettings: Json, options: Dict)
    requires steps != [] && steps[0] == Review
    requires profileSettings.JObj? && ReviewStep in profileSettings.fields
    requires !profileSettings.fields[ReviewStep].JObj?
    ensures Plan(steps, profileSettings, options)[0].RaisedInStep?
    ensures Plan(steps, profileSettings, options)[0].message == NoAttributeGet(profileSettings.fields[ReviewStep])
  {
    assert Plan(steps, profileSettings, options)[0] == CallFor(Review, profileSettings, options);
  }

  /** A pipeline of valid names runs its planned calls from the first
      step. */
  lemma ExecuteRuns(names: seq<string>, profileSettings: Json, options: Dict, perform: Invocation -> StepResult)
    requires InvalidSteps(names) == []
    ensures Execute(names, profileSettings, options, perform)
            == RunFrom(StepsOf(names), Plan(StepsOf(names), profileSettings, options), 0, perform, [])
  {
  }

  /** A run whose first step raises, while reading its settings inside its
      handler or in the command, fails there: with no call in the first
      case and with that one call in the second. */
  lemma FailsFirst(steps: seq<Step>, plan: seq<Prepared>, perform: Invocation -> StepResult)
    requires |plan| == |steps| && steps != []
    requires plan[0].RaisedInStep? || (plan[0].Call? && perform(plan[0].invocation).Raised?)
    ensures var o := RunFrom(steps, plan, 0, perform, []);
            && o.StepFailed? && o.at == 0 && o.step == steps[0] && (o.restart.Some? <==> |steps| > 1)
            && (plan[0].RaisedInStep? ==> o.calls == [] && o.message == plan[0].message)
            && (plan[0].Call? ==> o.calls == [plan[0].invocation] && o.message == perform(plan[0].invocation).message)
  {
  }

  /** As written, an unknown profile stops every valid pipeline before its
      first step: the step reads its settings from `None`. */
  lemma AsWrittenUnknownProfileStops(names: seq<string>, profile: Option<string>, options: Option<Dict>,
                                     profiles: Dict, perform: Invocation -> StepResult)
    requires GivenText(profile) && KeyOf(profile.value) !in Section(profiles, ProfilesSection)
    requires InvalidSteps(names) == [] && names != []
    ensures var o := RunPipelineAsWritten(names, profile, options, profiles, perform);
            o.Unexpected? && o.at == 0 && o.calls == []
            && o.message == "'NoneType' object has no attribute 'get'"
  {
    assert LoadedSettings(profile, profiles) == JNull;
    var steps := StepsOf(names);
    var plan := Plan(steps, JNull, options.GetOr(map[]));
    ExecuteRuns(names, JNull, options.GetOr(map[]), perform);
    assert plan[0] == RaisedOutside(NoAttributeGet(JNull));
    StopsFirstOutside(steps, plan, perform);
    NoneTypeMessage();
  }

  /** A run whose first step raises outside its handler stops there with
      an unexpected error and no call. */
  lemma StopsFirstOutside(steps: seq<Step>, plan: seq<Prepared>, perform: Invocation -> StepResult)
    requires |plan| == |steps| && steps != [] && plan[0].RaisedOutside?
    ensures RunFrom(steps, plan, 0, perform, []) == Unexpected([], 0, steps[0], plan[0].message)
  {
  }

  /** With the fallback, an unknown profile runs as if none was given. */
  lemma UnknownProfileIgnored(names: seq<string>, profile: Option<string>, options: Option<Dict>,
                              profiles: Dict, perform: Invocation -> StepResult)
    requires GivenText(profile) && KeyOf(profile.value) !in Section(profiles, ProfilesSection)
    ensures RunPipeline(names, profile, options, profiles, perform) == RunPipeline(names, None, options, profiles, perform)
  {
    assert LoadedSettings(profile, profiles) == JNull;
  }

  // ---------------------------------------------------------------------------
  // The shared client

  /** The context a pipeline's steps share; `client` is the cached client. */
  datatype Context<C> = Context(profileSettings: Json, options: Dict, client: Option<C>)

  /** `get_notion_client`: the cached client, or the outcome of creating
      one (`create`), which is cached when it succeeds. Returns the result,
      the context after, and whether a client was created. */
  function GetClient<C>(ctx: Context<C>, create: Result<C>): (r: (Result<C>, Context<C>, bool))
    ensures ctx.client.Some? ==> r == (Success(ctx.client.value), ctx, false)
    ensures ctx.client.None? ==> r.0 == create && r.2 == create.Success?
    ensures r.1.profileSettings == ctx.profileSettings && r.1.options == ctx.options
    ensures r.0.Success? ==> r.1.client == Some(r.0.value)
    ensures r.0.Failure? ==> r.1 == ctx
  {
    if ctx.client.Some? then (Success(ctx.client.value), ctx, false)
    else if create.Success? then (create, ctx.(client := Some(create.value)), true)
    else (create, ctx, false)
  }

  /** A run of `get_notion_client` calls, the i-th offered `creates[i]`:
      the results, the final context and the number of clients created. */
  function GetClients<C>(ctx: Context<C>, creates: seq<Result<C>>): (r: (seq<Result<C>>, Context<C>, nat))
    ensures |r.0| == |creates|
    ensures r.2 <= 1
    ensures ctx.client.Some? ==> r.2 == 0 && r.1 == ctx
    ensures ctx.client.Some? ==> forall i :: 0 <= i < |r.0| ==> r.0[i] == Success(ctx.client.value)
    ensures r.1.client.Some? ==> forall i :: 0 <= i < |r.0| && r.0[i].Success? ==> r.0[i].value == r.1.client.value
    ensures r.1.client.None? ==> r.2 == 0 && forall i :: 0 <= i < |r.0| ==> r.0[i].Failure?
    decreases |creates|
  {
    if creates == [] then ([], ctx, 0)
    else
      var (first, ctx', made) := GetClient(ctx, creates[0]);
      var (rest, ctx'', more) := GetClients(ctx', creates[1..]);
      ([first] + rest, ctx'', (if made then 1 else 0) + more)
  }
}
