/** Analysis profiles: named bundles of settings, shortcuts that point at
    profiles, and the defaults the analyze command starts from. The
    profiles document is passed in as a value; reading it from YAML is
    outside the model. Profile and shortcut names are keys of the document,
    looked up through `KeyOf`. */
module Profiles {
  import opened Wrappers
  import opened Values

  /** Where the profiles document came from. */
  datatype Source = FileMissing | Unreadable | Loaded(data: Dict)

  /** The built-in settings used when nothing else provides them. */
  const FallbackDefaults: Dict := map[
    UseLlm := JBool(true),
    IncludeContentReview := JBool(true),
    BatchSize := JInt(20),
    BatchDelay := JInt(2),
    Timeout := JInt(30)]

  /** The name of the profile `get_default_settings` falls back to. */
  const DefaultName: Key := Named("default")

  /** The built-in `quick` profile. */
  const QuickProfile: Dict := map[
    Description := JStr("Fast analysis - statistics only"),
    UseLlm := JBool(false),
    IncludeContentReview := JBool(false)]

  /** The built-in profiles document, used when the file is missing or
      cannot be read. */
  const DefaultProfiles: Dict := map[
    ProfilesSection := JObj(map[
      DefaultName := JObj(map[
        Description := JStr("Smart defaults for comprehensive analysis"),
        UseLlm := JBool(true),
        IncludeContentReview := JBool(true),
        BatchSize := JInt(20),
        BatchDelay := JInt(2),
        Timeout := JInt(30)]),
      Quick := JObj(QuickProfile),
      Named("testing") := JObj(map[
        Description := JStr("Test mode with sample recipes"),
        UseLlm := JBool(true),
        IncludeContentReview := JBool(true),
        SampleSize := JInt(10),
        Timeout := JInt(60)])]),
    Shortcuts := JObj(map[
      Quick := JObj(map[Profile := JStr("quick"), Description := JStr("Statistics only")]),
      Named("test") := JObj(map[Profile := JStr("testing"), Description := JStr("Test with 10 recipes")])]),
    FlagDefaults := JObj(FallbackDefaults)]

  /** `load_profiles`: the file's document (an empty file reads as `{}`),
      or the built-in document when there is no usable file. */
  function LoadProfiles(src: Source): (d: Dict)
    ensures src.Loaded? ==> d == src.data
    ensures !src.Loaded? ==> d == DefaultProfiles
  {
    match src
    case Loaded(data) => data
    case _ => DefaultProfiles
  }

  /** `load_profiles` with the loader's cache (`_profiles`): a cached
      document is returned without reading the file; otherwise a readable
      file's document is returned and cached, while a missing or unreadable
      file gives the built-in document without caching it. Returns the
      document and the cache after. */
  function LoadCached(cache: Option<Dict>, src: Source): (r: (Dict, Option<Dict>))
    ensures cache.None? ==> r.0 == LoadProfiles(src)
    ensures r.1.Some? ==> r.0 == r.1.value
    ensures r.1.None? <==> cache.None? && !src.Loaded?
  {
    if cache.Some? then (cache.value, cache)
    else match src
      case Loaded(data) => (data, Some(data))
      case _ => (DefaultProfiles, None)
  }

  /** Once a document has been read, every later load returns that same
      document, whatever has become of the file. */
  lemma CachedDocumentStays(cache: Option<Dict>, src: Source, src': Source)
    requires cache.Some? || src.Loaded?
    ensures LoadCached(LoadCached(cache, src).1, src') == LoadCached(cache, src)
  {
  }

  /** `get_profile_settings`: the named profile's entry, `None` (`JNull`)
      when the name is unknown. */
  function ProfileSettings(data: Dict, name: Key): (r: Json)
    ensures name in Section(data, ProfilesSection) ==> r == Section(data, ProfilesSection)[name]
    ensures name !in Section(data, ProfilesSection) ==> r == JNull
  {
    var profiles := Section(data, ProfilesSection);
    if name in profiles then profiles[name] else JNull
  }

  /** `get_shortcut_profile`: the `profile` entry of the named shortcut,
      `None` when the shortcut is unknown or names no profile. */
  function ShortcutProfile(data: Dict, name: Key): (r: Json)
    ensures name !in Section(data, Shortcuts) ==> r == JNull
    ensures name in Section(data, Shortcuts) && Section(data, Shortcuts)[name].JObj? ==>
              r == GetOr(Section(data, Shortcuts)[name].fields, Profile, JNull)
  {
    var shortcuts := Section(data, Shortcuts);
    if name in shortcuts && shortcuts[name].JObj? then GetOr(shortcuts[name].fields, Profile, JNull)
    else JNull
  }

  /** `get_default_settings`: a non-empty `flag_defaults`, else a truthy
      `default` profile (description included), else the fallback. */
  function DefaultSettings(data: Dict): (r: Dict)
    ensures Section(data, FlagDefaults) != map[] ==> r == Section(data, FlagDefaults)
    ensures (Section(data, FlagDefaults) == map[] && ProfileSettings(data, DefaultName).JObj?
             && ProfileSettings(data, DefaultName).fields != map[]) ==> r == ProfileSettings(data, DefaultName).fields
    ensures Section(data, FlagDefaults) == map[] && !Truthy(ProfileSettings(data, DefaultName)) ==>
              r == FallbackDefaults
  {
    var defaults := Section(data, FlagDefaults);
    if defaults != map[] then defaults
    else
      var p := ProfileSettings(data, DefaultName);
      if p.JObj? && p.fields != map[] then p.fields else FallbackDefaults
  }

  /** `apply_profile_to_settings`: a copy of the base overridden by the
      profile's entries other than `description`; the base itself when the
      profile is unknown or empty. */
  function ApplyProfile(data: Dict, base: Dict, name: Key): (r: Dict)
    ensures !Truthy(ProfileSettings(data, name)) ==> r == base
    ensures ProfileSettings(data, name).JObj? ==>
              var p := ProfileSettings(data, name).fields;
              && r.Keys == base.Keys + (p.Keys - {Description})
              && (forall k :: k in p && k != Description ==> r[k] == p[k])
              && (forall k :: k in base && (k !in p || k == Description) ==> r[k] == base[k])
  {
    var p := ProfileSettings(data, name);
    if p.JObj? && p.fields != map[] then base + (p.fields - {Description}) else base
  }

  /** `list_available_profiles` / `list_available_shortcuts`: each entry's
      description, "No description" when it has none; an entry that is not
      a dictionary has no `.get`, and the listing raises. */
  function Descriptions(section: Dict): (r: Option<map<Key, Json>>)
    ensures r.None? <==> exists n :: n in section && !section[n].JObj?
    ensures r.Some? ==> r.value.Keys == section.Keys
    ensures r.Some? ==> forall n :: n in section && Description in section[n].fields ==>
              r.value[n] == section[n].fields[Description]
    ensures r.Some? ==> forall n :: n in section && Description !in section[n].fields ==>
              r.value[n] == JStr("No description")
  {
    if exists n :: n in section && !section[n].JObj? then None
    else Some(map n | n in section :: GetOr(section[n].fields, Description, JStr("No description")))
  }

  function ListProfiles(data: Dict): Option<map<Key, Json>> {
    Descriptions(Section(data, ProfilesSection))
  }

  function ListShortcuts(data: Dict): Option<map<Key, Json>> {
    Descriptions(Section(data, Shortcuts))
  }

  /** The profile listing describes exactly the profiles
      `get_profile_settings` finds, each by its own description. */
  lemma ListedProfilesFound(data: Dict, name: Key)
    requires ListProfiles(data).Some?
    ensures name in ListProfiles(data).value <==> ProfileSettings(data, name) != JNull
    ensures name in ListProfiles(data).value ==>
              ListProfiles(data).value[name] == GetOr(ProfileSettings(data, name).fields, Description, JStr("No description"))
  {
    var section := Section(data, ProfilesSection);
    if name in section {
      assert section[name].JObj?;
    }
  }

  /** A shortcut that names a profile appears in the shortcut listing; an
      unlisted name names none. */
  lemma ListedShortcutsOnly(data: Dict, name: Key)
    requires ListShortcuts(data).Some?
    ensures ShortcutProfile(data, name) != JNull ==> name in ListShortcuts(data).value
    ensures name !in ListShortcuts(data).value ==> ShortcutProfile(data, name) == JNull
  {
  }

  /** The built-in `flag_defaults` are the fallback defaults, so with no
      profiles file the analyze command starts from the fallback. */
  lemma BuiltInDefaults()
    ensures Section(DefaultProfiles, FlagDefaults) == FallbackDefaults
    ensures DefaultSettings(LoadProfiles(FileMissing)) == FallbackDefaults
    ensures DefaultSettings(LoadProfiles(Unreadable)) == FallbackDefaults
  {
    assert UseLlm in FallbackDefaults;
  }

  /** Built-in shortcuts: `quick` points at the `quick` profile, `test` at
      `testing`, and other names at nothing. */
  lemma BuiltInShortcuts(name: Key)
    ensures ShortcutProfile(DefaultProfiles, Quick) == JStr("quick")
    ensures ShortcutProfile(DefaultProfiles, Named("test")) == JStr("testing")
    ensures name != Quick && name != Named("test") ==> ShortcutProfile(DefaultProfiles, name) == JNull
  {
  }

  /** The built-in `quick` profile turns both language-model features off
      and keeps every other setting. */
  lemma BuiltInQuickProfile(base: Dict)
    ensures var r := ApplyProfile(DefaultProfiles, base, Quick);
            && r.Keys == base.Keys + {UseLlm, IncludeContentReview}
            && r[UseLlm] == JBool(false) && r[IncludeContentReview] == JBool(false)
            && forall k :: k in base && k != UseLlm && k != IncludeContentReview ==> r[k] == base[k]
  {
    QuickProfileBuiltIn();
    ApplyQuickProfile(DefaultProfiles, base, Quick);
  }

  /** The built-in document's `quick` entry is the built-in `quick` profile. */
  lemma QuickProfileBuiltIn()
    ensures ProfileSettings(DefaultProfiles, Quick) == JObj(QuickProfile)
  {
    assert Section(DefaultProfiles, ProfilesSection)[Quick] == JObj(QuickProfile);
  }

  /** Applying a profile with the entries of the built-in `quick` profile. */
  lemma ApplyQuickProfile(data: Dict, base: Dict, name: Key)
    requires ProfileSettings(data, name) == JObj(QuickProfile)
    ensures var r := ApplyProfile(data, base, name);
            && r.Keys == base.Keys + {UseLlm, IncludeContentReview}
            && r[UseLlm] == JBool(false) && r[IncludeContentReview] == JBool(false)
            && forall k :: k in base && k != UseLlm && k != IncludeContentReview ==> r[k] == base[k]
  {
    var r := ApplyProfile(data, base, name);
    assert QuickProfile.Keys - {Description} == {UseLlm, IncludeContentReview};
    forall k | k in base && k != UseLlm && k != IncludeContentReview
      ensures r[k] == base[k]
    {
      assert k !in QuickProfile || k == Description;
    }
  }
}
