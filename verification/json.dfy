/** Loosely typed values as Python holds them after `json.load` or YAML
    loading: settings dictionaries, profile entries, pipeline options and
    saved documents.

    Dictionary keys are `Key`s: every key the program spells out is a
    constructor of its own, and any other key (a profile or shortcut name, a
    key the program never reads) is `Named` with its text. A document is
    taken to be keyed through `KeyOf`, so `Named` never carries the text of
    a spelled-out key. */
module Values {

  datatype Key =
    // analysis settings
    | UseLlm | IncludeContentReview | BatchSize | BatchDelay | Timeout
    | SampleSize | StartIndex | EndIndex
    // the profiles document
    | Description | Profile | ProfilesSection | Shortcuts | FlagDefaults
    // pipeline settings and options
    | ExtractStep | AnalyzeStep | ReviewStep | Limit | Records | Recipes
    | DatabaseId | DryRun | Quick | Csv | IssuesOnly | Summary
    // saved documents
    | ExportedAt | TotalRecords
    | Named(name: string)
  {
    /** The key's text. */
    function Name(): string {
      match this
      case UseLlm => "use_llm"
      case IncludeContentReview => "include_content_review"
      case BatchSize => "batch_size"
      case BatchDelay => "batch_delay"
      case Timeout => "timeout"
      case SampleSize => "sample_size"
      case StartIndex => "start_index"
      case EndIndex => "end_index"
      case Description => "description"
      case Profile => "profile"
      case ProfilesSection => "profiles"
      case Shortcuts => "shortcuts"
      case FlagDefaults => "flag_defaults"
      case ExtractStep => "extract"
      case AnalyzeStep => "analyze"
      case ReviewStep => "review"
      case Limit => "limit"
      case Records => "records"
      case Recipes => "recipes"
      case DatabaseId => "database_id"
      case DryRun => "dry_run"
      case Quick => "quick"
      case Csv => "csv"
      case IssuesOnly => "issues_only"
      case Summary => "summary"
      case ExportedAt => "exported_at"
      case TotalRecords => "total_records"
      case Named(name) => name
    }
  }

  /** The spelled-out keys. */
  const Spelled: seq<Key> := [
    UseLlm, IncludeContentReview, BatchSize, BatchDelay, Timeout, SampleSize, StartIndex, EndIndex,
    Description, Profile, ProfilesSection, Shortcuts, FlagDefaults,
    ExtractStep, AnalyzeStep, ReviewStep, Limit, Records, Recipes, DatabaseId, DryRun, Quick, Csv,
    IssuesOnly, Summary, ExportedAt, TotalRecords]

  /** The key for a text: the spelled-out key with that text, else `Named`. */
  function KeyOf(s: string): (k: Key)
    ensures k.Name() == s
  {
    KeyIn(Spelled, s)
  }

  function KeyIn(ks: seq<Key>, s: string): (k: Key)
    ensures k.Name() == s
    decreases |ks|
  {
    if ks == [] then Named(s)
    else if ks[0].Name() == s then ks[0]
    else KeyIn(ks[1..], s)
  }

  datatype Json =
    | JNull
    | JBool(b: bool)
    | JInt(i: int)
    | JReal(r: real)
    | JStr(s: string)
    | JList(items: seq<Json>)
    | JObj(fields: map<Key, Json>)

  /** A dictionary (`Dict[str, Any]`). */
  type Dict = map<Key, Json>

  /** Python truthiness: `None`, `False`, zero, and empty strings, lists and
      dictionaries are false; everything else is true. */
  predicate Truthy(v: Json) {
    match v
    case JNull => false
    case JBool(b) => b
    case JInt(i) => i != 0
    case JReal(r) => r != 0.0
    case JStr(s) => s != []
    case JList(items) => items != []
    case JObj(fields) => fields != map[]
  }

  /** `type(v).__name__`, the name Python's error messages give a value's
      type. */
  function TypeName(v: Json): string {
    match v
    case JNull => "NoneType"
    case JBool(_) => "bool"
    case JInt(_) => "int"
    case JReal(_) => "float"
    case JStr(_) => "str"
    case JList(_) => "list"
    case JObj(_) => "dict"
  }

  /** The `AttributeError` raised by `v.get(...)` on a value that is not a
      dictionary: it names the value's type. */
  function NoAttributeGet(v: Json): string {
    "'" + TypeName(v) + "' object has no attribute 'get'"
  }
  /** The message of `.get` on `None`. */
  lemma NoneTypeMessage()
    ensures NoAttributeGet(JNull) == "'NoneType' object has no attribute 'get'"
  {
  }

  /** Python's `a or b`: the left operand when it is truthy, else the right. */
  function Or(a: Json, b: Json): (r: Json)
    ensures Truthy(r) <==> Truthy(a) || Truthy(b)
    ensures Truthy(a) ==> r == a
    ensures !Truthy(a) ==> r == b
  {
    if Truthy(a) then a else b
  }

  /** `d.get(k, default)`. */
  function GetOr(d: Dict, k: Key, default: Json): (r: Json)
    ensures k in d ==> r == d[k]
    ensures k !in d ==> r == default
  {
    if k in d then d[k] else default
  }

  /** `d.get(k)`: the value, or `None` when the key is absent. */
  function Get(d: Dict, k: Key): Json {
    GetOr(d, k, JNull)
  }

  /** A sub-dictionary: the value when it is a dictionary, `{}` when the key
      is absent. */
  function Section(d: Dict, k: Key): (r: Dict)
    ensures k in d && d[k].JObj? ==> r == d[k].fields
    ensures k !in d ==> r == map[]
  {
    if k in d && d[k].JObj? then d[k].fields else map[]
  }

  /** A list of strings as a JSON list. */
  function StrList(xs: seq<string>): (r: Json)
    ensures r.JList? && |r.items| == |xs|
    ensures forall i :: 0 <= i < |xs| ==> r.items[i] == JStr(xs[i])
  {
    JList(seq(|xs|, i requires 0 <= i < |xs| => JStr(xs[i])))
  }
}
