/** Where files go and what a saved document holds: the default locations
    under the data directory, the choice between a provided path and the
    default, and the dictionary written by `save_json_with_metadata`.

    Paths are text joined as `pathlib` joins relative names; whether a file
    exists is a predicate handed in (`onDisk`), and the export time is a parameter. */
module FileUtils {
  import opened Wrappers
  import opened PyStr
  import opened Values

  /** `data_dir / "raw" / "recipes.json"`. */
  function DefaultInputPath(dataDir: string): (p: string)
    ensures |dataDir| <= |p| && p[..|dataDir|] == dataDir
  {
    JoinPath(JoinPath(dataDir, "raw"), "recipes.json")
  }

  /** `get_default_output_path`: the analysis report, the review directory
      and the raw export have fixed names; any other type `t` is
      `processed/t.json`. */
  function DefaultOutputPath(outputType: string, dataDir: string): (p: string)
    ensures |dataDir| <= |p| && p[..|dataDir|] == dataDir
    ensures outputType == "analysis" ==> p == JoinPath(JoinPath(dataDir, "processed"), "analysis_report.json")
    ensures outputType == "review" ==> p == JoinPath(JoinPath(dataDir, "processed"), "review")
    ensures outputType == "raw" ==> p == DefaultInputPath(dataDir)
    ensures outputType !in {"analysis", "review", "raw"} ==>
              p == JoinPath(JoinPath(dataDir, "processed"), outputType + ".json")
  {
    if outputType == "analysis" then JoinPath(JoinPath(dataDir, "processed"), "analysis_report.json")
    else if outputType == "review" then JoinPath(JoinPath(dataDir, "processed"), "review")
    else if outputType == "raw" then JoinPath(JoinPath(dataDir, "raw"), "recipes.json")
    else JoinPath(JoinPath(dataDir, "processed"), outputType + ".json")
  }

  /** `resolve_output_path`: a provided path always wins; otherwise the
      default for the type. */
  function ResolveOutputPath(provided: Option<string>, defaultType: string, dataDir: string): (p: string)
    ensures GivenText(provided) ==> p == provided.value
    ensures !GivenText(provided) ==> p == DefaultOutputPath(defaultType, dataDir)
  {
    if GivenText(provided) then provided.value else DefaultOutputPath(defaultType, dataDir)
  }

  /** The path `resolve_input_file` looks at. */
  function InputCandidate(provided: Option<string>, dataDir: string): string {
    if GivenText(provided) then provided.value else DefaultInputPath(dataDir)
  }

  /** `resolve_input_file`: the provided path, or the default input, when
      that file exists; nothing otherwise. */
  function ResolveInputFile(provided: Option<string>, dataDir: string, onDisk: string -> bool): (r: Option<string>)
    ensures r.Some? <==> onDisk(InputCandidate(provided, dataDir))
    ensures r.Some? ==> r.value == InputCandidate(provided, dataDir)
    ensures r.Some? && !GivenText(provided) ==> r.value == DefaultInputPath(dataDir)
  {
    var candidate := InputCandidate(provided, dataDir);
    if onDisk(candidate) then Some(candidate) else None
  }

  /** Two types outside the fixed three get different default paths. */
  lemma OtherTypesDistinct(t: string, u: string, dataDir: string)
    requires t !in {"analysis", "review", "raw"} && u !in {"analysis", "review", "raw"}
    requires t != u
    ensures DefaultOutputPath(t, dataDir) != DefaultOutputPath(u, dataDir)
  {
    var dir := JoinPath(dataDir, "processed");
    var n := |dir| + (if dir != [] && dir[|dir| - 1] != '/' then 1 else 0);
    assert JoinPath(dir, t + ".json")[n..] == t + ".json";
    assert JoinPath(dir, u + ".json")[n..] == u + ".json";
    if |t| == |u| {
      assert exists i :: 0 <= i < |t| && t[i] != u[i];
      var i :| 0 <= i < |t| && t[i] != u[i];
      assert (t + ".json")[i] != (u + ".json")[i];
    }
  }

  /** The raw export is written where input is read from by default, and
      the type `analysis_report` shares the analysis report's path. */
  lemma SharedDefaults(dataDir: string)
    ensures DefaultOutputPath("raw", dataDir) == DefaultInputPath(dataDir)
    ensures DefaultOutputPath("analysis_report", dataDir) == DefaultOutputPath("analysis", dataDir)
  {
    var t := "analysis_report";
    assert |t| == 15;
    assert t != "analysis" && t != "review" && t != "raw";
    assert t + ".json" == "analysis_report.json";
  }

  /** `len(x)` for the values that have a length; anything else raises. */
  function Len(v: Json): (r: Option<nat>)
    ensures v.JList? ==> r == Some(|v.items|)
    ensures v.JNull? || v.JBool? || v.JInt? || v.JReal? ==> r.None?
  {
    match v
    case JList(items) => Some(|items|)
    case JStr(s) => Some(|s|)
    case JObj(fields) => Some(|fields|)
    case _ => None
  }

  /** The default entries: the export time, and the number of records when
      `records` is present (0 otherwise); a `records` value without a
      length raises. */
  function DefaultEntries(data: Dict, exportedAt: string): (r: Result<Dict>)
    ensures r.Failure? <==> Records in data && Len(data[Records]).None?
    ensures r.Success? ==> r.value.Keys == {ExportedAt, TotalRecords} && r.value[ExportedAt] == JStr(exportedAt)
    ensures r.Success? && Records !in data ==> r.value[TotalRecords] == JInt(0)
    ensures r.Success? && Records in data ==> r.value[TotalRecords] == JInt(Len(data[Records]).value)
  {
    if Records !in data then Success(map[ExportedAt := JStr(exportedAt), TotalRecords := JInt(0)])
    else
      var n := Len(data[Records]);
      if n.None? then Failure("object has no len()")
      else Success(map[ExportedAt := JStr(exportedAt), TotalRecords := JInt(n.value)])
  }

  /** The dictionary `save_json_with_metadata` writes: the defaults, then
      the metadata, then the data, a later source overriding an earlier
      one on a shared key. */
  function ExportData(data: Dict, metadata: Option<Dict>, exportedAt: string): (r: Result<Dict>)
    ensures r.Failure? <==> Records in data && Len(data[Records]).None?
    ensures r.Success? ==> r.value.Keys == {ExportedAt, TotalRecords} + metadata.GetOr(map[]).Keys + data.Keys
    ensures r.Success? ==> forall k :: k in data ==> r.value[k] == data[k]
    ensures r.Success? && metadata.Some? ==> forall k :: k in metadata.value && k !in data ==> r.value[k] == metadata.value[k]
    ensures r.Success? && ExportedAt !in data && ExportedAt !in metadata.GetOr(map[]) ==>
              r.value[ExportedAt] == JStr(exportedAt)
    ensures r.Success? && TotalRecords !in data && TotalRecords !in metadata.GetOr(map[]) ==>
              r.value[TotalRecords] == JInt(if Records in data then Len(data[Records]).value else 0)
  {
    var defaults := DefaultEntries(data, exportedAt);
    if defaults.Failure? then Failure(defaults.error)
    else Success(defaults.value + metadata.GetOr(map[]) + data)
  }

  /** Saving an exported document again without metadata writes it back
      unchanged: its own export time and count take precedence. Metadata
      carrying a `records` entry without a length is the exception: the
      second save raises on it. */
  lemma {:induction false} ReExportUnchanged(data: Dict, metadata: Option<Dict>, t: string, t': string)
    requires ExportData(data, metadata, t).Success?
    requires metadata.Some? && Records in metadata.value && Records !in data ==> Len(metadata.value[Records]).Some?
    ensures ExportData(ExportData(data, metadata, t).value, None, t') == Success(ExportData(data, metadata, t).value)
  {
    var r := ExportData(data, metadata, t).value;
    if Records in r {
      if Records in data {
        assert r[Records] == data[Records];
      } else {
        assert Records in metadata.GetOr(map[]);
      }
    }
    var d := DefaultEntries(r, t');
    assert d.Success? ==> d.value.Keys <= r.Keys;
    assert ExportData(r, None, t').value == d.value + map[] + r;
    assert d.value + map[] + r == r;
  }
}
