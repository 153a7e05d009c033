/**
 * Saved run configurations of liteflow (liteflow/utils/workflow/run_config.py over the
 * `run_configs` table of liteflow/models.py). A run configuration is a row plus a directory
 * `<organization>/<pipeline_name>/<run_name>` under the run-configs directory, holding
 * `params.yaml` and, when a config was chosen, a copy of it as `nextflow.config`.
 * Paths are sequences of segments relative to the run-configs directory; the YAML
 * serialisation of the parameters is a function given by the caller.
 */
module RunConfigs {

  import opened Wrappers
  import Configs
  import opened Tables

  type Path = seq<string>
  type Params = map<string, string>

  /** A row of `run_configs`; its dictionary form has exactly these columns. */
  datatype RunConfigRow = RunConfigRow(
    id: int, organization: string, pipelineName: string, runName: string,
    ref: string, refType: string, nextflowVersion: string, parameters: Params,
    configId: Option<int>, pipelineId: int, createdAt: int, updatedAt: int)

  /** The table, the files and the directories under the run-configs directory. */
  datatype RunStore = RunStore(rows: seq<RunConfigRow>, files: map<Path, string>, dirs: set<Path>)

  datatype RunError =
    | RunNameTaken(runName: string)                                          // ValueError
    | RunNotFound(organization: string, pipelineName: string, runName: string)  // FileNotFoundError

  /** What a new run configuration is made of: the arguments of `create_run_config`. */
  datatype RunRequest = RunRequest(
    organization: string, pipelineName: string, runName: string, pipelineId: int,
    ref: string, refType: string, nextflowVersion: string, parameters: Params,
    configId: Option<int>)

  function RunDir(organization: string, pipelineName: string, runName: string): (p: Path)
    ensures |p| == 3
  {
    [organization, pipelineName, runName]
  }

  function ParamsPath(dir: Path): Path { dir + ["params.yaml"] }
  function ConfigCopyPath(dir: Path): Path { dir + ["nextflow.config"] }
  function RunInfoPath(dir: Path): Path { dir + ["run.yml"] }

  /** `p` is `dir` or lies below it. */
  predicate Under(p: Path, dir: Path)
  {
    |dir| <= |p| && p[..|dir|] == dir
  }

  /** `run_name` is a unique column. */
  ghost predicate Valid(st: RunStore)
  {
    forall i, j :: 0 <= i < |st.rows| && 0 <= j < |st.rows| && st.rows[i].runName == st.rows[j].runName ==> i == j
  }

  predicate IsRun(row: RunConfigRow, organization: string, pipelineName: string, runName: string)
  {
    row.organization == organization && row.pipelineName == pipelineName && row.runName == runName
  }

  /** `filter_by(run_name=...).first()`: whether some row already uses the name. */
  function NameTaken(rows: seq<RunConfigRow>, runName: string): (b: bool)
    ensures b <==> exists i :: 0 <= i < |rows| && rows[i].runName == runName
  {
    if |rows| == 0 then false
    else if rows[0].runName == runName then true
    else
      assert forall i :: 1 <= i < |rows| ==> rows[i] == rows[1..][i - 1];
      NameTaken(rows[1..], runName)
  }

  /** `filter_by(organization, pipeline_name, run_name).first()`: the first row with that triple. */
  function FindRun(rows: seq<RunConfigRow>, organization: string, pipelineName: string, runName: string)
    : (r: Option<nat>)
    ensures r.None? <==> forall i :: 0 <= i < |rows| ==> !IsRun(rows[i], organization, pipelineName, runName)
    ensures r.Some? ==> r.value < |rows| && IsRun(rows[r.value], organization, pipelineName, runName)
  {
    if |rows| == 0 then None
    else if IsRun(rows[0], organization, pipelineName, runName) then Some(0)
    else
      match FindRun(rows[1..], organization, pipelineName, runName)
      case None => None
      case Some(i) => Some(i + 1)
  }

  /** The primary key of a run configuration row. */
  function RowId(row: RunConfigRow): int
  {
    row.id
  }

  /** `Config.query.get(id)`: the config row with that id, if any. */
  function ConfigById(rows: seq<Configs.ConfigRow>, id: int): (r: Option<Configs.ConfigRow>)
    ensures r.Some? ==> r.value in rows && r.value.id == id
    ensures r.None? ==> forall i :: 0 <= i < |rows| ==> rows[i].id != id
  {
    if |rows| == 0 then None
    else if rows[0].id == id then Some(rows[0])
    else ConfigById(rows[1..], id)
  }

  /**
   * The content to copy as `nextflow.config`: there is one only when the config id is set
   * and not 0, the config row exists and its file exists.
   */
  function ConfigToCopy(configs: Configs.Store, configId: Option<int>): (r: Option<string>)
    ensures r.Some? <==>
      configId.Some? && configId.value != 0 && ConfigById(configs.rows, configId.value).Some?
      && ConfigById(configs.rows, configId.value).value.filename in configs.files
    ensures r.Some? ==> r.value == configs.files[ConfigById(configs.rows, configId.value).value.filename]
  {
    if configId.None? || configId.value == 0 then None
    else
      match ConfigById(configs.rows, configId.value)
      case None => None
      case Some(config) => if config.filename in configs.files then Some(configs.files[config.filename]) else None
  }

  /** The row `create_run_config` inserts: the request's fields as given. */
  function NewRow(rq: RunRequest, id: int, now: int): RunConfigRow
  {
    RunConfigRow(id, rq.organization, rq.pipelineName, rq.runName, rq.ref, rq.refType,
                 rq.nextflowVersion, rq.parameters, rq.configId, rq.pipelineId, now, now)
  }

  /**
   * `create_run_config`: a run name in use anywhere is refused before anything is made;
   * otherwise the directory (with its parents) is made, `params.yaml` written, the config
   * copied when there is one, and the row added.
   */
  function CreateRun(st: RunStore, configs: Configs.Store, rq: RunRequest, dump: Params -> string, now: int)
    : (r: Result<(RunConfigRow, RunStore), RunError>)
    ensures r.Err? <==> NameTaken(st.rows, rq.runName)
    ensures r.Err? ==> r.error == RunNameTaken(rq.runName)
  {
    if NameTaken(st.rows, rq.runName) then Err(RunNameTaken(rq.runName))
    else
      var dir := RunDir(rq.organization, rq.pipelineName, rq.runName);
      var dirs := st.dirs + {dir[..1], dir[..2], dir};
      var files := st.files[ParamsPath(dir) := dump(rq.parameters)];
      var files := match ConfigToCopy(configs, rq.configId)
        case None => files
        case Some(content) => files[ConfigCopyPath(dir) := content];
      var row := NewRow(rq, NextId(st.rows, RowId), now);
      Ok((row, RunStore(st.rows + [row], files, dirs)))
  }

  /** `get_run_config(organization, pipeline_name, run_name)`. */
  function GetRun(st: RunStore, organization: string, pipelineName: string, runName: string)
    : (r: Result<RunConfigRow, RunError>)
    ensures r.Ok? <==> exists i :: 0 <= i < |st.rows| && IsRun(st.rows[i], organization, pipelineName, runName)
    ensures r.Ok? ==> r.value in st.rows && IsRun(r.value, organization, pipelineName, runName)
    ensures r.Err? ==> r.error == RunNotFound(organization, pipelineName, runName)
  {
    match FindRun(st.rows, organization, pipelineName, runName)
    case None => Err(RunNotFound(organization, pipelineName, runName))
    case Some(i) => Ok(st.rows[i])
  }

  /** `get_config_file_from_run_config`: the copied config's path when it exists. */
  function ConfigFile(st: RunStore, organization: string, pipelineName: string, runName: string)
    : (r: Result<Option<Path>, RunError>)
    ensures r.Err? <==> GetRun(st, organization, pipelineName, runName).Err?
    ensures r.Err? ==> r.error == RunNotFound(organization, pipelineName, runName)
    ensures r.Ok? ==> (r.value.Some? <==> ConfigCopyPath(RunDir(organization, pipelineName, runName)) in st.files)
    ensures r.Ok? && r.value.Some? ==> r.value.value == ConfigCopyPath(RunDir(organization, pipelineName, runName))
  {
    match GetRun(st, organization, pipelineName, runName)
    case Err(e) => Err(e)
    case Ok(_) =>
      var path := ConfigCopyPath(RunDir(organization, pipelineName, runName));
      if path in st.files then Ok(Some(path)) else Ok(None)
  }

  /** `shutil.rmtree(dir)`: every file and directory at or below `dir` goes. */
  function RemoveTree(files: map<Path, string>, dirs: set<Path>, dir: Path): (r: (map<Path, string>, set<Path>))
    ensures forall p :: p in r.0 <==> p in files && !Under(p, dir)
    ensures forall p :: p in r.0 ==> r.0[p] == files[p]
    ensures forall p :: p in r.1 <==> p in dirs && !Under(p, dir)
  {
    (map p | p in files && !Under(p, dir) :: files[p], set p | p in dirs && !Under(p, dir))
  }

  /** `delete_run_config`: the directory goes if it exists, then the row. */
  function DeleteRun(st: RunStore, organization: string, pipelineName: string, runName: string)
    : (r: Result<RunStore, RunError>)
    ensures r.Err? <==> GetRun(st, organization, pipelineName, runName).Err?
  {
    match FindRun(st.rows, organization, pipelineName, runName)
    case None => Err(RunNotFound(organization, pipelineName, runName))
    case Some(i) =>
      var dir := RunDir(organization, pipelineName, runName);
      var (files, dirs) := if dir in st.dirs then RemoveTree(st.files, st.dirs, dir) else (st.files, st.dirs);
      Ok(RunStore(RemoveAt(st.rows, i), files, dirs))
  }

  /**
   * A run name already used by any run configuration, of any organization or pipeline, is
   * refused.
   */
  lemma TakenNameRefused(st: RunStore, configs: Configs.Store, rq: RunRequest, dump: Params -> string, now: int, i: nat)
    requires i < |st.rows| && st.rows[i].runName == rq.runName
    ensures CreateRun(st, configs, rq, dump, now) == Err(RunNameTaken(rq.runName))
  {
  }

  /**
   * A created run configuration has a row with exactly the request's fields, its directory,
   * `params.yaml` holding the dumped parameters, and a copy of the config exactly when there
   * is one to copy; no `run.yml` is written and no other file changes.
   */
  lemma CreateEffect(st: RunStore, configs: Configs.Store, rq: RunRequest, dump: Params -> string, now: int)
    requires Valid(st)
    requires CreateRun(st, configs, rq, dump, now).Ok?
    ensures var (row, st') := CreateRun(st, configs, rq, dump, now).value;
      var dir := RunDir(rq.organization, rq.pipelineName, rq.runName);
      && row == NewRow(rq, row.id, now)
      && st'.rows == st.rows + [row]
      && GetRun(st', rq.organization, rq.pipelineName, rq.runName) == Ok(row)
      && dir in st'.dirs && st.dirs <= st'.dirs
      && st'.files[ParamsPath(dir)] == dump(rq.parameters)
      && (ConfigToCopy(configs, rq.configId).None? ==>
            (ConfigCopyPath(dir) in st'.files <==> ConfigCopyPath(dir) in st.files)
            && (ConfigCopyPath(dir) in st.files ==> st'.files[ConfigCopyPath(dir)] == st.files[ConfigCopyPath(dir)]))
      && (ConfigToCopy(configs, rq.configId).Some? ==> st'.files[ConfigCopyPath(dir)] == ConfigToCopy(configs, rq.configId).value)
      && (RunInfoPath(dir) in st'.files <==> RunInfoPath(dir) in st.files)
      && (forall p :: p != ParamsPath(dir) && p != ConfigCopyPath(dir) ==>
            (p in st'.files <==> p in st.files) && (p in st.files ==> st'.files[p] == st.files[p]))
      && Valid(st')
  {
    var (row, st') := CreateRun(st, configs, rq, dump, now).value;
    var dir := RunDir(rq.organization, rq.pipelineName, rq.runName);
    assert RunInfoPath(dir) != ParamsPath(dir) && RunInfoPath(dir) != ConfigCopyPath(dir) by {
      assert RunInfoPath(dir)[3] == "run.yml";
    }
    assert ParamsPath(dir) != ConfigCopyPath(dir) by {
      assert ParamsPath(dir)[3] == "params.yaml";
    }
    RunFoundLast(st.rows, row);
  }

  /** A row whose run name no earlier row uses is what the lookup of its triple finds. */
  lemma {:induction false} RunFoundLast(rows: seq<RunConfigRow>, row: RunConfigRow)
    requires !NameTaken(rows, row.runName)
    ensures FindRun(rows + [row], row.organization, row.pipelineName, row.runName) == Some(|rows|)
  {
    if |rows| == 0 {
      assert rows + [row] == [row];
    } else {
      assert (rows + [row])[1..] == rows[1..] + [row];
      assert !NameTaken(rows[1..], row.runName);
      RunFoundLast(rows[1..], row);
    }
  }

  /**
   * Deleting a run configuration removes its row, and its directory with everything in it;
   * other rows and files outside the directory stay, and a second lookup fails.
   */
  lemma DeleteEffect(st: RunStore, organization: string, pipelineName: string, runName: string)
    requires Valid(st)
    requires DeleteRun(st, organization, pipelineName, runName).Ok?
    ensures var st' := DeleteRun(st, organization, pipelineName, runName).value;
      var dir := RunDir(organization, pipelineName, runName);
      && |st'.rows| == |st.rows| - 1
      && GetRun(st', organization, pipelineName, runName).Err?
      && (forall row :: row in st.rows && row.runName != runName ==> row in st'.rows)
      && (dir in st.dirs ==> forall p :: p in st'.files ==> !Under(p, dir))
      && (forall p :: p in st.files && !Under(p, dir) ==> p in st'.files && st'.files[p] == st.files[p])
      && Valid(st')
  {
    var i := FindRun(st.rows, organization, pipelineName, runName).value;
    var rows' := RemoveAt(st.rows, i);
    assert DeleteRun(st, organization, pipelineName, runName).value.rows == rows';
    assert forall a :: 0 <= a < |rows'| ==> rows'[a] == st.rows[if a < i then a else a + 1];
    forall row | row in st.rows && row.runName != runName
      ensures row in rows'
    {
      var k :| 0 <= k < |st.rows| && st.rows[k] == row;
      if k < i {
        assert rows'[k] == row;
      } else {
        assert rows'[k - 1] == row;
      }
    }
  }

  /** Creating keeps run names unique, and so does deleting. */
  lemma OperationsKeepValid(st: RunStore, configs: Configs.Store, rq: RunRequest, dump: Params -> string, now: int)
    requires Valid(st)
    ensures CreateRun(st, configs, rq, dump, now).Ok? ==> Valid(CreateRun(st, configs, rq, dump, now).value.1)
    ensures DeleteRun(st, rq.organization, rq.pipelineName, rq.runName).Ok? ==>
      Valid(DeleteRun(st, rq.organization, rq.pipelineName, rq.runName).value)
  {
    if CreateRun(st, configs, rq, dump, now).Ok? {
      CreateEffect(st, configs, rq, dump, now);
    }
    if DeleteRun(st, rq.organization, rq.pipelineName, rq.runName).Ok? {
      DeleteEffect(st, rq.organization, rq.pipelineName, rq.runName);
    }
  }

  /** `RunConfigManager`: the run-configs table and directory. */
  class RunConfigManager {
    var rows: seq<RunConfigRow>
    var files: map<Path, string>
    var dirs: set<Path>

    function State(): RunStore
      reads this
    {
      RunStore(rows, files, dirs)
    }

    constructor(st: RunStore)
      ensures State() == st
    {
      rows := st.rows;
      files := st.files;
      dirs := st.dirs;
    }

    /** `create_run_config(...)`: on a taken name nothing is made. */
    method CreateRunConfig(configs: Configs.Store, rq: RunRequest, dump: Params -> string, now: int)
      returns (r: Result<RunConfigRow, RunError>)
      modifies this
      ensures var expected := CreateRun(old(State()), configs, rq, dump, now);
        && (r.Ok? <==> expected.Ok?)
        && (r.Ok? ==> r.value == expected.value.0 && State() == expected.value.1)
        && (r.Err? ==> r.error == expected.error && State() == old(State()))
    {
      if NameTaken(rows, rq.runName) {
        return Err(RunNameTaken(rq.runName));
      }
      var dir := RunDir(rq.organization, rq.pipelineName, rq.runName);
      dirs := dirs + {dir[..1], dir[..2], dir};
      files := files[ParamsPath(dir) := dump(rq.parameters)];
      if rq.configId.Some? && rq.configId.value != 0 {
        var config := ConfigById(configs.rows, rq.configId.value);
        if config.Some? && config.value.filename in configs.files {
          files := files[ConfigCopyPath(dir) := configs.files[config.value.filename]];
        }
      }
      var row := NewRow(rq, NextId(rows, RowId), now);
      rows := rows + [row];
      r := Ok(row);
    }

    /** `get_run_config(...)`. */
    method GetRunConfig(organization: string, pipelineName: string, runName: string)
      returns (r: Result<RunConfigRow, RunError>)
      ensures r == GetRun(State(), organization, pipelineName, runName)
    {
      var i := FindRun(rows, organization, pipelineName, runName);
      if i.None? {
        return Err(RunNotFound(organization, pipelineName, runName));
      }
      r := Ok(rows[i.value]);
    }

    /** `get_config_file_from_run_config(...)`. */
    method GetConfigFileFromRunConfig(organization: string, pipelineName: string, runName: string)
      returns (r: Result<Option<Path>, RunError>)
      ensures r == ConfigFile(State(), organization, pipelineName, runName)
    {
      var run := GetRunConfig(organization, pipelineName, runName);
      if run.Err? {
        return Err(run.error);
      }
      var path := ConfigCopyPath(RunDir(organization, pipelineName, runName));
      if path in files {
        return Ok(Some(path));
      }
      r := Ok(None);
    }

    /** `list_run_configs()`: one entry per row, in table order. */
    method ListRunConfigs() returns (r: seq<RunConfigRow>)
      ensures |r| == |rows| && forall i :: 0 <= i < |rows| ==> r[i] == rows[i]
    {
      r := [];
      var i := 0;
      while i < |rows|
        invariant 0 <= i <= |rows|
        invariant r == rows[..i]
      {
        r := r + [rows[i]];
        i := i + 1;
      }
    }

    /** `delete_run_config(...)`: on a missing run configuration nothing is removed. */
    method DeleteRunConfig(organization: string, pipelineName: string, runName: string)
      returns (r: Option<RunError>)
      modifies this
      ensures var expected := DeleteRun(old(State()), organization, pipelineName, runName);
        && (r.None? <==> expected.Ok?)
        && (r.None? ==> State() == expected.value)
        && (r.Some? ==> r.value == expected.error && State() == old(State()))
    {
      var i := FindRun(rows, organization, pipelineName, runName);
      if i.None? {
        return Some(RunNotFound(organization, pipelineName, runName));
      }
      var dir := RunDir(organization, pipelineName, runName);
      if dir in dirs {
        files, dirs := RemoveTree(files, dirs, dir).0, RemoveTree(files, dirs, dir).1;
      }
      rows := RemoveAt(rows, i.value);
      r := None;
    }
  }
}
