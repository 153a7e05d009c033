/**
 * liteflow's pipeline manager (liteflow/utils/workflow/pipeline_manager.py): the pipeline
 * directory name, the per-pipeline summaries of `list_pipelines`, the checks and schema
 * normalisation of `get_pipeline`, and the directory `create_run_config` writes.
 *
 * What the repository and the provider answer for a pipeline (its refs, its metadata, its
 * schema and config) is given as input: a `load` function per stored pipeline whose error
 * stands for any exception raised while loading it. Paths are sequences of segments
 * relative to the root directory; JSON and YAML serialisations are functions given by the
 * caller.
 */
module PipelineManager {

  import opened Wrappers
  import opened Strings
  import GitRepos

  type Path = seq<string>
  type Params = map<string, string>

  /** `get_pipeline_path(organization, project)`: `pipelines/<organization>_<project>`. */
  function PipelinePath(organization: string, project: string): (p: Path)
    ensures |p| == 2 && p[0] == "pipelines"
    ensures StartsWith(p[1], organization + "_") && EndsWith(p[1], project)
  {
    var name := organization + "_" + project;
    assert name[..|organization + "_"|] == organization + "_";
    assert name[|name| - |project|..] == project;
    ["pipelines", name]
  }

  /** Two different repositories can be given the same directory. */
  lemma PipelinePathCollides()
    ensures PipelinePath("nf_core", "rnaseq") == PipelinePath("nf", "core_rnaseq")
  {
    assert "nf_core" + "_" + "rnaseq" == "nf_core_rnaseq";
    assert "nf" + "_" + "core_rnaseq" == "nf_core_rnaseq";
  }

  /** A stored pipeline, with the `ref` and `ref_type` attributes the manager reads. */
  datatype DbPipeline = DbPipeline(id: int, provider: string, orgName: string, projectName: string,
                                   ref: string, refType: string)

  /**
   * What loading a pipeline gives: the branch and tag names in the provider's order, the
   * branch map, and the metadata, or `None` when fetching the config or parsing it raised.
   */
  datatype Loaded = Loaded(branchNames: seq<string>, branches: map<string, string>,
                           tagNames: seq<string>, metadata: Option<map<string, string>>)

  /**
   * What the source can load: `branchNames` is `list(refs['branches'].keys())`, so it lists
   * each key of the branch map once, and the tag names are distinct keys as well.
   */
  predicate KeysListed(l: Loaded)
  {
    && (forall i, j :: 0 <= i < j < |l.branchNames| ==> l.branchNames[i] != l.branchNames[j])
    && (set n | n in l.branchNames) == l.branches.Keys
    && (forall i, j :: 0 <= i < j < |l.tagNames| ==> l.tagNames[i] != l.tagNames[j])
  }

  /** One entry of `list_pipelines`. */
  datatype Summary = Summary(
    id: int, provider: string, organization: string, project: string, description: string,
    headSha: string, branch: Option<string>, tag: Option<string>,
    branches: seq<string>, tags: seq<string>, nextflowVersion: string)

  const NoDescription: string := "No description available"
  const NoVersion: string := "N/A"

  /** `d.get(key, default)`. */
  function Get(m: map<string, string>, key: string, default: string): (v: string)
    ensures key in m ==> v == m[key]
    ensures key !in m ==> v == default
  {
    if key in m then m[key] else default
  }

  /** `current_branch`: the stored ref for a branch ref, else the first branch, else none. */
  function CurrentBranch(db: DbPipeline, branchNames: seq<string>): Option<string>
  {
    if db.refType == "branch" then Some(db.ref)
    else if |branchNames| > 0 then Some(branchNames[0])
    else None
  }

  /** `current_tag`: the stored ref exactly when it is a tag ref. */
  function CurrentTag(db: DbPipeline): Option<string>
  {
    if db.refType == "tag" then Some(db.ref) else None
  }

  /** The summary of a loaded pipeline. */
  function Summarize(db: DbPipeline, l: Loaded): Summary
  {
    var metadata := l.metadata.GetOr(map[]);
    var branch := CurrentBranch(db, l.branchNames);
    Summary(db.id, db.provider, db.orgName, db.projectName,
            Get(metadata, "description", NoDescription),
            if branch.Some? then Get(l.branches, branch.value, "") else "",
            branch, CurrentTag(db), l.branchNames, l.tagNames,
            Get(metadata, "nextflowVersion", NoVersion))
  }

  /** The summary states the stored repository, its branch and tag, and the head's sha. */
  lemma SummaryFields(db: DbPipeline, l: Loaded)
    ensures var s := Summarize(db, l);
      && s.id == db.id && s.organization == db.orgName && s.project == db.projectName
      && (db.refType == "branch" ==> s.branch == Some(db.ref))
      && (db.refType != "branch" && |l.branchNames| > 0 ==> s.branch == Some(l.branchNames[0]))
      && (db.refType != "branch" && |l.branchNames| == 0 ==> s.branch.None?)
      && (s.tag.Some? <==> db.refType == "tag")
      && (s.tag.Some? ==> s.tag.value == db.ref)
      && (s.branch.Some? && s.branch.value in l.branches ==> s.headSha == l.branches[s.branch.value])
      && (s.branch.None? || s.branch.value !in l.branches ==> s.headSha == "")
    ensures var s := Summarize(db, l);
      KeysListed(l) && db.refType != "branch" ==>
        && (s.branch.None? <==> |l.branches| == 0)
        && (s.branch.Some? ==> s.headSha == l.branches[l.branchNames[0]])
  {
    if KeysListed(l) && |l.branches| > 0 {
      var n :| n in l.branches;
      assert n in l.branchNames;
    }
    if KeysListed(l) && |l.branchNames| > 0 {
      assert l.branchNames[0] in l.branchNames;
    }
  }

  /**
   * A metadata failure does not drop the pipeline: its description and version fall back
   * to "No description available" and "N/A".
   */
  lemma MetadataFallback(db: DbPipeline, l: Loaded)
    requires l.metadata.None?
    ensures Summarize(db, l).description == NoDescription
    ensures Summarize(db, l).nextflowVersion == NoVersion
  {
  }

  /** Every stored row loads. */
  predicate AllLoad(dbs: seq<DbPipeline>, load: DbPipeline -> Result<Loaded, string>)
  {
    forall i :: 0 <= i < |dbs| ==> load(dbs[i]).Ok?
  }

  /**
   * `list_pipelines`: the summaries of the pipelines that load, in table order; at most one
   * per row, and one per row when every row loads.
   */
  function Summaries(dbs: seq<DbPipeline>, load: DbPipeline -> Result<Loaded, string>): (r: seq<Summary>)
    ensures |r| <= |dbs|
    ensures AllLoad(dbs, load) ==> |r| == |dbs|
  {
    if |dbs| == 0 then []
    else
      var rest := Summaries(dbs[1..], load);
      match load(dbs[0])
      case Err(_) => rest
      case Ok(l) => [Summarize(dbs[0], l)] + rest
  }

  /** The listing of two runs of pipelines is the listing of each, one after the other. */
  lemma {:induction false} SummariesConcat(a: seq<DbPipeline>, b: seq<DbPipeline>, load: DbPipeline -> Result<Loaded, string>)
    ensures Summaries(a + b, load) == Summaries(a, load) + Summaries(b, load)
  {
    if |a| > 0 {
      assert (a + b)[1..] == a[1..] + b;
      SummariesConcat(a[1..], b, load);
    } else {
      assert a + b == b;
    }
  }

  /** A pipeline that fails to load is left out and the others are listed as before. */
  lemma FailureSkipped(a: seq<DbPipeline>, x: DbPipeline, b: seq<DbPipeline>, load: DbPipeline -> Result<Loaded, string>)
    requires load(x).Err?
    ensures Summaries(a + [x] + b, load) == Summaries(a, load) + Summaries(b, load)
  {
    SummariesConcat(a + [x], b, load);
    SummariesConcat(a, [x], load);
    SingleFailure(x, load);
  }

  /** A single pipeline that fails to load lists nothing. */
  lemma SingleFailure(x: DbPipeline, load: DbPipeline -> Result<Loaded, string>)
    requires load(x).Err?
    ensures Summaries([x], load) == []
  {
    assert [x][1..] == [];
  }

  /** Every listed summary is that of a stored pipeline that loaded, and every such pipeline is listed. */
  lemma {:induction false} SummariesExact(dbs: seq<DbPipeline>, load: DbPipeline -> Result<Loaded, string>)
    ensures forall s :: s in Summaries(dbs, load) ==>
      exists db :: db in dbs && load(db).Ok? && s == Summarize(db, load(db).value)
    ensures forall db :: db in dbs && load(db).Ok? ==> Summarize(db, load(db).value) in Summaries(dbs, load)
  {
    if |dbs| > 0 {
      SummariesExact(dbs[1..], load);
      forall db | db in dbs[1..]
        ensures db in dbs
      {
      }
      forall db | db in dbs
        ensures db == dbs[0] || db in dbs[1..]
      {
        var k :| 0 <= k < |dbs| && dbs[k] == db;
        if k > 0 {
          assert dbs[1..][k - 1] == db;
        }
      }
    }
  }

  /** When no pipeline loads, the list is empty. */
  lemma {:induction false} NothingLoadsNothingListed(dbs: seq<DbPipeline>, load: DbPipeline -> Result<Loaded, string>)
    requires forall db :: db in dbs ==> load(db).Err?
    ensures Summaries(dbs, load) == []
  {
    if |dbs| > 0 {
      assert dbs[0] in dbs;
      NothingLoadsNothingListed(dbs[1..], load);
    }
  }

  /**
   * Why `get_pipeline` raises: no such row (a 404), building the repository or reading its
   * refs raised (with the exception's text), an empty schema, no definitions, an empty config.
   */
  datatype GetError = PipelineNotFound | RepoFailed(text: string) | InvalidSchema | NoDefinitions | NoConfig

  /**
   * The schema normalisation of `get_pipeline`: an empty schema is refused; `definitions`
   * is kept, or copied from `$defs`, or else from `defs`; with none of them it is refused.
   * A normalised schema has `definitions`, taken from the first of the three present, and
   * keeps every other key.
   */
  function NormalizeSchema<V>(schema: map<string, V>): (r: Result<map<string, V>, GetError>)
    ensures r.Err? <==> |schema| == 0 || ("definitions" !in schema && "$defs" !in schema && "defs" !in schema)
    ensures r.Ok? ==>
      && "definitions" in r.value
      && r.value.Keys == schema.Keys + {"definitions"}
      && (forall k :: k in schema && k != "definitions" ==> r.value[k] == schema[k])
      && ("definitions" in schema ==> r.value["definitions"] == schema["definitions"])
      && ("definitions" !in schema && "$defs" in schema ==> r.value["definitions"] == schema["$defs"])
      && ("definitions" !in schema && "$defs" !in schema ==> r.value["definitions"] == schema["defs"])
  {
    if |schema| == 0 then Err(InvalidSchema)
    else if "definitions" in schema then Ok(schema)
    else if "$defs" in schema then Ok(schema["definitions" := schema["$defs"]])
    else if "defs" in schema then Ok(schema["definitions" := schema["defs"]])
    else Err(NoDefinitions)
  }

  /** Normalising a normalised schema changes nothing. */
  lemma NormalizeSchemaIdempotent<V>(schema: map<string, V>)
    requires NormalizeSchema(schema).Ok?
    ensures NormalizeSchema(NormalizeSchema(schema).value) == NormalizeSchema(schema)
  {
    var s := NormalizeSchema(schema).value;
    assert "definitions" in s;
    assert |s| > 0 by {
      assert "definitions" in s.Keys;
    }
  }

  /** The `details` part of `get_pipeline`'s answer. */
  datatype Details = Details(id: int, provider: string, org: string, name: string,
                             ref: string, refType: string, refs: GitRepos.Refs)

  datatype PipelineView<V> = PipelineView(details: Details, schema: map<string, V>, readme: string)

  /**
   * `get_pipeline`: the stored row (or a 404), then the repository and its refs, then the
   * schema, then the config, which must not be empty; a README that cannot be fetched reads
   * as empty. `repo` is what building the provider, the repository and the pipeline and
   * reading the refs gave: the refs, or the text of what they raised.
   */
  function GetPipeline<V>(db: Option<DbPipeline>, repo: Result<GitRepos.Refs, string>, schema: map<string, V>,
                          config: string, readme: Option<string>): (r: Result<PipelineView<V>, GetError>)
    ensures db.None? ==> r == Err(PipelineNotFound)
    ensures db.Some? && repo.Err? ==> r == Err(RepoFailed(repo.error))
    ensures db.Some? && repo.Ok? && NormalizeSchema(schema).Err? ==> r == Err(NormalizeSchema(schema).error)
    ensures db.Some? && repo.Ok? && NormalizeSchema(schema).Ok? && config == "" ==> r == Err(NoConfig)
    ensures r.Ok? ==> && repo.Ok?
                      && r.value.schema == NormalizeSchema(schema).value
                      && "definitions" in r.value.schema
                      && r.value.readme == readme.GetOr("")
                      && r.value.details.refs == repo.value
  {
    match db
    case None => Err(PipelineNotFound)
    case Some(p) =>
      match repo
      case Err(e) => Err(RepoFailed(e))
      case Ok(refs) =>
        match NormalizeSchema(schema)
        case Err(e) => Err(e)
        case Ok(s) =>
          if config == "" then Err(NoConfig)
          else
            Ok(PipelineView(Details(p.id, p.provider, p.orgName, p.projectName, p.ref, p.refType, refs),
                            s, readme.GetOr("")))
  }

  /** The `pipeline_info` fields `create_run_config` reads. */
  datatype PipelineInfo = PipelineInfo(name: string, org: string, tag: Option<string>, head: Option<string>)

  /** What `run.yml` records. */
  datatype RunInfo = RunInfo(nextflowVersion: string, dateCreated: string, runName: string,
                             pipelineName: string, organization: string, revision: Option<string>,
                             configFile: string)

  /** Python truthiness of an optional string. */
  predicate Truthy(s: Option<string>)
  {
    s.Some? && s.value != ""
  }

  /** `pipeline_info.get('tag') or pipeline_info.get('head')`. */
  function Revision(info: PipelineInfo): (r: Option<string>)
    ensures Truthy(info.tag) ==> r == info.tag
    ensures !Truthy(info.tag) ==> r == info.head
  {
    if Truthy(info.tag) then info.tag else info.head
  }

  function MakeRunInfo(runName: string, info: PipelineInfo, nextflowVersion: string,
                       selectedConfig: Option<string>, date: string): (r: RunInfo)
    ensures r.revision == Revision(info)
    ensures Truthy(selectedConfig) ==> r.configFile == selectedConfig.value
    ensures !Truthy(selectedConfig) ==> r.configFile == ""
    ensures r.runName == runName && r.pipelineName == info.name && r.organization == info.org
  {
    RunInfo(nextflowVersion, date, runName, info.name, info.org, Revision(info),
            if Truthy(selectedConfig) then selectedConfig.value else "")
  }

  /** `f'{run_name}_{timestamp}'`. */
  function RunDirName(runName: string, timestamp: nat): string
  {
    runName + "_" + NatToString(timestamp)
  }

  /** The directory name ends with the timestamp's digits after the last `_`, and starts with the run name. */
  lemma RunDirNameParts(runName: string, timestamp: nat)
    ensures StartsWith(RunDirName(runName, timestamp), runName + "_")
    ensures LastPart(RunDirName(runName, timestamp), '_') == NatToString(timestamp)
  {
    var digits := NatToString(timestamp);
    var name := RunDirName(runName, timestamp);
    assert name[..|runName + "_"|] == runName + "_";
    assert '_' !in digits;
    var parts := Split(runName, '_');
    JoinSplit(runName, '_');
    SplitPartsFree(runName, '_');
    var all := parts + [digits];
    assert Join(all, '_') == name by {
      JoinAppend(parts, digits, '_');
    }
    SplitJoinLast(all, '_');
    SplitFree(digits, '_');
    assert all[..|all| - 1] == parts;
  }

  lemma {:induction false} JoinAppend(parts: seq<string>, last: string, c: char)
    requires |parts| >= 1
    ensures Join(parts + [last], c) == Join(parts, c) + [c] + last
  {
    if |parts| == 1 {
      assert (parts + [last])[1..] == [last];
    } else {
      assert (parts + [last])[1..] == parts[1..] + [last];
      JoinAppend(parts[1..], last, c);
    }
  }

  /** Runs created at different seconds get different directories. */
  lemma RunDirNamesDistinct(runName: string, t1: nat, t2: nat)
    requires t1 != t2
    ensures RunDirName(runName, t1) != RunDirName(runName, t2)
  {
    if RunDirName(runName, t1) == RunDirName(runName, t2) {
      RunDirNameParts(runName, t1);
      RunDirNameParts(runName, t2);
      NatToStringInjective(t1, t2);
    }
  }

  /**
   * The files of the run directory after `create_run_config`: `params.json`, then the
   * selected config copied under its own name when it is set and exists, then `run.yml`.
   */
  function RunFiles(files: map<Path, string>, dir: Path, params: Params, selectedConfig: Option<string>,
                    runInfo: RunInfo, json: Params -> string, yaml: RunInfo -> string): (r: map<Path, string>)
    ensures dir + ["run.yml"] in r && r[dir + ["run.yml"]] == yaml(runInfo)
    ensures files.Keys <= r.Keys
    ensures forall p :: p in r && p !in files ==>
      p == dir + ["params.json"] || p == dir + ["run.yml"] || (Truthy(selectedConfig) && p == dir + [selectedConfig.value])
  {
    var files := files[dir + ["params.json"] := json(params)];
    var files := if Truthy(selectedConfig) && ["configs", selectedConfig.value] in files
                 then files[dir + [selectedConfig.value] := files[["configs", selectedConfig.value]]]
                 else files;
    files[dir + ["run.yml"] := yaml(runInfo)]
  }

  /**
   * `run.yml` and `params.json` hold the serialised run information and parameters (unless
   * the selected config has that name); the config is copied only when it is set and
   * exists; no file outside the run directory changes.
   */
  lemma RunFilesEffect(files: map<Path, string>, runName: string, timestamp: nat, params: Params,
                       selectedConfig: Option<string>, runInfo: RunInfo,
                       json: Params -> string, yaml: RunInfo -> string)
    ensures var dir := ["run_configs", RunDirName(runName, timestamp)];
      var files' := RunFiles(files, dir, params, selectedConfig, runInfo, json, yaml);
      && files'[dir + ["run.yml"]] == yaml(runInfo)
      && (selectedConfig != Some("params.json") ==> files'[dir + ["params.json"]] == json(params))
      && (Truthy(selectedConfig) && selectedConfig.value != "run.yml" && ["configs", selectedConfig.value] in files ==>
            files'[dir + [selectedConfig.value]] == files[["configs", selectedConfig.value]])
      && (forall p :: |p| != 3 || p[..2] != dir ==> (p in files' <==> p in files) && (p in files ==> files'[p] == files[p]))
  {
    var dir := ["run_configs", RunDirName(runName, timestamp)];
    if Truthy(selectedConfig) {
      var src := ["configs", selectedConfig.value];
      assert src != dir + ["params.json"] by {
        assert src[0] != (dir + ["params.json"])[0];
      }
    }
    forall p | |p| != 3 || p[..2] != dir
      ensures p != dir + ["params.json"] && p != dir + ["run.yml"]
      ensures Truthy(selectedConfig) ==> p != dir + [selectedConfig.value]
    {
      assert (dir + ["params.json"])[..2] == dir;
      assert (dir + ["run.yml"])[..2] == dir;
      if Truthy(selectedConfig) {
        assert (dir + [selectedConfig.value])[..2] == dir;
      }
    }
  }

  /** The pipeline manager's view of the root directory. */
  class Manager {
    var files: map<Path, string>
    var dirs: set<Path>

    constructor(files: map<Path, string>, dirs: set<Path>)
      ensures this.files == files && this.dirs == dirs
    {
      this.files := files;
      this.dirs := dirs;
    }

    /** `list_pipelines()`: a pipeline whose loading raises is skipped. */
    method ListPipelines(dbs: seq<DbPipeline>, load: DbPipeline -> Result<Loaded, string>)
      returns (pipelineList: seq<Summary>)
      ensures pipelineList == Summaries(dbs, load)
    {
      pipelineList := [];
      var i := 0;
      while i < |dbs|
        invariant 0 <= i <= |dbs|
        invariant pipelineList == Summaries(dbs[..i], load)
      {
        SummariesConcat(dbs[..i], [dbs[i]], load);
        assert dbs[..i + 1] == dbs[..i] + [dbs[i]];
        assert [dbs[i]][1..] == [];
        var loaded := load(dbs[i]);
        if loaded.Ok? {
          pipelineList := pipelineList + [Summarize(dbs[i], loaded.value)];
        }
        i := i + 1;
      }
      assert dbs[..i] == dbs;
    }

    /**
     * `create_run_config(...)`: makes `run_configs/<run_name>_<timestamp>` and writes the
     * run's files there; returns the directory.
     */
    method CreateRunConfig(runName: string, info: PipelineInfo, params: Params, nextflowVersion: string,
                           selectedConfig: Option<string>, timestamp: nat, date: string,
                           json: Params -> string, yaml: RunInfo -> string)
      returns (dir: Path)
      modifies this
      ensures dir == ["run_configs", RunDirName(runName, timestamp)]
      ensures dirs == old(dirs) + {["run_configs"], dir}
      ensures files == RunFiles(old(files), dir, params, selectedConfig,
                                MakeRunInfo(runName, info, nextflowVersion, selectedConfig, date), json, yaml)
    {
      dirs := dirs + {["run_configs"]};
      dir := ["run_configs", runName + "_" + NatToString(timestamp)];
      dirs := dirs + {dir};
      files := files[dir + ["params.json"] := json(params)];
      if selectedConfig.Some? && selectedConfig.value != "" {
        var source := ["configs", selectedConfig.value];
        if source in files {
          files := files[dir + [selectedConfig.value] := files[source]];
        }
      }
      var runInfo := RunInfo(nextflowVersion, date, runName, info.name, info.org,
                             if Truthy(info.tag) then info.tag else info.head,
                             if Truthy(selectedConfig) then selectedConfig.value else "");
      files := files[dir + ["run.yml"] := yaml(runInfo)];
    }
  }
}
