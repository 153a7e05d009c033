/**
 * A pipeline at a release in nfui (nfui/utils/pipeline.py): the choice of the release when
 * none is given (`main`, else `master`), its resolution to a commit sha through the
 * repository's refs, and the guarded fetches of `nextflow.config` and
 * `nextflow_schema.json` at that sha. The repository is the `GitRepo` of the GitRepos
 * module; the remote files are a function of path and sha.
 */
module NfuiPipeline {

  import opened Wrappers
  import opened GitRepos

  /** The `ValueError`s of the constructor and the fetches, and what `resolve_ref` raises. */
  datatype PipelineError =
    | NoDefaultBranch
    | Unresolved(release: string, releaseType: string)
    | RefFailure(cause: RefError)
    | NoCommitSha

  /** Python truthiness of an optional string: present and not empty. */
  predicate Truthy(s: Option<string>)
  {
    s.Some? && s.value != ""
  }

  /** `get_default_branch`: `main` if it is a branch, else `master`, else an error. */
  function DefaultBranch(refs: Refs): (r: Result<(string, string), PipelineError>)
    ensures r.Ok? <==> "main" in refs.branches || "master" in refs.branches
    ensures r.Ok? ==> r.value.1 == "branch" && r.value.0 in refs.branches
    ensures r.Ok? && r.value.0 == "master" ==> "main" !in refs.branches
    ensures r.Err? ==> r.error == NoDefaultBranch
  {
    if "main" in refs.branches then Ok(("main", "branch"))
    else if "master" in refs.branches then Ok(("master", "branch"))
    else Err(NoDefaultBranch)
  }

  /** The release and ref type the constructor settles on, before resolving them. */
  function ChosenRelease(refs: Refs, release: Option<string>, releaseType: Option<string>)
    : (r: Result<(string, string), PipelineError>)
    ensures Truthy(release) && Truthy(releaseType) ==> r == Ok((release.value, releaseType.value))
    ensures !(Truthy(release) && Truthy(releaseType)) ==> r == DefaultBranch(refs)
  {
    if Truthy(release) && Truthy(releaseType) then Ok((release.value, releaseType.value))
    else DefaultBranch(refs)
  }

  /**
   * The constructor's outcome: the release, its type and its commit sha, or the error it
   * raises. An empty sha counts as unresolved.
   */
  function Setup(refs: Refs, release: Option<string>, releaseType: Option<string>)
    : (r: Result<(string, string, string), PipelineError>)
    ensures r.Ok? ==> r.value.2 != ""
  {
    match ChosenRelease(refs, release, releaseType)
    case Err(e) => Err(e)
    case Ok((rel, typ)) =>
      match ResolveRef(refs, rel, typ)
      case Err(e) => Err(RefFailure(e))
      case Ok(sha) => if sha == "" then Err(Unresolved(rel, typ)) else Ok((rel, typ, sha))
  }

  /** A release given together with its type is kept, and its sha is its resolution. */
  lemma GivenReleaseKept(refs: Refs, release: string, releaseType: string)
    requires release != "" && releaseType != ""
    requires Setup(refs, Some(release), Some(releaseType)).Ok?
    ensures Setup(refs, Some(release), Some(releaseType)).value
         == (release, releaseType, ResolveRef(refs, release, releaseType).value)
  {
  }

  /**
   * Without a full release the pipeline sits on the default branch, at the sha that branch
   * records; it fails when there is neither `main` nor `master`.
   */
  lemma MissingReleaseUsesDefault(refs: Refs, release: Option<string>, releaseType: Option<string>)
    requires !(Truthy(release) && Truthy(releaseType))
    ensures DefaultBranch(refs).Err? ==> Setup(refs, release, releaseType) == Err(NoDefaultBranch)
    ensures DefaultBranch(refs).Ok? && Setup(refs, release, releaseType).Ok? ==>
      var (branch, _) := DefaultBranch(refs).value;
      Setup(refs, release, releaseType).value == (branch, "branch", refs.branches[branch])
  {
  }

  /** A commit release resolves to itself, so it always succeeds when it is not empty. */
  lemma CommitReleaseResolves(refs: Refs, sha: string)
    requires sha != ""
    ensures Setup(refs, Some(sha), Some("commit")) == Ok((sha, "commit", sha))
  {
  }

  /** `Pipeline`: a repository at a release, with the commit sha it resolved to. */
  class Pipeline {
    var repo: GitRepo
    var release: string
    var releaseType: string
    var commitSha: string

    constructor(repo: GitRepo, release: string, releaseType: string, commitSha: string)
      ensures this.repo == repo && this.release == release
      ensures this.releaseType == releaseType && this.commitSha == commitSha
    {
      this.repo := repo;
      this.release := release;
      this.releaseType := releaseType;
      this.commitSha := commitSha;
    }

    /**
     * `Pipeline(git_repo, release, release_type)`: updates the repository's refs, settles
     * the release, and resolves it; on an error no pipeline is made.
     */
    static method Init(repo: GitRepo, fetched: Refs, release: Option<string>, releaseType: Option<string>)
      returns (r: Result<Pipeline, PipelineError>)
      modifies repo
      ensures repo.refs == fetched
      ensures r.Ok? <==> Setup(fetched, release, releaseType).Ok?
      ensures r.Err? ==> r.error == Setup(fetched, release, releaseType).error
      ensures r.Ok? ==> (fresh(r.value) && r.value.repo == repo &&
        (r.value.release, r.value.releaseType, r.value.commitSha) == Setup(fetched, release, releaseType).value)
    {
      repo.UpdateRefs(fetched);
      var rel := release.GetOr("");
      var typ := releaseType.GetOr("");
      if !(Truthy(release) && Truthy(releaseType)) {
        var refs := repo.GetRefs();
        if "main" in refs.branches {
          rel, typ := "main", "branch";
        } else if "master" in refs.branches {
          rel, typ := "master", "branch";
        } else {
          return Err(NoDefaultBranch);
        }
      }
      var resolved := repo.Resolve(rel, typ);
      if resolved.Err? {
        return Err(RefFailure(resolved.error));
      }
      if resolved.value == "" {
        return Err(Unresolved(rel, typ));
      }
      var p := new Pipeline(repo, rel, typ, resolved.value);
      r := Ok(p);
    }

    /** `get_default_branch` on the repository's current refs. */
    method GetDefaultBranch() returns (r: Result<(string, string), PipelineError>)
      ensures r == DefaultBranch(repo.refs)
    {
      var refs := repo.GetRefs();
      if "main" in refs.branches {
        return Ok(("main", "branch"));
      } else if "master" in refs.branches {
        return Ok(("master", "branch"));
      }
      r := Err(NoDefaultBranch);
    }

    /** `fetch_config`: `nextflow.config` at the commit sha; an error when there is no sha. */
    method FetchConfig(files: (string, string) -> string) returns (r: Result<string, PipelineError>)
      ensures commitSha == "" <==> r == Err(NoCommitSha)
      ensures commitSha != "" ==> r == Ok(files("nextflow.config", commitSha))
    {
      if commitSha == "" {
        return Err(NoCommitSha);
      }
      r := Ok(files("nextflow.config", commitSha));
    }

    /** `parse_metadata`: fetches the config and returns an empty dictionary. */
    method ParseMetadata(files: (string, string) -> string) returns (r: Result<map<string, string>, PipelineError>)
      ensures r.Ok? <==> commitSha != ""
      ensures r.Ok? ==> r.value == map[]
    {
      var config := FetchConfig(files);
      if config.Err? {
        return Err(config.error);
      }
      r := Ok(map[]);
    }

    /** `fetch_schema`: `nextflow_schema.json` at the commit sha; an error when there is no sha. */
    method FetchSchema(files: (string, string) -> string) returns (r: Result<string, PipelineError>)
      ensures commitSha == "" <==> r == Err(NoCommitSha)
      ensures commitSha != "" ==> r == Ok(files("nextflow_schema.json", commitSha))
    {
      if commitSha == "" {
        return Err(NoCommitSha);
      }
      r := Ok(files("nextflow_schema.json", commitSha));
    }
  }
}
