/**
 * Importing a GitHub pipeline into liteflow (liteflow/routes/import_pipeline.py): the
 * `organization/pipeline_name` format check, the duplicate check, the remote check (making
 * the provider and the repository and updating its refs, whose outcome is given), and the
 * insertion of a `pipelines` row.
 */
module ImportPipeline {

  import opened Wrappers
  import opened Strings
  import GitRepos
  import opened Tables

  /** A row of `pipelines`. */
  datatype PipelineRow = PipelineRow(id: int, provider: string, orgName: string, projectName: string,
                                     createdAt: int, updatedAt: int)

  /** Where the handler sends the browser, with the message it flashes. */
  datatype Page = ImportPage | PipelinesPage
  datatype Redirect = Redirect(to: Page, flash: string)

  const FormatError: string := "Invalid repository format. Use " + ['"'] + "organization/pipeline_name" + ['"'] + "."
  const AlreadyImported: string := "Pipeline already imported."
  const Imported: string := "Pipeline imported successfully."

  predicate IsPipeline(row: PipelineRow, org: string, project: string)
  {
    row.orgName == org && row.projectName == project
  }

  /** `filter_by(org_name, project_name).first()` finds a row. */
  function Exists(rows: seq<PipelineRow>, org: string, project: string): (b: bool)
    ensures b <==> exists i :: 0 <= i < |rows| && IsPipeline(rows[i], org, project)
  {
    if |rows| == 0 then false
    else if IsPipeline(rows[0], org, project) then true
    else
      assert forall i :: 1 <= i < |rows| ==> rows[i] == rows[1..][i - 1];
      Exists(rows[1..], org, project)
  }

  /** The primary key of a pipeline row. */
  function RowId(row: PipelineRow): int
  {
    row.id
  }

  /** The route never adds a second row for the same repository. */
  ghost predicate Valid(rows: seq<PipelineRow>)
  {
    forall i, j ::
      (0 <= i < |rows| && 0 <= j < |rows| && IsPipeline(rows[i], rows[j].orgName, rows[j].projectName)) ==> i == j
  }

  /**
   * `POST /import_pipeline`: the answer and the table afterwards. `remote` is what making
   * the provider and updating the repository's refs gave: the refs, or the error's text.
   * The table changes only on success, by one new `github` row with a fresh id, and only
   * when the remote check passed.
   */
  function Import(rows: seq<PipelineRow>, repository: string, remote: Result<GitRepos.Refs, string>, now: int)
    : (r: (Redirect, seq<PipelineRow>))
    ensures r.1 != rows <==> r.0 == Redirect(PipelinesPage, Imported)
    ensures r.1 != rows ==>
      && remote.Ok?
      && |r.1| == |rows| + 1 && r.1[..|rows|] == rows
      && r.1[|rows|].provider == "github"
      && (forall i :: 0 <= i < |rows| ==> rows[i].id < r.1[|rows|].id)
  {
    var parts := Split(repository, '/');
    if |parts| != 2 then (Redirect(ImportPage, FormatError), rows)
    else
      var org := parts[0];
      var project := parts[1];
      if Exists(rows, org, project) then (Redirect(PipelinesPage, AlreadyImported), rows)
      else
        match remote
        case Err(e) => (Redirect(ImportPage, "Error importing pipeline: " + e), rows)
        case Ok(_) =>
          var row := PipelineRow(NextId(rows, RowId), "github", org, project, now, now);
          (Redirect(PipelinesPage, Imported), rows + [row])
  }

  /** The format check accepts exactly the strings with one `/`. */
  lemma FormatAccepted(rows: seq<PipelineRow>, repository: string, remote: Result<GitRepos.Refs, string>, now: int)
    ensures Import(rows, repository, remote, now).0 == Redirect(ImportPage, FormatError)
        <==> Count(repository, '/') != 1
    ensures Count(repository, '/') != 1 ==> Import(rows, repository, remote, now).1 == rows
  {
    SplitLength(repository, '/');
    if remote.Err? {
      var answer := "Error importing pipeline: " + remote.error;
      assert answer[0] == 'E';
      assert FormatError[0] == 'I';
      assert answer != FormatError;
    }
  }

  /** A failing remote check leaves the table as it was. */
  lemma RemoteFailureChangesNothing(rows: seq<PipelineRow>, repository: string, e: string, now: int)
    ensures Import(rows, repository, Err(e), now).1 == rows
  {
  }

  /**
   * A successful import adds one row, provider `github`, with the organization and the
   * project from either side of the `/`, and flashes success.
   */
  lemma ImportAddsRow(rows: seq<PipelineRow>, org: string, project: string, refs: GitRepos.Refs, now: int)
    requires '/' !in org && '/' !in project
    requires !Exists(rows, org, project)
    ensures var (answer, rows') := Import(rows, org + "/" + project, Ok(refs), now);
      && answer == Redirect(PipelinesPage, Imported)
      && |rows'| == |rows| + 1 && rows'[..|rows|] == rows
      && rows'[|rows|].provider == "github"
      && rows'[|rows|].orgName == org && rows'[|rows|].projectName == project
  {
    SplitJoin([org, project], '/');
    assert Join([org, project], '/') == org + "/" + project;
    var rows' := Import(rows, org + "/" + project, Ok(refs), now).1;
    assert rows'[..|rows|] == rows;
  }

  /**
   * Importing the same repository a second time changes nothing and says it is already
   * imported, whatever the remote answers.
   */
  lemma ImportIdempotent(rows: seq<PipelineRow>, repository: string, r1: Result<GitRepos.Refs, string>,
                         r2: Result<GitRepos.Refs, string>, now1: int, now2: int)
    ensures var rows1 := Import(rows, repository, r1, now1).1;
      var (answer, rows2) := Import(rows1, repository, r2, now2);
      rows1 != rows ==> rows2 == rows1 && answer == Redirect(PipelinesPage, AlreadyImported)
  {
    var rows1 := Import(rows, repository, r1, now1).1;
    if rows1 != rows {
      var parts := Split(repository, '/');
      assert IsPipeline(rows1[|rows|], parts[0], parts[1]);
      assert Exists(rows1, parts[0], parts[1]);
    }
  }

  /** Imports never add a second row for the same repository. */
  lemma ImportKeepsValid(rows: seq<PipelineRow>, repository: string, remote: Result<GitRepos.Refs, string>, now: int)
    requires Valid(rows)
    ensures Valid(Import(rows, repository, remote, now).1)
  {
  }

  /** The `pipelines` table as the import route changes it. */
  class PipelineTable {
    var rows: seq<PipelineRow>

    constructor(rows: seq<PipelineRow>)
      ensures this.rows == rows
    {
      this.rows := rows;
    }

    /** `import_pipeline()` on a POST. */
    method ImportPipeline(repository: string, remote: Result<GitRepos.Refs, string>, now: int)
      returns (answer: Redirect)
      modifies this
      ensures (answer, rows) == Import(old(rows), repository, remote, now)
    {
      var repoData := Split(repository, '/');
      if |repoData| != 2 {
        return Redirect(ImportPage, FormatError);
      }
      var organization, pipelineName := repoData[0], repoData[1];
      if Exists(rows, organization, pipelineName) {
        return Redirect(PipelinesPage, AlreadyImported);
      }
      if remote.Err? {
        return Redirect(ImportPage, "Error importing pipeline: " + remote.error);
      }
      var row := PipelineRow(NextId(rows, RowId), "github", organization, pipelineName, now, now);
      rows := rows + [row];
      answer := Redirect(PipelinesPage, Imported);
    }
  }
}
