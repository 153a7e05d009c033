/**
 * The pipeline page of liteflow (liteflow/routes/pipeline.py): the check of the ref type,
 * the lookup of the commit sha it shows, the `definitions` fallback of the schema and the
 * page's header fields. The refs, the fetched schema (already parsed) and the metadata are
 * inputs.
 */
module PipelineRoute {

  import opened Wrappers
  import opened Strings
  import opened GitRepos
  import PipelineManager

  /**
   * Why the page is not shown: a redirect for a bad ref type, a `KeyError` for an unknown ref,
   * or the failure of processing the README for the template.
   */
  datatype RouteError = BadRefType | MissingRef(ref: string) | ReadmeFailed(text: string)

  /** The commit sha the page shows: branches and tags by name, commits through the short-sha map. */
  function PageSha(refs: Refs, refType: string, ref: string): (r: Result<string, RouteError>)
    ensures refType !in {"branch", "tag", "commit"} ==> r == Err(BadRefType)
    ensures refType == "branch" ==> (r.Ok? <==> ref in refs.branches) && (r.Ok? ==> r.value == refs.branches[ref])
    ensures refType == "tag" ==> (r.Ok? <==> ref in refs.tags) && (r.Ok? ==> r.value == refs.tags[ref])
    ensures refType == "commit" ==> (r.Ok? <==> ref in refs.commits) && (r.Ok? ==> r.value == refs.commits[ref])
    ensures r.Err? && refType in {"branch", "tag", "commit"} ==> r.error == MissingRef(ref)
  {
    if refType !in {"branch", "tag", "commit"} then Err(BadRefType)
    else
      var table := if refType == "branch" then refs.branches
                   else if refType == "tag" then refs.tags
                   else refs.commits;
      if ref in table then Ok(table[ref]) else Err(MissingRef(ref))
  }

  /** For branches and tags the page agrees with `resolve_ref`. */
  lemma PageShaAgreesOnNames(refs: Refs, refType: string, ref: string)
    requires refType in {"branch", "tag"}
    ensures PageSha(refs, refType, ref).Ok? <==> ResolveRef(refs, ref, refType).Ok?
    ensures PageSha(refs, refType, ref).Ok? ==> PageSha(refs, refType, ref).value == ResolveRef(refs, ref, refType).value
  {
  }

  /**
   * For commits it does not: `resolve_ref` returns any commit ref unchanged, while the page
   * looks it up among the short shas and fails on a full sha.
   */
  lemma PageShaDiffersOnCommits()
    ensures var refs := Refs(map[], map[], map["0123456" := "0123456789abcdef"]);
      && ResolveRef(refs, "0123456789abcdef", "commit") == Ok("0123456789abcdef")
      && PageSha(refs, "commit", "0123456789abcdef") == Err(MissingRef("0123456789abcdef"))
      && PageSha(refs, "commit", "0123456") == Ok("0123456789abcdef")
  {
  }

  /**
   * The page's schema: `definitions` if present, else `defs`, else `$defs`, else an empty
   * object (`empty`); never an error.
   */
  function WithDefinitions<V>(schema: map<string, V>, empty: V): (r: map<string, V>)
    ensures "definitions" in r && r.Keys == schema.Keys + {"definitions"}
    ensures forall k :: k in schema && k != "definitions" ==> r[k] == schema[k]
  {
    if "definitions" in schema then schema
    else if "defs" in schema then schema["definitions" := schema["defs"]]
    else if "$defs" in schema then schema["definitions" := schema["$defs"]]
    else schema["definitions" := empty]
  }

  /** Which key the page's `definitions` comes from. */
  lemma WithDefinitionsSource<V>(schema: map<string, V>, empty: V)
    ensures "definitions" in schema ==> WithDefinitions(schema, empty)["definitions"] == schema["definitions"]
    ensures "definitions" !in schema && "defs" in schema ==> WithDefinitions(schema, empty)["definitions"] == schema["defs"]
    ensures "definitions" !in schema && "defs" !in schema && "$defs" in schema ==>
      WithDefinitions(schema, empty)["definitions"] == schema["$defs"]
    ensures "definitions" !in schema && "defs" !in schema && "$defs" !in schema ==>
      WithDefinitions(schema, empty)["definitions"] == empty
    ensures WithDefinitions(WithDefinitions(schema, empty), empty) == WithDefinitions(schema, empty)
  {
  }

  /**
   * The page and the pipeline manager prefer different keys: with both `defs` and `$defs`
   * the page takes `defs` and the manager `$defs`; on an empty schema the page adds an empty
   * `definitions` where the manager refuses.
   */
  lemma FallbackOrdersDiffer()
    ensures var schema := map["defs" := 1, "$defs" := 2];
      && WithDefinitions(schema, 0)["definitions"] == 1
      && PipelineManager.NormalizeSchema(schema) == Ok(schema["definitions" := 2])
    ensures var empty: map<string, int> := map[];
      && WithDefinitions(empty, 0) == map["definitions" := 0]
      && PipelineManager.NormalizeSchema(empty).Err?
  {
    var schema := map["defs" := 1, "$defs" := 2];
    assert "definitions" !in schema;
    assert |schema| > 0 by {
      assert "defs" in schema.Keys;
    }
  }

  /** `commit_sha[:7]`: the head shown is the first seven characters of the sha. */
  function Head(sha: string): (h: string)
    ensures |h| == if |sha| < 7 then |sha| else 7
    ensures StartsWith(sha, h)
  {
    Take(sha, 7)
  }

  datatype HttpMethod = Get | Post

  /** The `pipeline` dictionary, the schema and the README the page renders, with a flashed error if any. */
  datatype PageView<V> = PageView(
    organization: string, project: string, name: string, nextflowVersion: string,
    head: string, description: string, schema: map<string, V>, readme: string, flash: Option<string>)

  /**
   * `pipeline_page(organization, project, ref_type, ref)`. A POST tries to create a run
   * configuration; the attempt raises (its error text is `postError`), the error is
   * flashed and the page is built as for a GET. `readme` is the outcome of
   * `repo.get_readme_processed(commit_sha)`, evaluated while the template's arguments are
   * built; its failure is raised.
   */
  function PipelinePage<V>(organization: string, project: string, refType: string, ref: string,
                           refs: Refs, verb: HttpMethod, postError: string,
                           schema: map<string, V>, empty: V, description: string, nextflowVersion: string,
                           readme: Result<string, string>)
    : (r: Result<PageView<V>, RouteError>)
    ensures r.Err? <==> PageSha(refs, refType, ref).Err? || readme.Err?
    ensures PageSha(refs, refType, ref).Err? ==> r == Err(PageSha(refs, refType, ref).error)
    ensures PageSha(refs, refType, ref).Ok? && readme.Err? ==> r == Err(ReadmeFailed(readme.error))
    ensures r.Ok? ==> && r.value.head == Head(PageSha(refs, refType, ref).value)
                      && r.value.name == organization + "/" + project
                      && "definitions" in r.value.schema
                      && r.value.readme == readme.value
  {
    match PageSha(refs, refType, ref)
    case Err(e) => Err(e)
    case Ok(sha) =>
      var flash := if verb == Post then Some("Error creating run configuration: " + postError) else None;
      match readme
      case Err(e) => Err(ReadmeFailed(e))
      case Ok(text) =>
        Ok(PageView(organization, project, organization + "/" + project, nextflowVersion,
                    Head(sha), description, WithDefinitions(schema, empty), text, flash))
  }

  /** A POST shows the same page as a GET, with the run-configuration error flashed. */
  lemma PostShowsPageWithError<V>(organization: string, project: string, refType: string, ref: string,
                                  refs: Refs, postError: string, schema: map<string, V>, empty: V,
                                  description: string, nextflowVersion: string, readme: Result<string, string>)
    requires PageSha(refs, refType, ref).Ok? && readme.Ok?
    ensures PipelinePage(organization, project, refType, ref, refs, Post, postError, schema, empty, description, nextflowVersion, readme)
         == Ok(PipelinePage(organization, project, refType, ref, refs, Get, postError, schema, empty, description, nextflowVersion, readme)
                 .value.(flash := Some("Error creating run configuration: " + postError)))
  {
  }
}
