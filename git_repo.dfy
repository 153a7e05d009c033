/**
 * A repository's refs as liteflow keeps them (liteflow/utils/workflow/git_repo.py): branch
 * and tag names mapped to commit shas, plus a map from short (7-character) shas to full
 * ones, and the resolution of a `(ref, ref_type)` pair to a commit sha.
 */
module GitRepos {

  import opened Wrappers

  /** `{'branches': {...}, 'tags': {...}, 'commits': {...}}`. */
  datatype Refs = Refs(branches: map<string, string>, tags: map<string, string>, commits: map<string, string>)

  /** What `resolve_ref` raises: `ValueError` for a bad ref type, `KeyError` for a missing name. */
  datatype RefError = InvalidRefType(refType: string) | UnknownRef(ref: string)

  /** The refs a repository starts from before its provider is asked. */
  function NoRefs(): Refs
  {
    Refs(map[], map[], map[])
  }

  /** The map a ref type names, with `branch`/`tag` as aliases of `branches`/`tags`. */
  function RefTable(refs: Refs, refType: string): (r: Option<map<string, string>>)
    ensures r.Some? <==> refType in {"branch", "branches", "tag", "tags"}
  {
    if refType == "branch" || refType == "branches" then Some(refs.branches)
    else if refType == "tag" || refType == "tags" then Some(refs.tags)
    else None
  }

  /**
   * `resolve_ref(ref, ref_type)`: a commit ref is returned as it is, without looking at the
   * refs; a branch or tag name is looked up in its map and a missing one is an error; any
   * other ref type is an error.
   */
  function ResolveRef(refs: Refs, ref: string, refType: string): (r: Result<string, RefError>)
    ensures refType == "commit" ==> r == Ok(ref)
    ensures refType != "commit" && RefTable(refs, refType).None? ==> r == Err(InvalidRefType(refType))
    ensures refType != "commit" && RefTable(refs, refType).Some? ==>
      (r.Ok? <==> ref in RefTable(refs, refType).value)
    ensures r.Err? && r.error.UnknownRef? ==> r.error.ref == ref
  {
    if refType == "commit" then Ok(ref)
    else
      match RefTable(refs, refType)
      case None => Err(InvalidRefType(refType))
      case Some(table) => if ref in table then Ok(table[ref]) else Err(UnknownRef(ref))
  }

  /** A resolved branch or tag is the sha its map records, so it is one of the map's values. */
  lemma ResolvedIsRecorded(refs: Refs, ref: string, refType: string)
    requires refType != "commit"
    requires ResolveRef(refs, ref, refType).Ok?
    ensures refType in {"branch", "branches"} ==> ResolveRef(refs, ref, refType).value == refs.branches[ref]
    ensures refType in {"tag", "tags"} ==> ResolveRef(refs, ref, refType).value == refs.tags[ref]
  {
  }

  /** The singular and plural ref types are aliases. */
  lemma AliasesAgree(refs: Refs, ref: string)
    ensures ResolveRef(refs, ref, "branch") == ResolveRef(refs, ref, "branches")
    ensures ResolveRef(refs, ref, "tag") == ResolveRef(refs, ref, "tags")
  {
  }

  /** A commit ref resolves to itself whatever the refs hold. */
  lemma CommitIgnoresRefs(r1: Refs, r2: Refs, ref: string)
    ensures ResolveRef(r1, ref, "commit") == ResolveRef(r2, ref, "commit") == Ok(ref)
  {
  }

  /** `GitRepo`: the refs field, filled from the provider on construction and on update. */
  class GitRepo {
    var refs: Refs

    /** `__init__`: starts from empty refs, then updates them from the provider. */
    constructor(fetched: Refs)
      ensures refs == fetched
    {
      refs := NoRefs();
      new;
      UpdateRefs(fetched);
    }

    /** `get_refs`: the stored refs; the provider is not consulted. */
    method GetRefs() returns (r: Refs)
      ensures r == refs
    {
      r := refs;
    }

    /** `update_refs`: replaces the refs wholesale with what the provider returns. */
    method UpdateRefs(fetched: Refs)
      modifies this
      ensures refs == fetched
    {
      refs := fetched;
    }

    /** `resolve_ref` on the stored refs. */
    method Resolve(ref: string, refType: string) returns (r: Result<string, RefError>)
      ensures r == ResolveRef(refs, ref, refType)
    {
      if refType == "commit" {
        return Ok(ref);
      }
      var table;
      if refType == "branch" || refType == "branches" {
        table := refs.branches;
      } else if refType == "tag" || refType == "tags" {
        table := refs.tags;
      } else {
        return Err(InvalidRefType(refType));
      }
      if ref !in table {
        return Err(UnknownRef(ref));
      }
      r := Ok(table[ref]);
    }
  }
}
