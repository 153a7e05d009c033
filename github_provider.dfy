/**
 * The GitHub provider of liteflow (liteflow/utils/workflow/github_provider.py): the token
 * normalisation, the request headers, the assembly of the refs (branch and tag maps and
 * the short-sha commit map), the cache keys, and the raw-file URL. The remote branch, tag
 * and recent-commit lists are inputs; the remote calls themselves are not modelled.
 */
module GithubProvider {

  import opened Wrappers
  import opened Strings
  import opened GitRepos
  import LiteflowCache

  /** `GITHUB_TOKEN`, with the empty string read as "no token". */
  function NormalizeToken(configured: string): (t: Option<string>)
    ensures t.None? <==> configured == ""
    ensures t.Some? ==> t.value == configured
  {
    if configured == "" then None else Some(configured)
  }

  /** The headers of the recent-commits request; a token, if any, is sent as a bearer token. */
  function Headers(token: Option<string>): (h: map<string, string>)
    ensures "Accept" in h && h["Accept"] == "application/vnd.github+json"
    ensures "X-GitHub-Api-Version" in h && h["X-GitHub-Api-Version"] == "2022-11-28"
    ensures "Authorization" in h <==> token.Some? && token.value != ""
    ensures "Authorization" in h ==> h["Authorization"] == "Bearer " + token.value
    ensures h.Keys <= {"Accept", "X-GitHub-Api-Version", "Authorization"}
  {
    var base := map["Accept" := "application/vnd.github+json", "X-GitHub-Api-Version" := "2022-11-28"];
    if token.Some? && token.value != "" then base["Authorization" := "Bearer " + token.value] else base
  }

  /** A configured token is sent exactly when it is not empty. */
  lemma AuthorizationIffToken(configured: string)
    ensures "Authorization" in Headers(NormalizeToken(configured)) <==> configured != ""
    ensures configured != "" ==> Headers(NormalizeToken(configured))["Authorization"] == "Bearer " + configured
  {
  }

  /** A branch or tag as the remote lists it: its name and the sha of its commit. */
  datatype Named = Named(name: string, sha: string)

  /** The map the loop `refs[kind][item.name] = item.commit.sha` builds: a later entry wins. */
  function NameMap(items: seq<Named>): (m: map<string, string>)
    ensures m.Keys == set i | 0 <= i < |items| :: items[i].name
  {
    if |items| == 0 then map[]
    else
      var last := items[|items| - 1];
      var m := NameMap(items[..|items| - 1])[last.name := last.sha];
      assert forall i :: 0 <= i < |items| - 1 ==> items[..|items| - 1][i] == items[i];
      m
  }

  /** Each name maps to the sha of its last listing, so to its only one when names are distinct. */
  lemma {:induction false} NameMapLast(items: seq<Named>, i: nat)
    requires i < |items|
    requires forall j :: i < j < |items| ==> items[j].name != items[i].name
    ensures NameMap(items)[items[i].name] == items[i].sha
  {
    if i < |items| - 1 {
      NameMapLast(items[..|items| - 1], i);
    }
  }

  /** The shas `fetch_refs` gathers before de-duplicating: recent commits, tag and branch shas. */
  function AllShas(recent: seq<string>, branches: map<string, string>, tags: map<string, string>): set<string>
  {
    (set c | c in recent) + tags.Values + branches.Values
  }

  /** `commit[:7]`: the short form of a sha. */
  function Short(sha: string): (k: string)
    ensures |k| <= 7 && StartsWith(sha, k)
  {
    Take(sha, 7)
  }

  /**
   * `commits` maps short shas to full ones: every value is one of `shas` and sits under its
   * own short form, and every sha of `shas` has its short form as a key.
   */
  ghost predicate ShortShaMap(commits: map<string, string>, shas: set<string>)
  {
    && (forall k :: k in commits ==> commits[k] in shas && Short(commits[k]) == k)
    && (forall c :: c in shas ==> Short(c) in commits)
  }

  /**
   * When no two of the shas share a short form, the commit map holds every one of them
   * under its short form.
   */
  lemma ShortShaMapComplete(commits: map<string, string>, shas: set<string>)
    requires ShortShaMap(commits, shas)
    requires forall a, b :: a in shas && b in shas && Short(a) == Short(b) ==> a == b
    ensures commits.Values == shas
    ensures forall c :: c in shas ==> commits[Short(c)] == c
  {
    forall c | c in shas
      ensures commits[Short(c)] == c
    {
      var k := Short(c);
      assert commits[k] in shas && Short(commits[k]) == k;
    }
  }

  /**
   * `fetch_refs`: fills the branch and tag maps from the remote lists, then records every
   * gathered sha under its short form. The de-duplicated list is a Python set, whose order
   * is not specified; the loop takes its shas in any order, so when two shas share a short
   * form either may end up in the map.
   */
  method FetchRefs(branches: seq<Named>, tags: seq<Named>, recent: seq<string>) returns (refs: Refs)
    ensures refs.branches == NameMap(branches)
    ensures refs.tags == NameMap(tags)
    ensures ShortShaMap(refs.commits, AllShas(recent, refs.branches, refs.tags))
  {
    refs := Refs(map[], map[], map[]);
    var i := 0;
    while i < |branches|
      invariant 0 <= i <= |branches|
      invariant refs == Refs(NameMap(branches[..i]), map[], map[])
    {
      assert branches[..i + 1][..i] == branches[..i];
      refs := refs.(branches := refs.branches[branches[i].name := branches[i].sha]);
      i := i + 1;
    }
    assert branches[..i] == branches;
    i := 0;
    while i < |tags|
      invariant 0 <= i <= |tags|
      invariant refs == Refs(NameMap(branches), NameMap(tags[..i]), map[])
    {
      assert tags[..i + 1][..i] == tags[..i];
      refs := refs.(tags := refs.tags[tags[i].name := tags[i].sha]);
      i := i + 1;
    }
    assert tags[..i] == tags;
    var shas := AllShas(recent, refs.branches, refs.tags);
    var pending := shas;
    var commits: map<string, string> := map[];
    while pending != {}
      invariant pending <= shas
      invariant forall k :: k in commits ==> commits[k] in shas - pending && Short(commits[k]) == k
      invariant forall c :: c in shas - pending ==> Short(c) in commits
      decreases pending
    {
      var commit :| commit in pending;
      commits := commits[Short(commit) := commit];
      pending := pending - {commit};
    }
    refs := refs.(commits := commits);
  }

  /** `f"github:repo:{org}:{project}"`: tracked under the `github` prefix. */
  function RepoKey(org: string, project: string): (key: string)
    ensures LiteflowCache.KeyPrefix(key) == "github"
  {
    GithubPrefix(["repo", org, project]);
    assert ["github"] + ["repo", org, project] == ["github", "repo", org, project];
    Join(["github", "repo", org, project], ':')
  }

  /** `f"github:refs:{org}:{project}"`: tracked under the `github` prefix. */
  function RefsKey(org: string, project: string): (key: string)
    ensures LiteflowCache.KeyPrefix(key) == "github"
  {
    GithubPrefix(["refs", org, project]);
    assert ["github"] + ["refs", org, project] == ["github", "refs", org, project];
    Join(["github", "refs", org, project], ':')
  }

  /** `f"github:default_branch:{org}:{project}"`: tracked under the `github` prefix. */
  function DefaultBranchKey(org: string, project: string): (key: string)
    ensures LiteflowCache.KeyPrefix(key) == "github"
  {
    GithubPrefix(["default_branch", org, project]);
    assert ["github"] + ["default_branch", org, project] == ["github", "default_branch", org, project];
    Join(["github", "default_branch", org, project], ':')
  }

  /**
   * `f"github:file:{org}:{project}:{path}:{ref}"`: tracked under the `github` prefix; when
   * none of the parts contains `:`, the key splits back into exactly its parts, so two
   * files with different coordinates never share a cache entry.
   */
  function FileKey(org: string, project: string, path: string, ref: string): (key: string)
    ensures LiteflowCache.KeyPrefix(key) == "github"
    ensures ':' !in org && ':' !in project && ':' !in path && ':' !in ref ==>
      Split(key, ':') == ["github", "file", org, project, path, ref]
  {
    var parts := ["github", "file", org, project, path, ref];
    GithubPrefix(["file", org, project, path, ref]);
    assert ["github"] + ["file", org, project, path, ref] == parts;
    assert ':' !in org && ':' !in project && ':' !in path && ':' !in ref ==>
      Split(Join(parts, ':'), ':') == parts by {
      if ':' !in org && ':' !in project && ':' !in path && ':' !in ref {
        assert forall i :: 0 <= i < |parts| ==> ':' !in parts[i];
        SplitJoin(parts, ':');
      }
    }
    Join(parts, ':')
  }

  lemma GithubPrefix(rest: seq<string>)
    requires |rest| >= 1
    ensures LiteflowCache.KeyPrefix(Join(["github"] + rest, ':')) == "github"
  {
    assert (["github"] + rest)[1..] == rest;
    assert Join(["github"] + rest, ':') == "github" + [':'] + Join(rest, ':');
    SplitCons("github", ':', Join(rest, ':'));
  }

  lemma FileKeyInjective(org: string, project: string, path: string, ref: string,
                         org': string, project': string, path': string, ref': string)
    requires ':' !in org && ':' !in project && ':' !in path && ':' !in ref
    requires ':' !in org' && ':' !in project' && ':' !in path' && ':' !in ref'
    requires FileKey(org, project, path, ref) == FileKey(org', project', path', ref')
    ensures org == org' && project == project' && path == path' && ref == ref'
  {
    var k := FileKey(org, project, path, ref);
    assert Split(k, ':') == ["github", "file", org, project, path, ref];
    assert Split(k, ':') == ["github", "file", org', project', path', ref'];
  }

  /**
   * `get_raw_file_url(path, ref)`: `f"https://raw.githubusercontent.com/{org}/{project}/{ref}/{path}"`.
   * Split at `/`, it gives back the organisation, project and ref in that order, followed by
   * the segments of the path, when the first three contain no `/`.
   */
  function RawFileUrl(org: string, project: string, path: string, ref: string): (url: string)
    ensures '/' !in org && '/' !in project && '/' !in ref ==>
      Split(url, '/') == ["https:", "", "raw.githubusercontent.com", org, project, ref] + Split(path, '/')
  {
    var parts := ["https:", "", "raw.githubusercontent.com", org, project, ref, path];
    assert '/' !in org && '/' !in project && '/' !in ref ==>
      Split(Join(parts, '/'), '/') == ["https:", "", "raw.githubusercontent.com", org, project, ref] + Split(path, '/') by {
      if '/' !in org && '/' !in project && '/' !in ref {
        assert forall i :: 0 <= i < |parts| - 1 ==> '/' !in parts[i];
        SplitJoinLast(parts, '/');
        assert parts[..|parts| - 1] == ["https:", "", "raw.githubusercontent.com", org, project, ref];
      }
    }
    Join(parts, '/')
  }

  /** What the provider caches: a refs dictionary or a piece of text. */
  datatype Cached = CachedRefs(refs: Refs) | CachedText(text: string)

  /**
   * `get_file_content(path, ref)`: the content cached under the file key, fetched from the
   * remote only on a miss.
   */
  function GetFileContent(c: LiteflowCache.Cache<Cached>, org: string, project: string, path: string, ref: string,
                          remote: string): (r: (Option<Cached>, LiteflowCache.Cache<Cached>))
    ensures r.1.index == LiteflowCache.Track(c.index, FileKey(org, project, path, ref))
  {
    LiteflowCache.GetOrSet(c, FileKey(org, project, path, ref), Some(() => Some(CachedText(remote))))
  }

  /**
   * A file is fetched once: a second request for the same coordinates returns the first
   * content even when the remote has changed since, until the `github` prefix is cleared;
   * after that the next request sees the remote again.
   */
  lemma FileContentCached(c: LiteflowCache.Cache<Cached>, org: string, project: string, path: string, ref: string,
                          first: string, later: string)
    requires LiteflowCache.Consistent(c)
    requires LiteflowCache.Lookup(c, FileKey(org, project, path, ref)).None?
    ensures GetFileContent(c, org, project, path, ref, first).0 == Some(CachedText(first))
    ensures var c1 := GetFileContent(c, org, project, path, ref, first).1;
      GetFileContent(c1, org, project, path, ref, later).0 == Some(CachedText(first))
    ensures var c1 := GetFileContent(c, org, project, path, ref, first).1;
      GetFileContent(LiteflowCache.ClearGithub(c1), org, project, path, ref, later).0 == Some(CachedText(later))
  {
    var key := FileKey(org, project, path, ref);
    var c1 := GetFileContent(c, org, project, path, ref, first).1;
    LiteflowCache.GetOrSetValid(c, key, Some(() => Some(CachedText(first))));
    LiteflowCache.ClearCategoryEffect(c1, key);
  }

  /** `get_refs`: the refs cached under the refs key, assembled from the remote only on a miss. */
  function GetRefs(c: LiteflowCache.Cache<Cached>, org: string, project: string, fetched: Refs)
    : (r: (Option<Cached>, LiteflowCache.Cache<Cached>))
    ensures r.1.index == LiteflowCache.Track(c.index, RefsKey(org, project))
  {
    LiteflowCache.GetOrSet(c, RefsKey(org, project), Some(() => Some(CachedRefs(fetched))))
  }

  /** `get_default_branch`: the repository's default branch, cached under its key. */
  function GetDefaultBranch(c: LiteflowCache.Cache<Cached>, org: string, project: string, remote: string)
    : (r: (Option<Cached>, LiteflowCache.Cache<Cached>))
    ensures r.1.index == LiteflowCache.Track(c.index, DefaultBranchKey(org, project))
  {
    LiteflowCache.GetOrSet(c, DefaultBranchKey(org, project), Some(() => Some(CachedText(remote))))
  }

  /** The four kinds of key of one repository never collide in the cache. */
  lemma KeysDistinct(org: string, project: string, path: string, ref: string)
    ensures RefsKey(org, project) != DefaultBranchKey(org, project)
    ensures RefsKey(org, project) != FileKey(org, project, path, ref)
    ensures DefaultBranchKey(org, project) != FileKey(org, project, path, ref)
    ensures RepoKey(org, project) != RefsKey(org, project)
    ensures RepoKey(org, project) != DefaultBranchKey(org, project)
    ensures RepoKey(org, project) != FileKey(org, project, path, ref)
  {
    SecondPart("refs", [org, project]);
    SecondPart("default_branch", [org, project]);
    SecondPart("file", [org, project, path, ref]);
    SecondPart("repo", [org, project]);
    assert ["github", "refs"] + [org, project] == ["github", "refs", org, project];
    assert ["github", "default_branch"] + [org, project] == ["github", "default_branch", org, project];
    assert ["github", "file"] + [org, project, path, ref] == ["github", "file", org, project, path, ref];
    assert ["github", "repo"] + [org, project] == ["github", "repo", org, project];
  }

  /** A key starts with `github:<kind>:`, so its kind can be read back from its second part. */
  lemma SecondPart(kind: string, rest: seq<string>)
    requires ':' !in kind && |rest| >= 1
    ensures var split := Split(Join(["github", kind] + rest, ':'), ':'); |split| >= 2 && split[1] == kind
  {
    var parts := ["github", kind] + rest;
    assert parts[1..] == [kind] + rest && ([kind] + rest)[1..] == rest;
    assert Join(parts, ':') == "github" + [':'] + (kind + [':'] + Join(rest, ':'));
    SplitCons("github", ':', kind + [':'] + Join(rest, ':'));
    SplitCons(kind, ':', Join(rest, ':'));
  }
}
