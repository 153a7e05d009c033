# nf-web core, modelled in Dafny

This project models the logic at the centre of nf-web. nf-web is a small web front end for
Nextflow pipelines, in three generations (liteflow, nfui, yanfui). It covers:

- the cache-aside stores with prefix-indexed invalidation (`LiteflowCache`, `NfuiCache`);
- the `nextflow.config` manifest scanner (`Manifest`);
- git ref resolution, the GitHub ref and short-sha maps, and cache keys and URLs (`GitRepos`,
  `GithubProvider`, `NfuiPipeline`);
- the config and run-config registries, with their tables and files (`Configs`, `RunConfigs`);
- the request guards in front of them (`ConfigRoutes`, `ImportPipeline`, `PipelineRoute`);
- the pipeline manager's listing, schema normalisation and run directories (`PipelineManager`);
- the S3 listing logic and the storage-backend managers (`S3Storage`, `StorageManagers`);
- the view state of the JavaScript file browser: breadcrumbs, pagination, the sort comparator
  and the size unit (`FileBrowser`);
- the tool-version report (`SoftwareInfo`).

Databases, the file system, GitHub, S3 and subprocesses are replaced by values. Tables are
sequences of rows, files are maps from paths to contents, and remote answers are parameters.
Where the source mutates an object in place (the caches, `GitRepo`, `Pipeline`, the
managers, the file-browser component), the model is a class whose methods are proved against
pure specification functions. Those functions carry the lemmas.

`Strings` models the Python and JavaScript string operations the sources use: `split`,
`strip`, slicing, `str(n)`, lower-casing and string comparison. `Tables` holds what the
tables share: the primary key the database assigns and the removal of a row. `Wrappers`
holds `Option` and `Result`.

## Model

| member | source | states |
|---|---|---|
| Strings.Split | liteflow/utils/cache.py:29 | Python `split` with a one-character separator never gives an empty list |
| Strings.JoinSplit | liteflow/routes/import_pipeline.py:12 | joining a split with the same separator gives the string back |
| Strings.SplitPartsFree | liteflow/routes/import_pipeline.py:12 | no part of a split holds the separator |
| Strings.SplitLength | liteflow/routes/import_pipeline.py:12-13 | a split has one more part than the string has separators |
| Strings.SplitJoin | nfui/static/js/file_browser.js:102 | splitting a join of separator-free parts gives them back |
| Strings.FirstPartPrefix | liteflow/utils/cache.py:29 | the first part of a split is the longest separator-free prefix |
| Strings.Take | liteflow/routes/pipeline.py:76 | `s[:n]` is the first `n` characters, or all of a shorter string |
| Strings.LStrip | liteflow/utils/nf.py:12 | `lstrip()` removes exactly the leading white space |
| Strings.RStrip | liteflow/utils/nf.py:12 | `rstrip()` removes exactly the trailing white space |
| Strings.StripChar | liteflow/utils/nf.py:41-42 | `strip('"')` removes exactly the leading and the trailing run of `"`: the result is what lies between them in the string, and it neither starts nor ends with `"` |
| Strings.IndexOf | nfui/utils/storage/s3.py:89 | finds the first occurrence of the character, and nothing exactly when it is absent |
| Strings.LastPartAfter | nfui/utils/storage/s3.py:54 | the text after the last separator is the last part, whatever precedes it |
| Strings.LastPartSuffix | nfui/utils/storage/s3.py:54 | `split(c)[-1]` holds no separator and ends the string |
| Strings.Lower | nfui/static/js/file_browser.js:71-72 | lower-casing maps each character and keeps the length |
| Strings.NatToString | liteflow/utils/workflow/pipeline_manager.py:181 | `str(n)` is digits without a leading zero |
| Strings.NatToStringValue | liteflow/utils/workflow/pipeline_manager.py:181 | reading the digits back gives the number |
| Strings.NatToStringInjective | liteflow/utils/workflow/pipeline_manager.py:180-181 | different numbers print differently |
| Strings.LessTransitive | nfui/static/js/file_browser.js:91 | string `<` is transitive |
| Strings.LessTotal | nfui/static/js/file_browser.js:91 | of two different strings one is less than the other |
| Strings.LessAsymmetric | nfui/static/js/file_browser.js:91 | string `<` is asymmetric |
| LiteflowCache.KeyPrefix | liteflow/utils/cache.py:29 | the tracking prefix holds no `:`, starts the key, and is either the whole key or followed by `:` in it |
| LiteflowCache.Lookup | liteflow/utils/cache.py:35-36 | a lookup finds a value exactly when a non-None value is stored under the key |
| LiteflowCache.Track | liteflow/utils/cache.py:29-32 | recording a key adds it under its own prefix, loses nothing recorded, and changes no other prefix |
| LiteflowCache.GetOrSet | liteflow/utils/cache.py:14-49 | every call records the key under its prefix before anything else happens |
| LiteflowCache.ClearPrefix | liteflow/utils/cache.py:51-57 | an unseen prefix changes nothing; a seen prefix ends with an empty key set |
| LiteflowCache.Expire | liteflow/utils/cache.py:47 | an entry that times out reads as a miss, and the key index is untouched |
| LiteflowCache.GetOrSetRecordsKey | liteflow/utils/cache.py:29-32 | the key is recorded under its prefix and no recorded key is lost |
| LiteflowCache.HitIgnoresProducer | liteflow/utils/cache.py:35-38 | a stored non-None value is returned as it is, the store is unchanged, and the producer is never consulted |
| LiteflowCache.MissWithoutProducer | liteflow/utils/cache.py:40-43 | a miss without a producer returns None and stores nothing |
| LiteflowCache.SecondCallHits | liteflow/utils/cache.py:45-49 | a miss with a producer stores and returns its value; the next call with the same key is a hit with that value, whatever producer it passes |
| LiteflowCache.NoneIsNotCached | liteflow/utils/cache.py:35-36 | a producer yielding None leaves the key missing, because a stored None reads as a miss |
| LiteflowCache.EmptyValid | liteflow/utils/cache.py:5-8 | the initial cache and empty index satisfy the index invariant |
| LiteflowCache.GetOrSetValid | liteflow/utils/cache.py:14-49 | `get_or_set_cache` keeps every stored key recorded under its own prefix |
| LiteflowCache.ClearPrefixValid | liteflow/utils/cache.py:51-57 | clearing a prefix keeps the index invariant |
| LiteflowCache.ExpireValid | liteflow/utils/cache.py:47 | an expiry keeps the index invariant |
| LiteflowCache.ClearPrefixEffect | liteflow/utils/cache.py:51-57 | after a prefix clear every key of that prefix misses, and keys of other prefixes read exactly as before |
| LiteflowCache.ClearThenMiss | liteflow/utils/cache.py:40-57 | after a prefix clear a producer-less lookup of one of its keys returns None |
| LiteflowCache.ClearCategoryEffect | liteflow/utils/cache.py:59-65 | clearing GitHub entries empties `github` keys and leaves `s3` keys alone, and the other way round |
| LiteflowCache.PrefixCache.constructor | liteflow/utils/cache.py:5-8 | the module state starts as an empty store with an empty index |
| LiteflowCache.PrefixCache.GetOrSetCache | liteflow/utils/cache.py:14-49 | the returned value and the new store and index are those of `GetOrSet`, and the invariant is kept |
| LiteflowCache.PrefixCache.ClearCacheByPrefix | liteflow/utils/cache.py:51-57 | the loop over the recorded keys leaves exactly the state of `ClearPrefix` |
| LiteflowCache.PrefixCache.ClearGithubCache | liteflow/utils/cache.py:59-61 | a prefix clear of `github` |
| LiteflowCache.PrefixCache.ClearS3Cache | liteflow/utils/cache.py:63-65 | a prefix clear of `s3` |
| NfuiCache.InsertSorted | nfui/utils/cache.py:24 | inserting an argument with a new name into a name-sorted list keeps it sorted and adds exactly that argument |
| NfuiCache.SortKwargsSpec | nfui/utils/cache.py:24 | `sorted(kwargs.items())` is a permutation of the keyword arguments ordered by name |
| NfuiCache.SortedUnique | nfui/utils/cache.py:24 | two name-sorted lists of the same arguments are equal, so the sorted order is unique |
| NfuiCache.KwargParts | nfui/utils/cache.py:24 | one `k:v` part per sorted keyword argument, in order |
| NfuiCache.KeyParts | nfui/utils/cache.py:18-25 | the parts start with the prefix and the function name, followed by the positional arguments in place |
| NfuiCache.KwargOrderIrrelevant | nfui/utils/cache.py:18-26 | the key parts, hence the digest, do not depend on the order keyword arguments were passed in |
| NfuiCache.KeyPartsShape | nfui/utils/cache.py:20-25 | the parts are the prefix, the function name, the positional arguments in order, then one `k:v` per keyword argument |
| NfuiCache.Lookup | nfui/utils/cache.py:39-41 | `cache.get` finds a value exactly when a non-None value is stored under the key |
| NfuiCache.Record | nfui/utils/cache.py:36-60 | recording a key touches only the key sets, never the store |
| NfuiCache.CachedCall | nfui/utils/cache.py:33-73 | after a call the key holds what it returned; a hit returns the stored value and leaves the store; the key joins its category's set |
| NfuiCache.Clear | nfui/utils/cache.py:76-88 | afterwards the category's set is empty and every key it recorded misses; the other category's set is kept |
| NfuiCache.CallRecordsKey | nfui/utils/cache.py:35-60 | a call adds its key to its own category's set even on a miss, and leaves the other set alone |
| NfuiCache.HitSkipsCall | nfui/utils/cache.py:39-65 | a hit returns the stored value whatever the wrapped function would compute |
| NfuiCache.MissStores | nfui/utils/cache.py:43-73 | a miss runs the wrapped function, stores its result and returns it |
| NfuiCache.CallComplete | nfui/utils/cache.py:33-49 | a decorated call keeps every stored key recorded in some category |
| NfuiCache.ClearComplete | nfui/utils/cache.py:76-88 | a clear keeps every stored key recorded in some category |
| NfuiCache.ClearEffect | nfui/utils/cache.py:76-88 | a clear empties its own set, leaves the other set, makes each recorded key miss and leaves all other keys as they were |
| NfuiCache.DecoratorCache.constructor | nfui/utils/cache.py:8-12 | the store and both key sets start empty |
| NfuiCache.DecoratorCache.Call | nfui/utils/cache.py:33-73 | a decorated call keys on the digest of the key parts and gives the value and state of `CachedCall` |
| NfuiCache.DecoratorCache.ClearCache | nfui/utils/cache.py:76-88 | the delete loop followed by `clear()` leaves the state of `Clear` |
| GitRepos.RefTable | liteflow/utils/workflow/git_repo.py:25-30 | a ref type selects a map exactly when it is `branch`, `branches`, `tag` or `tags` |
| GitRepos.ResolveRef | liteflow/utils/workflow/git_repo.py:21-32 | a commit ref is returned unchanged; an unknown ref type is a `ValueError`; a branch or tag resolves exactly when its name is in the map, and a missing name is a `KeyError` for that name |
| GitRepos.ResolvedIsRecorded | liteflow/utils/workflow/git_repo.py:32 | a resolved branch or tag is the sha its own map records |
| GitRepos.AliasesAgree | liteflow/utils/workflow/git_repo.py:25-28 | `branch`/`branches` and `tag`/`tags` resolve identically |
| GitRepos.CommitIgnoresRefs | liteflow/utils/workflow/git_repo.py:23-24 | a commit ref resolves to itself whatever refs are stored |
| GitRepos.GitRepo.constructor | liteflow/utils/workflow/git_repo.py:6-11 | after construction the refs are what the provider returned |
| GitRepos.GitRepo.GetRefs | liteflow/utils/workflow/git_repo.py:13-15 | returns the stored refs |
| GitRepos.GitRepo.UpdateRefs | liteflow/utils/workflow/git_repo.py:17-19 | replaces the refs wholesale with the provider's |
| GitRepos.GitRepo.Resolve | liteflow/utils/workflow/git_repo.py:21-32 | `resolve_ref` on the stored refs is `ResolveRef` |
| GithubProvider.NormalizeToken | liteflow/utils/workflow/github_provider.py:16-22 | the stored token is absent exactly when the configured one is empty, and otherwise is the configured one |
| GithubProvider.Headers | liteflow/utils/workflow/github_provider.py:56-61 | the two fixed headers are always sent, and `Authorization: Bearer <token>` exactly when the token is truthy |
| GithubProvider.AuthorizationIffToken | liteflow/utils/workflow/github_provider.py:16-61 | a configured token is sent as a bearer token exactly when it is not empty |
| GithubProvider.NameMap | liteflow/utils/workflow/github_provider.py:49-54 | the branch (tag) map has exactly the listed names as keys |
| GithubProvider.NameMapLast | liteflow/utils/workflow/github_provider.py:49-54 | each name maps to the sha of its last listing |
| GithubProvider.Short | liteflow/utils/workflow/github_provider.py:75 | `commit[:7]` is a prefix of the sha of at most seven characters |
| GithubProvider.ShortShaMapComplete | liteflow/utils/workflow/github_provider.py:69-75 | when no two gathered shas share a short form, the commit map holds every one of them under its short form and nothing else |
| GithubProvider.FetchRefs | liteflow/utils/workflow/github_provider.py:41-77 | the branch and tag maps come from the listings, and every gathered sha (recent, tag and branch) is recorded under its short form, in any de-duplicated order |
| GithubProvider.RepoKey | liteflow/utils/workflow/github_provider.py:34 | the repo key is tracked under the `github` prefix |
| GithubProvider.RefsKey | liteflow/utils/workflow/github_provider.py:39 | the refs key is tracked under the `github` prefix |
| GithubProvider.DefaultBranchKey | liteflow/utils/workflow/github_provider.py:82 | the default-branch key is tracked under the `github` prefix |
| GithubProvider.FileKey | liteflow/utils/workflow/github_provider.py:93 | the file key is tracked under the `github` prefix, and built from `:`-free parts it splits back into exactly those parts |
| GithubProvider.GithubPrefix | liteflow/utils/cache.py:29 | a key built as `github:…` is tracked under the `github` prefix |
| GithubProvider.FileKeyInjective | liteflow/utils/workflow/github_provider.py:93 | two files with different `:`-free coordinates never share a cache key |
| GithubProvider.RawFileUrl | liteflow/utils/workflow/github_provider.py:88-90 | the raw URL splits at `/` into the host, organisation, project, ref and the path's own segments |
| GithubProvider.GetFileContent | liteflow/utils/workflow/github_provider.py:92-99 | the file key is recorded under its prefix on every request |
| GithubProvider.FileContentCached | liteflow/utils/workflow/github_provider.py:92-99 | the first content is returned again even when the remote changed, until the `github` prefix is cleared, after which the remote is read again |
| GithubProvider.GetRefs | liteflow/utils/workflow/github_provider.py:38-79 | the refs key is recorded under its prefix on every request |
| GithubProvider.GetDefaultBranch | liteflow/utils/workflow/github_provider.py:81-86 | the default-branch key is recorded under its prefix on every request |
| GithubProvider.KeysDistinct | liteflow/utils/workflow/github_provider.py:34-93 | a repository's repo object, refs, default branch and files never share a cache key, pair by pair |
| GithubProvider.SecondPart | liteflow/utils/workflow/github_provider.py:34-93 | the kind of a `github:<kind>:…` key is its second `:`-part |
| NfuiPipeline.DefaultBranch | nfui/utils/pipeline.py:38-45 | succeeds exactly when `main` or `master` is a branch, prefers `main`, always with type `branch`, and otherwise raises the no-default-branch error |
| NfuiPipeline.ChosenRelease | nfui/utils/pipeline.py:16-26 | a truthy release with a truthy type is kept; otherwise the default branch is chosen, or its error raised |
| NfuiPipeline.Setup | nfui/utils/pipeline.py:28-32 | a constructed pipeline never has an empty commit sha |
| NfuiPipeline.GivenReleaseKept | nfui/utils/pipeline.py:5-32 | a given release and type are kept and the sha is their resolution |
| NfuiPipeline.MissingReleaseUsesDefault | nfui/utils/pipeline.py:16-32 | without a full release the pipeline sits on the default branch at the sha it records, and fails when there is neither `main` nor `master` |
| NfuiPipeline.CommitReleaseResolves | nfui/utils/pipeline.py:28-32 | a non-empty commit release always succeeds and resolves to itself |
| NfuiPipeline.Pipeline.constructor | nfui/utils/pipeline.py:5-11 | the fields hold the repository, release, type and sha given |
| NfuiPipeline.Pipeline.Init | nfui/utils/pipeline.py:5-32 | the repository's refs are updated first; a pipeline is made exactly when `Setup` succeeds, with its release, type and sha, and otherwise its error is raised |
| NfuiPipeline.Pipeline.GetDefaultBranch | nfui/utils/pipeline.py:38-45 | `DefaultBranch` on the repository's current refs |
| NfuiPipeline.Pipeline.FetchConfig | nfui/utils/pipeline.py:47-51 | raises exactly when there is no sha, and otherwise returns `nextflow.config` at that sha |
| NfuiPipeline.Pipeline.ParseMetadata | nfui/utils/pipeline.py:53-57 | an empty dictionary, after a config fetch that fails exactly when there is no sha |
| NfuiPipeline.Pipeline.FetchSchema | nfui/utils/pipeline.py:59-63 | raises exactly when there is no sha, and otherwise returns `nextflow_schema.json` at that sha |
| Configs.Normalize | liteflow/utils/workflow/config.py:45-90 | the stored name always ends in `.config`, is the name itself exactly when it already did, and otherwise is the name with `.config` appended |
| Configs.NormalizeIdempotent | liteflow/utils/workflow/config.py:45-47 | normalising twice is normalising once |
| Configs.NormalizeMerges | liteflow/utils/workflow/config.py:89-90 | `x` and `x.config` name the same config |
| Configs.Find | liteflow/utils/workflow/config.py:70 | `filter_by(filename=…).first()` finds the first row with that file name, or none exactly when no row has it |
| Tables.NextId | liteflow/models.py:9 | a new primary key is at least 1 and exceeds every id in use; shared by the `configs`, `run_configs` and `pipelines` tables (liteflow/models.py:66 and 79 declare the same key) |
| Configs.NewRow | liteflow/models.py:13-43 | `Config._create` gives a row with the given name, file name and default flag, created and updated now |
| Configs.Insert | liteflow/models.py:11 | committing a row with a file name already in the table is refused (the column is unique); otherwise the row is appended |
| Configs.Lookup | liteflow/utils/workflow/config.py:58-73 | `get_config` succeeds exactly when some row has that exact file name, and otherwise raises `FileNotFoundError` |
| Configs.Created | liteflow/utils/workflow/config.py:75-106 | `create_config` fails exactly when the normalised name is taken, with the already-exists error |
| Configs.Updated | liteflow/utils/workflow/config.py:108-130 | `update_config` fails exactly when no row has the name as given |
| Configs.Deleted | liteflow/utils/workflow/config.py:132-154 | `delete_config` fails exactly when no row has the name as given |
| Configs.ClearDefaults | liteflow/models.py:24 | the first bulk update clears every default flag and touches nothing but the flag and `updated_at` |
| Configs.MarkDefault | liteflow/models.py:25 | the second bulk update sets the flag on the rows with that id and touches nothing else |
| Configs.SetDefaultRowsExact | liteflow/models.py:21-25 | after `Config.set_default(id)` the default rows are exactly those with that id; file names and ids are unchanged |
| Configs.SetDefaultUnknownIdClears | liteflow/models.py:21-25 | with an id no row has, no row is left default |
| Configs.WithDefault | liteflow/utils/workflow/config.py:156-171 | `set_default` fails exactly when no row has the name, and never touches the files |
| Configs.DefaultRow | liteflow/models.py:16-19 | `get_default` finds a default row, and none exactly when no row is default |
| Configs.CheckDefault | liteflow/utils/workflow/config.py:182-196 | reports whether `default.config` exists and, only then, whether its digest equals the enforced file's digest |
| Configs.Enforce | liteflow/utils/workflow/config.py:198-221 | a differing default leaves the store as it was; otherwise `default.config` is on disk afterwards, even when the commit fails; the table either stays as it was or, on success, gains exactly one row at the end |
| Configs.EnforceCases | liteflow/utils/workflow/config.py:198-221 | a differing default raises and changes nothing; a matching one changes nothing; a missing one is copied and registered as a default row; with a leftover `default.config` row but no file, the file is copied and then the commit fails with the unique-filename error, and the copy stays |
| Configs.LeftoverRowRecovers | liteflow/utils/workflow/config.py:198-221 | a leftover `default.config` row makes the first start-up fail after the copy, and the next enforcement of the same content succeeds and changes nothing |
| Configs.EnforceKeepsOtherDefault | liteflow/utils/workflow/config.py:215-221 | enforcing does not clear other default flags, so two rows can end up default |
| Configs.Startup | liteflow/utils/workflow/config.py:10-29 | the default is enforced only at app creation, with the setting given and its file present; otherwise the store is unchanged and nothing is raised |
| Configs.FindUnique | liteflow/models.py:11 | with unique file names, the lookup of a row's file name finds that row |
| Configs.CreateThenGet | liteflow/utils/workflow/config.py:75-106 | a created config reads back under its normalised name as a non-default row with the given name and an empty file; earlier rows and other files are kept and the keys stay unique |
| Configs.AppendKeepsValid | liteflow/models.py:9-11 | a row with a new file name and a fresh id keeps both keys unique |
| Configs.CreateDuplicateFails | liteflow/utils/workflow/config.py:92-94 | creating under a taken normalised name fails with the already-exists error, whatever the display name |
| Configs.UpdateEffect | liteflow/utils/workflow/config.py:108-130 | the file under the normalised name gets the new content and the row a new `updated_at`; every other row and file is unchanged |
| Tables.RemoveAt | liteflow/utils/workflow/config.py:153 | the table without that row, the others in order; `session.delete` removes config and run-config rows alike (liteflow/utils/workflow/run_config.py:174-175) |
| Configs.RemoveAtUnique | liteflow/models.py:9-11 | removing a row keeps both keys unique |
| Configs.DeleteEffect | liteflow/utils/workflow/config.py:132-154 | the row and its file are gone, every other row and file is kept, and the keys stay unique |
| Configs.SetDefaultExactlyOne | liteflow/utils/workflow/config.py:156-171 | afterwards exactly the named config is default and `get_default` returns it |
| Configs.EnforceKeepsValid | liteflow/utils/workflow/config.py:198-221 | enforcing the default keeps both keys unique, whether or not it raises |
| Configs.GetDefaultFirst | liteflow/models.py:19 | `get_default` returns the first default row of the table |
| Configs.ConfigManager.constructor | liteflow/utils/workflow/config.py:17-20 | the manager holds the given table, files and `DEFAULT_CONFIG` setting |
| Configs.ConfigManager.Open | liteflow/utils/workflow/config.py:10-29 | a manager is made exactly when `Startup` raises nothing, with its state; otherwise the start-up error is raised; either way the table and files left behind are those of `Startup` |
| Configs.ConfigManager.HasEnforcedDefault | liteflow/utils/workflow/config.py:31-34 | true exactly when the setting is not empty |
| Configs.ConfigManager.GetConfigPath | liteflow/utils/workflow/config.py:36-47 | the path is the normalised name, ending in `.config` |
| Configs.ConfigManager.ListConfigs | liteflow/utils/workflow/config.py:49-56 | every row, in table order |
| Configs.ConfigManager.GetConfig | liteflow/utils/workflow/config.py:58-73 | `Lookup` on the current state |
| Configs.ConfigManager.CreateConfig | liteflow/utils/workflow/config.py:75-106 | the row and new state of `Created`; on error the state is unchanged |
| Configs.ConfigManager.UpdateConfig | liteflow/utils/workflow/config.py:108-130 | the new state of `Updated`; on error the state is unchanged |
| Configs.ConfigManager.DeleteConfig | liteflow/utils/workflow/config.py:132-154 | the new state of `Deleted`; on error the state is unchanged |
| Configs.ConfigManager.SetDefaultById | liteflow/models.py:21-25 | the two bulk-update loops leave the rows of `SetDefaultRows` and the files as they were |
| Configs.ConfigManager.SetDefault | liteflow/utils/workflow/config.py:156-171 | the new state of `WithDefault`; on error the state is unchanged |
| Configs.ConfigManager.GetDefault | liteflow/utils/workflow/config.py:173-180 | the scan returns `DefaultRow` |
| Configs.ConfigManager.CheckDefaultConfig | liteflow/utils/workflow/config.py:182-196 | `CheckDefault` on the current state |
| Configs.ConfigManager.EnforceDefaultConfig | liteflow/utils/workflow/config.py:198-221 | the new state and the error are those of `Enforce`: the copy of `default.config` is kept when the commit fails |
| ConfigRoutes.ErrorText | liteflow/utils/workflow/config.py:72-94 | the not-found and already-exists messages name the file, and it can be read back from them |
| ConfigRoutes.CreatePost | liteflow/routes/configs.py:10-26 | only an AJAX request that the registry accepts is answered with the new row, and only then does the store change, to the registry's result; every other answer is 400 |
| ConfigRoutes.ConfigsGet | liteflow/routes/configs.py:28-33 | the page lists every row and the default, and allows changing the default exactly when none is enforced |
| ConfigRoutes.SetDefaultPost | liteflow/routes/configs.py:35-48 | success exactly for an AJAX request, with no enforced default, for a known config; then the store is the registry's `set_default` result, and otherwise it is unchanged |
| ConfigRoutes.EditRequest | liteflow/routes/configs.py:50-74 | the save succeeds exactly for an AJAX POST of a known config and then stores the registry's update, otherwise nothing changes; the edit page is shown exactly for a GET of a known config whose file exists, with that file's content |
| ConfigRoutes.DeletePost | liteflow/routes/configs.py:76-94 | success exactly for an AJAX request for a known config that is not the default; then the store is the registry's delete result, and otherwise it is unchanged |
| ConfigRoutes.NonAjaxPostsRejected | liteflow/routes/configs.py:10-80 | without the AJAX header every POST is answered 400 and changes nothing, except the edit POST of an unknown config, which is answered 404 because the lookup comes first |
| ConfigRoutes.EnforcedDefaultIsFixed | liteflow/routes/configs.py:41-42 | while a default is enforced, set-default is refused with 400 and changes nothing |
| ConfigRoutes.DefaultNotDeletable | liteflow/routes/configs.py:84-86 | deleting the default config is answered 400 and its row and file remain |
| ConfigRoutes.UnknownConfigNotFound | liteflow/routes/configs.py:47-92 | an unknown config is answered 404 by set-default, edit POST and delete, and an edit GET redirects to the list with a flash; nothing changes |
| ConfigRoutes.DuplicateCreateRejected | liteflow/routes/configs.py:25-26 | a duplicate create is answered 400 with the registry's message and changes nothing |
| ConfigRoutes.AcceptedRequestsApply | liteflow/routes/configs.py:15-89 | accepted create, set-default, edit and delete requests leave exactly the store the registry operation produces, with the success message |
| ConfigRoutes.DeleteKeepsDefault | liteflow/routes/configs.py:76-94 | no delete request ever removes the default row |
| RunConfigs.RunDir | liteflow/utils/workflow/run_config.py:49 | a run's directory is the three-level path organization / pipeline / run name under `run_configs` |
| RunConfigs.NameTaken | liteflow/utils/workflow/run_config.py:45 | true exactly when some row, of any organization or pipeline, already uses the run name |
| RunConfigs.FindRun | liteflow/utils/workflow/run_config.py:109-113 | finds a row with the organization/pipeline/run triple, and finds nothing exactly when no row matches |
| RunConfigs.ConfigById | liteflow/utils/workflow/run_config.py:70 | a found config row is in the table and carries the id; nothing is found only when no row has it |
| RunConfigs.ConfigToCopy | liteflow/utils/workflow/run_config.py:69-76 | a config is copied exactly when the id is set and non-zero, its row exists and its file exists, and the copy is that file's content |
| RunConfigs.CreateRun | liteflow/utils/workflow/run_config.py:44-46 | creation fails exactly when the run name is taken, with that error |
| RunConfigs.GetRun | liteflow/utils/workflow/run_config.py:95-118 | succeeds exactly when a row with the triple exists and returns such a row; otherwise not-found for the triple |
| RunConfigs.ConfigFile | liteflow/utils/workflow/run_config.py:120-137 | fails exactly when the run is unknown; otherwise returns the copy's path exactly when `nextflow.config` exists in the run directory |
| RunConfigs.RemoveTree | liteflow/utils/workflow/run_config.py:170-171 | every file and directory at or below the run directory goes, and everything else stays unchanged |
| RunConfigs.DeleteRun | liteflow/utils/workflow/run_config.py:159-166 | deletion fails exactly when the run is unknown |
| RunConfigs.TakenNameRefused | liteflow/utils/workflow/run_config.py:45-46 | a name used by any row is refused with the name-taken error |
| RunConfigs.CreateEffect | liteflow/utils/workflow/run_config.py:48-93 | a created run has a row with the request's fields that a lookup finds, its directory, `params.yaml` with the dumped parameters, the config copy exactly when there is one to copy, no `run.yml`, no other file changed, and the table stays valid |
| RunConfigs.RunFoundLast | liteflow/models.py:82 | with run names unique, the lookup of a new row's triple finds that row |
| RunConfigs.DeleteEffect | liteflow/utils/workflow/run_config.py:148-175 | deleting removes one row and the run's directory tree, a second lookup fails, other rows and files outside the directory stay, and the table stays valid |
| RunConfigs.OperationsKeepValid | liteflow/models.py:82 | create and delete keep run names unique |
| RunConfigs.RunConfigManager.constructor | liteflow/utils/workflow/run_config.py:11-20 | the manager holds the given store |
| RunConfigs.RunConfigManager.CreateRunConfig | liteflow/utils/workflow/run_config.py:22-93 | the method returns the created row and takes the new store exactly when CreateRun succeeds, and leaves the store unchanged on error |
| RunConfigs.RunConfigManager.GetRunConfig | liteflow/utils/workflow/run_config.py:95-118 | returns what GetRun gives on the current store |
| RunConfigs.RunConfigManager.GetConfigFileFromRunConfig | liteflow/utils/workflow/run_config.py:120-137 | returns what ConfigFile gives on the current store |
| RunConfigs.RunConfigManager.ListRunConfigs | liteflow/utils/workflow/run_config.py:139-146 | one entry per row, in table order |
| RunConfigs.RunConfigManager.DeleteRunConfig | liteflow/utils/workflow/run_config.py:148-175 | takes DeleteRun's store on success and leaves the store unchanged on not-found |
| ImportPipeline.Exists | liteflow/routes/import_pipeline.py:29-32 | true exactly when some row has the organization and the project |
| ImportPipeline.Import | liteflow/routes/import_pipeline.py:10-58 | the table changes exactly when the answer is the success flash, and then only by one `github` row at the end with a fresh id, after a remote check that passed |
| ImportPipeline.FormatAccepted | liteflow/routes/import_pipeline.py:12-15 | the format error is answered exactly when the repository does not contain exactly one `/`, and then the table is unchanged |
| ImportPipeline.RemoteFailureChangesNothing | liteflow/routes/import_pipeline.py:39-58 | when making the provider or updating the refs raises, no row is added |
| ImportPipeline.ImportAddsRow | liteflow/routes/import_pipeline.py:25-54 | a new repository adds one row at the end, provider `github`, with the organization and project from either side of the `/`, and flashes success |
| ImportPipeline.ImportIdempotent | liteflow/routes/import_pipeline.py:29-36 | importing a repository a second time changes nothing and answers already-imported |
| ImportPipeline.ImportKeepsValid | liteflow/routes/import_pipeline.py:29-51 | the table never gets two rows for the same organization and project |
| ImportPipeline.PipelineTable.constructor | liteflow/routes/import_pipeline.py:8 | the table holds the given rows |
| ImportPipeline.PipelineTable.ImportPipeline | liteflow/routes/import_pipeline.py:10-58 | the answer and the new table are those of Import on the old table |
| Manifest.MatchAssign | liteflow/utils/nf.py:12-34 | a line matches an assignment pattern only when, left-stripped, it starts with the name |
| Manifest.AfterPrefixStarts | liteflow/utils/nf.py:12-34 | the literal name is consumed only from a line that starts with it |
| Manifest.AfterPrefixOf | liteflow/utils/nf.py:12-16 | the literal name at the head of the line is consumed exactly, leaving the rest |
| Manifest.Classify | liteflow/utils/nf.py:12-35 | a line assigns a field only when it matches that field's qualified or bare pattern; a qualified description wins over everything else on the line; only a line matching the opener opens the block |
| Manifest.Step | liteflow/utils/nf.py:11-39 | only an ordinary line can end the loop, and only once both fields are non-empty; a line that assigns neither field leaves it as it was |
| Manifest.ScanKinds | liteflow/utils/nf.py:10-39 | without a `manifest {` line, a scan outside the block never enters it |
| Manifest.Kinds | liteflow/utils/nf.py:10 | each line of the text is classified, one kind per line, in order |
| Manifest.ParseManifest | liteflow/utils/nf.py:40-44 | neither returned value starts or ends with a double quote; `FirstLineDescription` and `FirstLineVersion` give the values themselves |
| Manifest.ScanLine | liteflow/utils/nf.py:11-39 | one pass of the loop body gives the next loop variables and whether to stop, as the step function on the line's kind |
| Manifest.ScanBody | liteflow/utils/nf.py:25-39 | the in-block part of the loop body agrees with the step function on the line's bare matches and net bracket count |
| Manifest.ParseNfManifest | liteflow/utils/nf.py:3-44 | the loop with its early exit computes ParseManifest of the text |
| Manifest.LStripBlanks | liteflow/utils/nf.py:12 | leading blanks are skipped up to the first non-blank |
| Manifest.RStripKeeps | liteflow/utils/nf.py:12 | a line ending in a non-blank has no trailing blanks to drop |
| Manifest.AfterNameMatches | liteflow/utils/nf.py:12 | after the name, ` = ` followed by the quoted value leaves the quoted value |
| Manifest.AssignmentMatches | liteflow/utils/nf.py:12-32 | an indented `NAME = 'value'` or `NAME = "value"` line matches and its group is exactly the value |
| Manifest.DescriptionKept | liteflow/utils/nf.py:12-31 | lines that assign no description leave it unchanged |
| Manifest.VersionKept | liteflow/utils/nf.py:16-35 | lines that assign no version leave it unchanged |
| Manifest.AbsentFieldsAreEmpty | liteflow/utils/nf.py:8-43 | a field no line assigns is returned as the empty string |
| Manifest.FirstLineDescription | liteflow/utils/nf.py:10-44 | a first line `manifest.description = "x"`, with no later line assigning a description, yields `x` with its surrounding `"` stripped |
| Manifest.FirstLineVersion | liteflow/utils/nf.py:10-44 | a first line `manifest.nextflowVersion = "x"`, with no later line assigning a version, yields `x` with its surrounding `"` stripped |
| Manifest.OutsideBlockIgnored | liteflow/utils/nf.py:25-37 | outside a depth-one manifest block, ordinary lines (bare assignments included) change nothing |
| Manifest.ScopedAssignmentCaptured | liteflow/utils/nf.py:25-31 | directly inside the block a bare description line sets the description, moves the depth by its brackets and does not stop |
| Manifest.OpeningResetsDepth | liteflow/utils/nf.py:20-24 | a `manifest {` line enters the block at depth one whatever came before |
| Manifest.StopsOnceBothFound | liteflow/utils/nf.py:38-39 | once both fields are non-empty the first line that assigns nothing ends the scan |
| Manifest.AssignmentAfterBothFound | liteflow/utils/nf.py:12-39 | an assignment read after both fields are found still replaces the value and the scan continues |
| PipelineManager.PipelinePath | liteflow/utils/workflow/pipeline_manager.py:25-35 | the directory is `pipelines/<organization>_<project>`: it starts with the organization and `_` and ends with the project |
| PipelineManager.PipelinePathCollides | liteflow/utils/workflow/pipeline_manager.py:35 | two different repositories can be given the same directory |
| PipelineManager.Get | liteflow/utils/workflow/pipeline_manager.py:75-83 | `dict.get` returns the stored value for a present key and the default otherwise |
| PipelineManager.SummaryFields | liteflow/utils/workflow/pipeline_manager.py:63-84 | the summary carries the stored id and repository, the stored branch or else the first branch or none, the tag exactly when the ref type is `tag`, and the head sha of the branch or `''`; when the branch names are the branch map's keys, a non-branch ref has a branch exactly when there are branches, and then the head is the first branch's sha |
| PipelineManager.MetadataFallback | liteflow/utils/workflow/pipeline_manager.py:56-83 | when the metadata cannot be read the description is "No description available" and the version "N/A" |
| PipelineManager.Summaries | liteflow/utils/workflow/pipeline_manager.py:37-92 | at most one summary per stored row, and one per row when every row loads |
| PipelineManager.SummariesConcat | liteflow/utils/workflow/pipeline_manager.py:46-92 | the listing of two runs of rows is the listing of each, concatenated |
| PipelineManager.FailureSkipped | liteflow/utils/workflow/pipeline_manager.py:88-90 | a pipeline that fails to load is left out and the others are listed as before |
| PipelineManager.SummariesExact | liteflow/utils/workflow/pipeline_manager.py:43-92 | every listed summary comes from a stored pipeline that loaded, and every such pipeline is listed |
| PipelineManager.NothingLoadsNothingListed | liteflow/utils/workflow/pipeline_manager.py:88-92 | when no pipeline loads, the list is empty |
| PipelineManager.NormalizeSchema | liteflow/utils/workflow/pipeline_manager.py:130-142 | normalisation fails exactly on an empty schema or one without `definitions`, `$defs` and `defs`; otherwise `definitions` comes from the first of them present and every other key is kept |
| PipelineManager.NormalizeSchemaIdempotent | liteflow/utils/workflow/pipeline_manager.py:136-142 | normalising a normalised schema changes nothing |
| PipelineManager.GetPipeline | liteflow/utils/workflow/pipeline_manager.py:94-159 | a missing row is a 404; then a failure to build the repository or read its refs, a schema error and an empty config each raise, in that order; a result has the refs, the normalised schema, and the README or an empty one |
| PipelineManager.Revision | liteflow/utils/workflow/pipeline_manager.py:204 | the revision is the tag when truthy, else the head |
| PipelineManager.MakeRunInfo | liteflow/utils/workflow/pipeline_manager.py:198-206 | `run.yml` carries the run name, pipeline name, organization, the revision, and the config file or `''` |
| PipelineManager.RunDirNameParts | liteflow/utils/workflow/pipeline_manager.py:180-181 | the directory name starts with the run name and `_` and its last `_`-part is the timestamp's digits |
| PipelineManager.JoinAppend | liteflow/utils/workflow/pipeline_manager.py:181 | joining one more part appends the separator and the part |
| PipelineManager.RunDirNamesDistinct | liteflow/utils/workflow/pipeline_manager.py:179-182 | runs created at different seconds get different directories |
| PipelineManager.RunFiles | liteflow/utils/workflow/pipeline_manager.py:185-210 | `run.yml` holds the serialised run information; every existing file stays, and the only new files are `params.json`, `run.yml` and the copied config in the run directory |
| PipelineManager.RunFilesEffect | liteflow/utils/workflow/pipeline_manager.py:185-210 | `run.yml` and `params.json` hold the serialised run information and parameters, the config is copied only when set and present, and no file outside the run directory changes |
| PipelineManager.Manager.constructor | liteflow/utils/workflow/pipeline_manager.py:14-23 | the manager holds the given files and directories |
| PipelineManager.Manager.ListPipelines | liteflow/utils/workflow/pipeline_manager.py:37-92 | the loop returns exactly the summaries of the pipelines that load, in table order |
| PipelineManager.Manager.CreateRunConfig | liteflow/utils/workflow/pipeline_manager.py:161-212 | returns `run_configs/<run_name>_<timestamp>`, adds it and `run_configs` to the directories, and the files become those RunFiles describes |
| PipelineRoute.PageSha | liteflow/routes/pipeline.py:25-36 | an unknown ref type is a redirect; a branch, tag or commit ref is found in its own table exactly when present there, and otherwise raises `KeyError` |
| PipelineRoute.PageShaAgreesOnNames | liteflow/routes/pipeline.py:31-34 | for branches and tags the page's sha is the one `resolve_ref` gives |
| PipelineRoute.PageShaDiffersOnCommits | liteflow/routes/pipeline.py:35-36 | for commits it is not: a full sha that `resolve_ref` accepts is missing from the short-sha table |
| PipelineRoute.WithDefinitions | liteflow/routes/pipeline.py:60-67 | the page's schema always has `definitions`, adds no other key and keeps every other value |
| PipelineRoute.WithDefinitionsSource | liteflow/routes/pipeline.py:61-67 | `definitions` comes from `definitions`, else `defs`, else `$defs`, else an empty object; applying it twice changes nothing |
| PipelineRoute.FallbackOrdersDiffer | liteflow/routes/pipeline.py:61-67 | with both `defs` and `$defs` the page takes `defs` where the pipeline manager takes `$defs`, and an empty schema is accepted where the manager refuses it |
| PipelineRoute.Head | liteflow/routes/pipeline.py:76 | the head shown is the sha's first seven characters, or all of a shorter one |
| PipelineRoute.PipelinePage | liteflow/routes/pipeline.py:17-88 | the page fails exactly when the sha lookup or the README processing does, with the sha lookup's error first; a page shows the seven-character head, the name `organization/project`, a schema with `definitions` and the processed README |
| PipelineRoute.PostShowsPageWithError | liteflow/routes/pipeline.py:42-57 | a POST renders the same page as a GET with the run-configuration error flashed |
| S3Storage.GetUri | nfui/utils/storage/s3.py:15-16 | the URI is `s3://` followed by the path unchanged |
| S3Storage.ParsePath | nfui/utils/storage/s3.py:87-92 | the bucket holds no `/`; without a `/` the key is empty; with one, bucket, `/` and key give back the path |
| S3Storage.ParsePathJoin | nfui/utils/storage/s3.py:87-92 | a bucket, `/` and any key, even one with more `/`s, are split back into the two |
| S3Storage.NormalizePrefix | nfui/utils/storage/s3.py:35-36 | an empty prefix stays empty; a non-empty one ends with `/`, gaining one only when it had none |
| S3Storage.NormalizePrefixIdempotent | nfui/utils/storage/s3.py:35-36 | normalising a normalised prefix changes nothing |
| S3Storage.DirName | nfui/utils/storage/s3.py:42 | a directory's name holds no `/` |
| S3Storage.FileName | nfui/utils/storage/s3.py:54 | a file's name holds no `/` and ends its key |
| S3Storage.BucketEntries | nfui/utils/storage/s3.py:21-32 | at most one entry per bucket, and one for each when every bucket is visible |
| S3Storage.PageEntries | nfui/utils/storage/s3.py:41-62 | a page gives one directory entry per common prefix, in order, then one file entry per object, in order |
| S3Storage.List | nfui/utils/storage/s3.py:18-64 | the top level lists only directories without a size; below it, every entry lies under `s3://<bucket>/` of the bucket the path names |
| S3Storage.BucketEntriesExact | nfui/utils/storage/s3.py:21-32 | the bucket listing holds exactly the buckets some pattern matches, each a directory with no size and URI `s3://<name>` |
| S3Storage.PageOrder | nfui/utils/storage/s3.py:40-62 | within a page no directory follows a file |
| S3Storage.PageUris | nfui/utils/storage/s3.py:45-57 | every entry's URI is under `s3://<bucket>/` |
| S3Storage.PagesUris | nfui/utils/storage/s3.py:38-62 | every entry of every page lies under `s3://<bucket>/` |
| S3Storage.EntryNames | nfui/utils/storage/s3.py:42-54 | no entry name holds a `/`, and a file is named by its key's last segment |
| S3Storage.DownloadUrl | nfui/utils/storage/s3.py:66-76 | the presigned URL, or the app's own download route when presigning raises |
| S3Storage.S3File.constructor | nfui/utils/storage/s3.py:7-13 | the backend holds its name and bucket patterns |
| S3Storage.S3File.ListEntries | nfui/utils/storage/s3.py:18-64 | the loops return exactly the listing List specifies: visible buckets for an empty path, else every page's entries in order |
| S3Storage.S3File.AppendPage | nfui/utils/storage/s3.py:41-62 | one page's loop appends exactly that page's entries |
| StorageManagers.Dispatch | liteflow/utils/storage/manager.py:21-24 | `s3` makes an S3 backend; liteflow makes one exactly for `local` and `s3` and nfui (nfui/utils/storage/manager.py:12-15) exactly for `server` and `s3`; any other type is dropped |
| StorageManagers.Built | liteflow/utils/storage/manager.py:18-24 | at most one backend per declaration, each keeping its declared `type` and carrying its own name as `name` |
| StorageManagers.Names | liteflow/utils/storage/manager.py:36 | the listed names are the backends' names in order |
| StorageManagers.ToMap | liteflow/utils/storage/manager.py:22-24 | the `backends` dictionary has exactly the names of the built backends as keys |
| StorageManagers.Listing | liteflow/utils/storage/manager.py:29-37 | one entry per backend; the entries' contents are stated by `ListingFromDecls` |
| StorageManagers.AcceptedDecls | liteflow/utils/storage/manager.py:18-24 | the declarations kept are exactly those with an accepted type, in declaration order |
| StorageManagers.ErrExtends | liteflow/utils/storage/manager.py:18-21 | the first declaration without `type` aborts the constructor whatever follows |
| StorageManagers.BuiltFailsIffMissingType | liteflow/utils/storage/manager.py:21 | the constructor raises exactly when some declaration has no `type` |
| StorageManagers.BuiltFromAccepted | liteflow/utils/storage/manager.py:18-24 | the backends are the accepted declarations in order, each of the class its type selects, with its settings plus its own name |
| StorageManagers.SettingsCopied | liteflow/utils/storage/manager.py:19-20 | a backend's settings are its declaration's except that `name` holds its name, and the type is kept |
| StorageManagers.ListingFromDecls | liteflow/utils/storage/manager.py:29-37 | listing the built backends gives one `{name, type, description}` row per accepted declaration, in declaration order |
| StorageManagers.LookupFromDecls | liteflow/utils/storage/manager.py:18-27 | with distinct names, a name has a backend exactly when its declaration is accepted, and that backend is built from it |
| StorageManagers.FileSystemTypesDiffer | liteflow/utils/storage/manager.py:21-24 | liteflow drops a `server` declaration that nfui keeps (nfui/utils/storage/manager.py:12-13), and nfui drops a `local` one that liteflow keeps |
| StorageManagers.StorageManager.constructor | liteflow/utils/storage/manager.py:10 | a new manager has no backends |
| StorageManagers.StorageManager.Create | liteflow/utils/storage/manager.py:9-24 | the constructor's loop fails exactly when Built does, with its error; otherwise the manager's order and dictionary are those of the built backends |
| StorageManagers.StorageManager.GetBackend | liteflow/utils/storage/manager.py:26-27 | a known name gives its backend; an unknown name raises `KeyError` |
| StorageManagers.StorageManager.ListBackends | liteflow/utils/storage/manager.py:29-37 | one row per backend in dictionary order, with its name and declared type |
| StorageManagers.ValidFromPairs | liteflow/utils/storage/manager.py:18-24 | the order and dictionary built from the backends form a consistent manager state |
| StorageManagers.AcceptedDistinct | liteflow/utils/storage/manager.py:18 | distinct declared names give distinct backend names |
| StorageManagers.ManagerListsAccepted | liteflow/utils/storage/manager.py:29-37 | the manager Create makes lists one row per accepted declaration, in declaration order, with its type and description |
| StorageManagers.LastWins | liteflow/utils/storage/manager.py:22-24 | a name's entry in the dictionary is the backend of one of its later pairs |
| FileBrowser.NonEmpty | nfui/static/js/file_browser.js:30 | the kept parts are exactly the non-empty ones |
| FileBrowser.PathParts | nfui/static/js/file_browser.js:29-31 | the breadcrumb parts are non-empty and hold no `/` |
| FileBrowser.NonEmptyKeepsClean | nfui/static/js/file_browser.js:30 | the filter keeps a list with no empty part unchanged |
| FileBrowser.PathPartsJoin | nfui/static/js/file_browser.js:29-31 | splitting the `/`-join of clean parts gives them back |
| FileBrowser.GetPathUpTo | nfui/static/js/file_browser.js:101-103 | the breadcrumb link at an index leads to the path of the first index + 1 parts, and the last one to the current path without empty segments |
| FileBrowser.TotalPages | nfui/static/js/file_browser.js:32-34 | the page count is the ceiling of items over page size: enough pages for all items, no page empty, and none exactly when there are no items |
| FileBrowser.Slice | nfui/static/js/file_browser.js:97 | JavaScript `slice` clips the range to the sequence and keeps the elements in place |
| FileBrowser.PageItems | nfui/static/js/file_browser.js:94-98 | a page holds at most page-size items, the sorted items from the page's start on, in order |
| FileBrowser.ItemOnPage | nfui/static/js/file_browser.js:94-98 | every item is on an existing page, `k / size + 1`, at position `k % size` |
| FileBrowser.PageOfItem | nfui/static/js/file_browser.js:32-34 | item `k` of a listing lies on an existing page, which starts at `k - k % size` |
| FileBrowser.RunLength | nfui/static/js/file_browser.js:51 | a run is a maximal stretch of digits or of non-digits |
| FileBrowser.Runs | nfui/static/js/file_browser.js:51 | the runs are non-empty and each is all digits or all non-digits |
| FileBrowser.RunsPartition | nfui/static/js/file_browser.js:51 | the runs put back together are the name, and neighbouring runs differ in kind |
| FileBrowser.ToPart | nfui/static/js/file_browser.js:52 | a digit run becomes its number, a run of JavaScript white space becomes 0, anything else stays text |
| FileBrowser.SplitName | nfui/static/js/file_browser.js:50-53 | no parts exactly for the empty name, and never two text parts side by side |
| FileBrowser.CompareParts | nfui/static/js/file_browser.js:59-69 | two equal lists of parts tie |
| FileBrowser.Compare | nfui/static/js/file_browser.js:42-91 | under both name orders a directory comes before a file, in either direction |
| FileBrowser.SizeOrder | nfui/static/js/file_browser.js:76-91 | under the size order a missing or zero size comes after any size in both directions and two of them tie; otherwise directories rank -1, the smaller rank comes first ascending, and direction or argument order reverses the answer |
| FileBrowser.NameOrder | nfui/static/js/file_browser.js:70-91 | under the name order, two entries of one kind with different non-empty names follow the lower-cased names, and the direction reverses the answer |
| FileBrowser.EqualNamesNotTied | nfui/static/js/file_browser.js:91 | the name order answers `-modifier`, never 0, for equal non-empty names |
| FileBrowser.PrefixFirst | nfui/static/js/file_browser.js:59-69 | a list of parts that is a proper prefix of another comes first, whatever the direction |
| FileBrowser.FirstDifferenceDecides | nfui/static/js/file_browser.js:59-67 | at the first differing parts of the same type the comparison is antisymmetric, reversed by the direction, and ascending follows the parts' order |
| FileBrowser.SkipEqual | nfui/static/js/file_browser.js:59-60 | equal leading parts are skipped |
| FileBrowser.MixedPartsNotAntisymmetric | nfui/static/js/file_browser.js:62-66 | a number against text answers the same both ways round |
| FileBrowser.RunsA2 | nfui/static/js/file_browser.js:51 | `a2` is split into `a` and `2` |
| FileBrowser.RunsA10 | nfui/static/js/file_browser.js:51 | `a10` is split into `a` and `10` |
| FileBrowser.SplitA2 | nfui/static/js/file_browser.js:50-53 | `a2` becomes the parts `a` and 2 |
| FileBrowser.SplitA10 | nfui/static/js/file_browser.js:50-53 | `a10` becomes the parts `a` and 10 |
| FileBrowser.NumericNames | nfui/static/js/file_browser.js:48-73 | the numeric-name order puts `a2` before `a10`; the name order puts it after |
| FileBrowser.ComparePartsLoop | nfui/static/js/file_browser.js:59-69 | the loop over the parts returns what the comparison of the part lists specifies |
| FileBrowser.Pow1024 | nfui/static/js/file_browser.js:171-174 | each unit's size is at least 1 |
| FileBrowser.FormatSize | nfui/static/js/file_browser.js:161-177 | a directory shows N/A, a missing or zero size `0 B`; otherwise the value times its unit's size is the size, below 1024 unless TB and at least 1 unless B |
| FileBrowser.ScaleStep | nfui/static/js/file_browser.js:172-173 | dividing by 1024 and moving one unit up keeps value times unit size |
| FileBrowser.UnitDetermined | nfui/static/js/file_browser.js:171-174 | those bounds fix the unit and the value: only one choice satisfies them |
| FileBrowser.PowMono | nfui/static/js/file_browser.js:167-174 | larger units are not smaller |
| FileBrowser.Browser.constructor | nfui/static/js/file_browser.js:10-27 | the initial state: no backend or path, an empty list of items, page 1, 25 to a page, by name ascending, dates without time |
| FileBrowser.Browser.NextPage | nfui/static/js/file_browser.js:144-148 | one page on unless on the last page; with undefined items reading `totalPages` throws and the page stays; nothing else changes |
| FileBrowser.Browser.PreviousPage | nfui/static/js/file_browser.js:149-153 | one page back unless on the first; nothing else changes |
| FileBrowser.Browser.ChangePageSize | nfui/static/js/file_browser.js:154-157 | the new size and page 1; nothing else changes |
| FileBrowser.Browser.ChangePage | nfui/static/js/file_browser.js:158-160 | the page named; nothing else changes |
| FileBrowser.Browser.ToggleSortDirection | nfui/static/js/file_browser.js:198-201 | the other direction and page 1; nothing else changes |
| FileBrowser.Browser.ToggleTimeDisplay | nfui/static/js/file_browser.js:195-197 | the time display flips; nothing else changes |
| FileBrowser.Browser.LoadDirectory | nfui/static/js/file_browser.js:104-122 | the backend and path are set and the selection cleared; a listing replaces the items and returns to page 1; a JSON answer without `items` (the list route's 400 `{"error": …}` reply) leaves the items undefined on page 1; a thrown error (network, or a body that is not JSON such as the login redirect) empties the items and keeps the page, which then exists only if it was page 1 |
| FileBrowser.Browser.PaginatedItems | nfui/static/js/file_browser.js:94-98 | the current page's slice of the sorted items, at most page-size long; none (a throw) exactly when the items are undefined |
| SoftwareInfo.StripShape | yanfui/utils/software_info.py:6 | `strip()` leaves no white space at either end and is idempotent |
| SoftwareInfo.StripNoop | yanfui/utils/software_info.py:26-34 | stripping an already stripped string changes nothing |
| SoftwareInfo.CommandOutput | yanfui/utils/software_info.py:3-8 | a command that succeeds gives its stripped output, one that fails gives `None` |
| SoftwareInfo.Version | yanfui/utils/software_info.py:25-34 | the version is the last space-separated token for Docker and Nextflow, the part after the first `/` of the first token for the AWS CLI, the second token for Java, the whole output otherwise; only the AWS CLI and Java parses can raise `IndexError` |
| SoftwareInfo.LastTokenVersion | yanfui/utils/software_info.py:25-32 | output ending in a version without spaces reports that version for Docker and Nextflow |
| SoftwareInfo.AwsVersion | yanfui/utils/software_info.py:27-28 | `aws-cli/<v> <rest>` reports `v` |
| SoftwareInfo.JavaVersion | yanfui/utils/software_info.py:29-30 | `<name> <v> <rest>` reports `v` |
| SoftwareInfo.Entry | yanfui/utils/software_info.py:22-37 | no or empty output gives "Not Available" and "N/A"; otherwise "Available" with the parsed version, or the parse's error |
| SoftwareInfo.VersionsOf | yanfui/utils/software_info.py:21-39 | at most one entry per command, and the last command's tool has that command's entry |
| SoftwareInfo.VersionsOk | yanfui/utils/software_info.py:21-39 | the result is an error exactly when some tool's entry is, and then it is that tool's error |
| SoftwareInfo.VersionsKeys | yanfui/utils/software_info.py:21-37 | the tools listed are exactly the tools of the commands |
| SoftwareInfo.EveryToolListed | yanfui/utils/software_info.py:21-37 | with distinct names every tool is listed with the entry of its own command |
| SoftwareInfo.EntryStatus | yanfui/utils/software_info.py:23-37 | a tool is "Not Available" exactly when it gave no output or empty output |
| SoftwareInfo.CommandNames | yanfui/utils/software_info.py:12-19 | the table names six different tools |
| SoftwareInfo.NotAvailableIff | yanfui/utils/software_info.py:10-39 | with the real table every tool is listed, and is "Not Available" exactly when its command fails or prints only white space |
| SoftwareInfo.OnlyTwoParsesRaise | yanfui/utils/software_info.py:27-30 | when the function raises, the error is the AWS CLI's or Java's |
| SoftwareInfo.ErrExtends | yanfui/utils/software_info.py:21-35 | a parse that raises ends the loop: later tools do not change the error |
| SoftwareInfo.ParseOutput | yanfui/utils/software_info.py:24-35 | the body for one tool with output is Entry on that output |
| SoftwareInfo.RunTool | yanfui/utils/software_info.py:21-37 | one pass runs the tool's command and makes its entry |
| SoftwareInfo.GetSoftwareVersions | yanfui/utils/software_info.py:10-39 | the function's result is VersionsOf over the six-command table |
| SoftwareInfo.CollectVersions | yanfui/utils/software_info.py:21-39 | the loop stores each tool's entry under its name, stopping at the first error, as VersionsOf specifies |

## Left out

- Persistence, the network and processes are not modelled. SQLAlchemy sessions, the file system, PyGithub, `requests`, boto3 and `subprocess` become values and parameters. A commit either happens in full or leaves the table unchanged; files written before it stay. The caches start empty: in the source the store is a file-system cache that outlives the process (liteflow/config.py:24-25) while the key index is per process (liteflow/utils/cache.py:8), so `LiteflowCache.ClearPrefixEffect` and `LiteflowCache.ClearCategoryEffect` hold only for entries written since the process started; older entries or those of another worker survive a clear.
- Cache TTL, capacity and eviction are not modelled. The stores are plain maps, and an expiry is modelled only as an entry that disappears (`LiteflowCache.Expire`).
- SHA-256 digests (nfui/utils/cache.py:26 and the default-config check) are an abstract function; only equality of digests is used.
- Regular expressions: S3 bucket patterns are an abstract `matches` predicate. The manifest patterns are modelled exactly, with `\s` as Python's white space (`Strings.IsSpace`: the ASCII white space, `\x1c`-`\x1f`, `\x85`, `\xa0`, U+1680, U+2000-U+200A, U+2028, U+2029, U+202F, U+205F and U+3000).
- `Strings.Lower` maps ASCII letters only, and string `<` compares code points. JavaScript compares UTF-16 code units and lower-cases all of Unicode.
- JSON and YAML parsing and dumping are parameters (`dump`, `json`, `yaml`). Schemas arrive already parsed as maps, and the `json.loads` failure paths are left out.
- Clocks are parameters (`now`, `timestamp`, `date`). `created_at`/`updated_at` are integers.
- `_to_dict` is left out: rows are returned as the row datatypes, which hold the same columns.
- RunConfigs.CreateEffect: `run_info` is built in the source and never written (liteflow/utils/workflow/run_config.py:57-76). The model writes no `run.yml` and proves that none appears.
- PipelineManager.SummaryFields: the source reads `db_pipeline.ref` and `ref_type`, which the `Pipeline` model lacks, and builds `GitRepo(provider, path)` against a one-argument constructor. Loading is therefore an input `load` that may fail. Such a failure skips the pipeline, as the source's `except` does.
- PipelineManager.GetPipeline: building the provider, the repository and the pipeline and reading the refs is an input `repo` that may fail. As written, `GitRepo(provider, path)` (liteflow/utils/workflow/pipeline_manager.py:113) passes two arguments to a one-argument constructor, and the rows lack `ref` and `ref_type`, so for the source this input is always a failure and every stored pipeline raises. The success path describes the evident intent.
- The imported `.pipeline` module of liteflow/utils/workflow/pipeline_manager.py is not part of this model. Its `fetch_config`, `parse_metadata` and `fetch_schema` results are inputs.
- PipelineRoute.PipelinePage: the POST branch passes `pipeline_data['details']` and keyword arguments that `RunConfigManager.create_run_config` does not accept, so the attempt always raises. The model takes the raised text as `postError`. The README is an input `readme` that may fail. As written, line 83 calls `repo.get_readme_processed`, which the liteflow `GitRepo` (liteflow/utils/workflow/git_repo.py:5-42) does not define, so for the source this input is always a failure and every page whose ref resolves raises `AttributeError`. The success path describes the evident intent. Rendering, the config list and the backend list are left out.
- StorageManagers.Create: the declarations are an input sequence in mapping order. `Config.load_storage_backends` is not part of this model. Settings values are strings. The backend constructors' own failures (a missing `region` or `bucket_patterns`) are left out.
- liteflow's `StorageManager` dispatches on `local` while its configuration declares `server`. This is modelled as written (`StorageManagers.FileSystemTypesDiffer`).
- The local and server file backends, liteflow/utils/storage/base.py's abstract methods, and S3 `get_metadata` are not modelled. They map directly over `os.scandir`, `stat` or `head_object`.
- nfui/utils/storage/base.py is not part of this model; `description` follows liteflow/utils/storage/base.py:9.
- S3Storage.S3File.ListEntries: boto3 bucket listings and paginated pages are inputs. Their dates are opaque integers, carried into the entries' `created` and `modified` as the source does.
- `GitRepo.fetch_file` delegates to the provider and is not modelled. nfui/utils/git_repo.py is not part of this model; `NfuiPipeline` uses the liteflow `GitRepo` semantics.
- GithubProvider.FetchRefs: `list(set(...))` has no defined order in Python, so the commit map is specified relationally: its keys are short shas, and each value is a gathered sha with that short form.
- Configs.EnforceCases: the file copy of `enforce_default_config` is modelled as a map update with the source content. A `UniqueViolation` is reported as an error value, without its text; the copied file stays, as in the source.
- The Flask request, form, flash and `jsonify` machinery is reduced to datatypes: a verb, an AJAX flag, a status and a message.
- FileBrowser: the array sort itself is the browser's. Only the comparator is modelled, with the `name`, `name-numeric` and `size` keys. Date keys, `formatDate`, `toFixed`, `viewFile` and the `fetch` calls are left out, and JavaScript numbers are unbounded integers and reals.
- FileBrowser.Browser.LoadDirectory: the answer is an input (`Listing`, `NoItems` or `Thrown`); the list route (nfui/routes/api/storage_list.py:8-19) is not part of this model; it answers `Listing` on success, `NoItems` with its 400 error reply, and `Thrown` through its login redirect to an HTML page. The load is applied as one step. `loading` stays true across the awaited `fetch`, and interleaved or overlapping loads are not modelled.
- StorageManagers.Listing: its own contract states only the number of entries; their names, types and descriptions are stated by `StorageManagers.ListingFromDecls` and `StorageManagers.StorageManager.ListBackends`.
- FileBrowser.Browser.ChangePageSize: requires a size of at least 1, as the page-size selector offers. The source does not check this.
- FileBrowser.Browser.ChangePage: requires a page of at least 1, as the pagination buttons offer. The source does not check this.
- SoftwareInfo.GetSoftwareVersions: each command is a parameter `run` from command text to exit code and output, and stderr is ignored.
- Loggers, `print` calls and login/session handling are left out.
