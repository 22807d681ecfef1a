# GitLab adapter of Octotree, modelled in Dafny

Octotree's GitLab adapter shows a repository's file tree in a sidebar. This project
models the adapter's core logic.

**Changed-files tree of a merge request (`_getPatch`).** The adapter folds the
flat list of changed files into one flat dictionary, `diffMap`:
- a blob entry per file;
- a folder entry per ancestor folder, with the number of files beneath it and
  their added and deleted line counts;
- a root-level file counts into a folder entry at the empty path.

It then turns every key into a tree node and sorts the nodes by path.

Modules: `ChangeTree` holds the data, the fold as functions, and the imperative
code: the loops over the records and their folders, the projection of the keys,
and an in-place insertion sort on an array. `ChangeTreeProps` holds the lemmas.

**Paged GET (`_get`, `loadAll`).** The first response decides everything:
- it is delivered as is;
- or it is reported as truncated (status 206);
- or, when `X-Total-Pages` exceeds 1, pages 2..N are requested.

Their responses arrive in any order. Each `.done` callback:
- bumps the shared `count`;
- stores its page at slot `page - 1` of the sparse array `data_arr`;
- hands the concatenation of all slots to the caller once `count` reaches N.

The callbacks of pages 2..N report their errors (a failed page, a truncated tree
page) through `this._handleError`. But `loadAll` is a plain function called without
a receiver, so there `this` is not the adapter and the call throws before the
caller hears anything (see "## Findings"). The model has both versions:
- `ArriveAsWritten`, `RunAsWritten` and `GetOutcomesAsWritten` follow the code as
  written: an error on pages 2..N makes no callback.
- `Arrive`, `Run` and `GetOutcomes` follow the evident intent: such an error reaches
  the caller with its status, as it does for the first page. The class and the
  remaining lemmas use this version.
- `AsWrittenDropsErrors` connects the two: as written, the callbacks are exactly the
  intended ones with the errors removed.

The shared closure state is the class `PageLoader`; its callback is the method
`Receive`. `Get` runs the whole exchange over a given arrival order. The lemmas
in `PagedFetchProps` prove the following:
- The merge does not depend on the arrival order.
- A failed page is reported, and nothing is merged after it. As written, such an
  exchange makes no callback at all.
- At most one merged result is ever delivered.
- The truncation check on a later page counts the page but leaves its slot empty.
  Depending on the order, this either merges a hole as `undefined` or never merges.

**Which repository a page shows (`getRepoFromPath`).** The path pattern is
modelled exactly, as the leftmost pair of non-empty path segments. Then, in order:
- the reserved user and repository names;
- the derived pull-request number;
- the non-code page rule;
- the branch fallback chain: the value of the `#repository_ref` field; the text of
  the entry chosen in the select2 ref picker
  (`.select2-container.project-refs-select.select2 .select2-chosen`); the fourth
  maximal run of non-`/` characters in the tree-shortcut link's `href` (index 3 of its
  global match); then the branch of the current repository; then the adapter's
  default-branch cache; finally a project request whose `default_branch`, or `master`
  when that is empty, becomes the branch and fills the cache.

The cache is the field of the class `GitlabAdapter`. Its method
`GetRepoFromPath` is proved against the function `RepoFromPath`.

**Requests (`TreeRequests`).** This module covers:
- the path `loadCodeTree` builds;
- the route `_getTree` takes (merge-request files or tree listing);
- the API URL every request goes to.

Shared pieces live in `Wrappers`, `StringOps` and `SeqFacts`:
- `Option`;
- JavaScript's `split('/')` and `join('/')` on strings;
- the string order used for sorting;
- distinctness of sequences.

## Model

| member | source | states |
|---|---|---|
| ChangeTree.BlobOf | src/adapters/gitlab.js:198-208 | the entry a record writes under its file name is a blob entry whose `diffId` is the record's index and whose status, counts, URL, name, path and sha are the record's |
| ChangeTree.FolderPath | src/adapters/gitlab.js:211 | the file name without its last segment: for a name holding a `/`, a folder on the file's path with no `/` after it, so the deepest one; else the empty path |
| ChangeTree.NextPath | src/adapters/gitlab.js:215-216 | from the empty accumulator the next path is the piece itself; otherwise it is the accumulator, `/` and the piece, a path below the accumulator |
| ChangeTree.ReducePaths | src/adapters/gitlab.js:214-218 | the reduce visits one path per folder piece, and from a non-empty start the first one lies below the start |
| ChangeTree.Ancestors | src/adapters/gitlab.js:211-218 | one visited path per piece of the folder path, so at least one even for a root-level file |
| ChangeTree.AddChange | src/adapters/gitlab.js:228-232 | counting a file into an existing entry adds its additions and deletions; a folder entry's count grows by one; a blob entry stays a blob with its id, status, URL, path and sha |
| ChangeTree.Bump | src/adapters/gitlab.js:219-232 | the visited path becomes a key; a path not yet a key gets a folder entry with count 1 |
| ChangeTree.BumpAll | src/adapters/gitlab.js:214-234 | the reduce over a file's folders removes no key |
| ChangeTree.Record | src/adapters/gitlab.js:195-234 | handling one record removes no key and makes the record's file name a key |
| ChangeTree.BuildDiffMap | src/adapters/gitlab.js:195-235 | no records leave `diffMap` empty; after the loop the last record's file name is a key (which keys and entries there are, `DiffMapKeys`, `FileEntry` and `FolderTotals` state) |
| ChangeTree.Project | src/adapters/gitlab.js:237-246 | the node of a key has that key as path and its entry as patch, is a blob exactly for a blob entry, and carries the blob's sha and URL, or none for a folder |
| ChangeTree.CollectDiffMap | src/adapters/gitlab.js:193-235 | the `forEach` loop leaves `diffMap` equal to the fold `BuildDiffMap` of the records: each record writes its blob entry, then counts into its folders |
| ChangeTree.AddFolders | src/adapters/gitlab.js:211-234 | the reduce over one file's folder pieces, creating a folder entry with count 1 or adding to an existing one, equals counting the file into each of its `Ancestors` in turn |
| ChangeTree.ProjectKeys | src/adapters/gitlab.js:237-247 | every node is the projection of its own key (a blob gets the sha and blob URL, a folder neither); every key yields a node; no node occurs twice |
| ChangeTree.SortByPath | src/adapters/gitlab.js:249-251 | the array ends sorted by path and is a permutation of what it held |
| ChangeTree.GetPatch | src/adapters/gitlab.js:187-256 | the result has exactly one node per `diffMap` key, each the projection of that key's entry; paths strictly increase, so no path repeats; a path that is a proper prefix of another comes first, so parent folders precede their children |
| ChangeTree.PermutedProjection | src/adapters/gitlab.js:237-251 | reordering the projected nodes keeps one node per `diffMap` key, each the projection of its entry, with no repeats |
| ChangeTree.StrictPutsPrefixFirst | src/adapters/gitlab.js:249-251 | in a tree whose paths strictly ascend, a path comes before every path it is a proper prefix of, so a folder precedes its contents |
| ChangeTree.SortNodes | src/adapters/gitlab.js:249-251 | the nodes come back sorted by path and as a permutation of the nodes given |
| ChangeTree.SortedProjection | src/adapters/gitlab.js:237-251 | the sorted projection has one node per `diffMap` key, each the projection of that key's entry, with paths strictly ascending and every proper prefix first |
| StringOps.Split | src/adapters/gitlab.js:211-212 | `split('/')` gives at least one piece, and no piece holds a `/` |
| StringOps.Join | src/adapters/gitlab.js:211-212 | `join('/')` of no pieces is empty and of one piece is that piece; with more, the first piece is a folder on the joined path |
| StringOps.DropLast | src/adapters/gitlab.js:211 | `slice(0, -1)` is a prefix one shorter than the sequence, or empty for an empty one |
| StringOps.JoinSplit | src/adapters/gitlab.js:211-212 | joining the pieces of `split('/')` with `/` gives back the string |
| StringOps.SplitJoin | src/adapters/gitlab.js:211-212 | splitting a `/`-join of pieces without `/` gives back the pieces |
| StringOps.LessTotal | src/adapters/gitlab.js:251 | the sort order, standing in for `localeCompare`, is total on distinct strings |
| StringOps.LessTransitive | src/adapters/gitlab.js:251 | the sort order is transitive |
| StringOps.LessAsymmetric | src/adapters/gitlab.js:251 | the sort order is asymmetric |
| StringOps.PrefixFirst | src/adapters/gitlab.js:249-251 | a proper prefix sorts before the longer string, which puts a folder ahead of its contents |
| ChangeTreeProps.RootLevelAncestors | src/adapters/gitlab.js:211-217 | a file name without `/` has the empty folder path, so its only ancestor entry is the one at `''` |
| ChangeTreeProps.ReduceFromNonEmpty | src/adapters/gitlab.js:215-218 | from a non-empty accumulator, the k-th path of the reduce is the accumulator, `/`, and the first k+1 pieces joined |
| ChangeTreeProps.AncestorAt | src/adapters/gitlab.js:211-218 | for a nested file the reduce visits one path per folder piece, the k-th being the first k+1 segments joined by `/` |
| ChangeTreeProps.NestedAncestors | src/adapters/gitlab.js:211-218 | for a nested file the paths visited are exactly the folders on its path |
| ChangeTreeProps.NestedAncestorsAreFolders | src/adapters/gitlab.js:211-218 | every path the reduce builds for a nested file is a folder on that file's path |
| ChangeTreeProps.FoldersAreNestedAncestors | src/adapters/gitlab.js:211-218 | every folder on a nested file's path is built by the reduce |
| ChangeTreeProps.NestedAncestorsDistinct | src/adapters/gitlab.js:211-218 | a nested file visits each of its folders once |
| ChangeTreeProps.AncestorsUnder | src/adapters/gitlab.js:211-234 | any file (not starting with `/`) counts into each folder it lies under exactly once, and into no other |
| ChangeTreeProps.BumpAllOutside | src/adapters/gitlab.js:215-234 | the reduce leaves every entry whose path it does not visit as it was, present or absent |
| ChangeTreeProps.BumpAllInside | src/adapters/gitlab.js:215-234 | a path visited once gains the file once: a new folder entry with count 1, or the existing entry with additions, deletions and count grown |
| ChangeTreeProps.FolderTotals | src/adapters/gitlab.js:193-235 | a folder's entry holds the number of records under it and the sums of their additions and deletions; it exists exactly when that number is positive |
| ChangeTreeProps.FileEntry | src/adapters/gitlab.js:198-208 | a file's entry is the blob entry of its last record, with `diffId` that record's index and its status, counts, URL, path and sha |
| ChangeTreeProps.BumpAllKeys | src/adapters/gitlab.js:215-234 | the reduce adds exactly the paths it visits to the keys |
| ChangeTreeProps.DiffMapKeys | src/adapters/gitlab.js:193-235 | the keys of `diffMap` are exactly the file names and the folders some record counts into |
| ChangeTreeProps.AnyTouchesExists | src/adapters/gitlab.js:195-235 | a path is touched by the records seen so far exactly when some record names it or passes through it |
| ChangeTreeProps.DiffMapKeysTouched | src/adapters/gitlab.js:195-235 | a path is a key after the loop exactly when some record touches it |
| ChangeTreeProps.TwoFileScenario | src/adapters/gitlab.js:195-235 | `src/a.go` (+3 -1) and `src/sub/b.go` (+5 -0) give `src` two files, +8 -1, and `src/sub` one file, +5 -0 |
| ChangeTreeProps.ScenarioSrcFolder | src/adapters/gitlab.js:215-234 | for `src/a.go` (+3/-1) then `src/sub/b.go` (+5/-0), folder `src` has 2 files, 8 additions, 1 deletion |
| ChangeTreeProps.ScenarioSubFolder | src/adapters/gitlab.js:215-234 | in the same scenario folder `src/sub` has 1 file, 5 additions, 0 deletions |
| ChangeTreeProps.TwoFileScenarioFiles | src/adapters/gitlab.js:198-208 | in that scenario each file keeps its own blob entry, with `diffId` 0 and 1 |
| ChangeTreeProps.ScenarioFirstFile | src/adapters/gitlab.js:198-208 | in the same scenario `src/a.go` keeps the blob entry written by the first record |
| ChangeTreeProps.ScenarioSecondFile | src/adapters/gitlab.js:198-208 | in the same scenario `src/sub/b.go` keeps the blob entry written by the second record |
| ChangeTreeProps.TouchesOfFirstScenarioFile | src/adapters/gitlab.js:211-218 | `src/a.go` touches exactly itself and `src` |
| ChangeTreeProps.TouchesOfSecondScenarioFile | src/adapters/gitlab.js:211-218 | `src/sub/b.go` touches exactly itself, `src` and `src/sub` |
| ChangeTreeProps.TwoFileScenarioKeys | src/adapters/gitlab.js:193-247 | in that scenario the keys, and so the nodes, are exactly the two files and their two folders |
| PagedFetch.IsTreesPath | src/adapters/gitlab.js:288 | the truncation check (here and at line 304) applies exactly to a given path that starts with `/git/trees` |
| PagedFetch.IsPaged | src/adapters/gitlab.js:309 | further pages are loaded only when `X-Total-Pages` is present and at least 2, never without the header |
| PagedFetch.Merge | src/adapters/gitlab.js:293 | the first page heads the merged result, and every hole in `data_arr` contributes an `undefined` |
| PagedFetch.Arrive | src/adapters/gitlab.js:286-298 | with errors reported as intended, one callback appends at most one outcome and takes none back; only a successful page bumps the count |
| PagedFetch.Run | src/adapters/gitlab.js:279-300 | a sequence of callbacks only appends outcomes, at most one per arrival |
| PagedFetch.ArriveAsWritten | src/adapters/gitlab.js:286-298 | as written, one callback of pages 2..N appends at most one outcome, and only ever a delivery: its errors never reach the caller |
| PagedFetch.RunAsWritten | src/adapters/gitlab.js:279-300 | as written, every outcome pages 2..N produce is a delivery of merged data |
| PagedFetch.PagesRequested | src/adapters/gitlab.js:281-282 | the `for` loop requests pages 2..N exactly when the first response is a successful, untruncated page announcing N pages; otherwise no later page is requested |
| PagedFetch.ArrivalsRequested | src/adapters/gitlab.js:281-285 | every later response answers one of the requests for pages 2..N, so none comes without a paged first response |
| PagedFetch.GetOutcomes | src/adapters/gitlab.js:302-316 | one `_get` calls back at most once per response; a failed first request, a truncated first tree page or an unpaged first page calls back exactly once |
| PagedFetch.GetOutcomesAsWritten | src/adapters/gitlab.js:279-316 | as written, every callback of a paged `_get` is a delivery; no error of a later page is ever reported |
| PagedFetch.Store | src/adapters/gitlab.js:291 | writing slot k of `data_arr` puts the page there; past the end the array grows to k+1, with holes in between; every other slot is unchanged |
| PagedFetch.PageLoader.constructor | src/adapters/gitlab.js:279-281 | the loader starts with page 1 in slot 0, count 1, and no callback made |
| PagedFetch.PageLoader.Receive | src/adapters/gitlab.js:286-298 | one callback: a failure reports its status; a success bumps the count, then either reports 206 for a truncated tree page, or stores the page and delivers the merge once the count reaches N |
| PagedFetch.Get | src/adapters/gitlab.js:302-316 | the callbacks made equal `GetOutcomes`: a failure or a truncated first tree page is reported, an unpaged first page is delivered, otherwise the loader's callbacks in arrival order |
| PagedFetchProps.MergeFilled | src/adapters/gitlab.js:293 | once every slot holds its page, the merge is the concatenation of the pages in page order |
| PagedFetchProps.StoreSeen | src/adapters/gitlab.js:291 | storing page p keeps slot q holding page q+1 exactly for the pages seen, with holes elsewhere |
| PagedFetchProps.ArriveComplete | src/adapters/gitlab.js:286-296 | a complete page arriving while the count is short of N bumps the count, fills its slot, and delivers only when the count becomes N |
| PagedFetchProps.RunWithoutTruncation | src/adapters/gitlab.js:279-300 | after k complete pages the count is k+1, the slots hold exactly those pages, and nothing has been delivered unless k+1 is N |
| PagedFetchProps.AllPagesMerged | src/adapters/gitlab.js:279-300 | pages 2..N, complete, each arriving once in any order, yield one delivery of all pages in page order |
| PagedFetchProps.MergeInAnyOrder | src/adapters/gitlab.js:279-316 | for a paged `_get` the result is the same whatever the arrival order: exactly one callback with pages 1..N concatenated, and none before the last page arrives |
| PagedFetchProps.PrefixesSilent | src/adapters/gitlab.js:291-294 | while some of pages 2..N, all complete, are still to arrive, no callback has been made |
| PagedFetchProps.MergeInAnyOrderAsWritten | src/adapters/gitlab.js:279-316 | the code as written also delivers pages 1..N concatenated in page order, exactly once, whatever the arrival order of complete pages |
| PagedFetchProps.DoneCountAtMost | src/adapters/gitlab.js:286-287 | at most one count per arrival |
| PagedFetchProps.DoneCountWithFailure | src/adapters/gitlab.js:287-298 | a failed arrival leaves the count short of the number of arrivals |
| PagedFetchProps.ShortRunNeverMerges | src/adapters/gitlab.js:286-298 | only successful pages move `count`, and while it stays below N every callback made is an error |
| PagedFetchProps.OutputsOnlyGrow | src/adapters/gitlab.js:286-298 | callbacks already made are never taken back: later arrivals only append |
| PagedFetchProps.FailedPageNeverMerges | src/adapters/gitlab.js:286-298 | when one of pages 2..N fails, its status is reported and no merged result is ever delivered, whatever the other pages do |
| PagedFetchProps.FailedPageReported | src/adapters/gitlab.js:285-298 | with errors reported, a failed page among pages 2..N leaves its status among the callbacks, and every callback made is an error |
| PagedFetchProps.DeliveryOnlyAtN | src/adapters/gitlab.js:286-296 | a merge is delivered only when the count reaches N, and after that the count only grows, so at most one merge is delivered |
| PagedFetchProps.AtMostOneMergedResult | src/adapters/gitlab.js:279-316 | however the responses arrive, one `_get` delivers at most one successful result |
| PagedFetchProps.FirstResponseDecides | src/adapters/gitlab.js:302-316 | a failed first request reports its status; a truncated first tree page reports 206; an untruncated page without `X-Total-Pages > 1` is delivered unchanged; each of these is a single callback |
| PagedFetchProps.MergeOfThree | src/adapters/gitlab.js:293 | a hole in the slots is merged as the `undefined` value; a missing trailing slot contributes nothing |
| PagedFetchProps.TruncatedMiddlePage | src/adapters/gitlab.js:286-296 | with three tree pages and page 2 truncated: arriving before page 3, it yields a 206 error and then a merge holding `undefined` where page 2 belongs; arriving after page 3, it yields only the 206 error |
| PagedFetchProps.TruncatedLastPage | src/adapters/gitlab.js:286-296 | with page 3 of three truncated and arriving first, the 206 error is followed by a merge of pages 1 and 2 alone |
| PagedFetchProps.AsWrittenDropsErrors | src/adapters/gitlab.js:279-300 | the callbacks as written keep the same slots and count as the intended ones, and make the same calls except the errors |
| PagedFetchProps.ArriveSilenced | src/adapters/gitlab.js:285-298 | one callback of pages 2..N as written leaves the same buffer and count as the reporting one, and makes the same call unless that call is an error |
| PagedFetchProps.GetAsWrittenDropsErrors | src/adapters/gitlab.js:279-316 | a whole `_get` as written makes the intended callbacks with the errors of a paged exchange removed; the first page's own callbacks are unchanged |
| PagedFetchProps.PagedAsWritten | src/adapters/gitlab.js:279-316 | for an untruncated first page announcing N pages, the callbacks as written are the reporting ones with every error dropped |
| PagedFetchProps.FailedPageSilent | src/adapters/gitlab.js:286-298 | as written, a paged `_get` in which one of pages 2..N fails never calls back at all |
| PagedFetchProps.TruncatedMiddlePageAsWritten | src/adapters/gitlab.js:286-296 | as written, with page 2 of three truncated: arriving first, it yields only a merge holding `undefined` where page 2 belongs; arriving last, no callback at all |
| PagedFetchProps.TruncatedLastPageAsWritten | src/adapters/gitlab.js:286-296 | as written, a truncated page 3 of three arriving first is dropped silently and pages 1 and 2 alone are delivered |
| RepoPath.MatchSegments | src/adapters/gitlab.js:91 | there is no match in fewer than two segments; every group that matches is a whole non-empty segment, and an id matches only after a type |
| RepoPath.MatchPath | src/adapters/gitlab.js:91-99 | the user, repository, type and id of a matched path are non-empty and free of `/`, and an id comes only with a type |
| RepoPath.PullNumber | src/adapters/gitlab.js:108-109 | a pull number exists exactly on a `pull` page with an id when only changed files are wanted, and it is that id |
| RepoPath.SkipsNonCode | src/adapters/gitlab.js:111-114 | nothing is skipped when non-code pages are wanted, and a page without a type or of type `tree` or `blob` is never skipped |
| RepoPath.NonEmpty | src/adapters/gitlab.js:126 | the runs kept are non-empty and free of `/`, never more than the pieces, and all of them when none is empty |
| RepoPath.MatchLeftmost | src/adapters/gitlab.js:91-99 | the path matches exactly when two consecutive segments are non-empty; the groups are the leftmost such pair, then the type and id segments when those are present and non-empty |
| RepoPath.Runs | src/adapters/gitlab.js:126 | the global match yields only non-empty runs without `/`; a non-empty string without `/` is a single run, so the `' '` stand-in gives one run |
| RepoPath.PageBranch | src/adapters/gitlab.js:121-126 | a branch found on the page is never empty; a truthy ref-field value is the branch; without one a non-empty picker text is; without both, a link `href` (or the `' '` stand-in) with more than three runs of non-`/` characters gives its fourth run, one with one to three runs gives nothing; the lookup throws exactly when the link has no run at all, which needs a link to be present |
| RepoPath.RememberedBranch | src/adapters/gitlab.js:128-130 | a remembered branch is never empty and is either the current repository's branch, when it is the same repository, or the cached default branch of `user/repo`; the current repository's non-empty branch wins; nothing is remembered only when the cache has no non-empty entry for the key |
| RepoPath.Locate | src/adapters/gitlab.js:80-136 | anything but "not a repository" needs a page that is neither a 404 nor raw and whose path matches; a resolved repository has the matched names, the derived pull number and a non-empty branch, which is the page's own branch or, when the page has none, the remembered one; the lookup throws only when the page branch does; the default branch is asked for, with the matched names, only when neither the page nor memory has a branch |
| RepoPath.RepoFromPath | src/adapters/gitlab.js:76-144 | the cache changes only after a successful project request made because no branch was known; a located repository has a non-empty branch; a failed fetch comes from an error reply and leaves the cache as it was; a resolved lookup is delivered as is with the cache unchanged; after a successful project request the branch is `default_branch`, or `master` when that is empty, and it is cached under `user/repo` |
| RepoPath.GitlabAdapter.constructor | src/adapters/gitlab.js:20-22 | the adapter starts with an empty default-branch cache; the constructor only calls the base class, which sets up `_defaultBranch` and is not part of this model |
| RepoPath.GitlabAdapter.GetRepoFromPath | src/adapters/gitlab.js:76-144 | the callback's outcome and the new cache are those of `RepoFromPath` on the old cache |
| RepoPathProps.SplitOfPath | src/adapters/gitlab.js:91 | a path `/` followed by segments splits into the empty segment and those segments |
| RepoPathProps.PathRoundTrip | src/adapters/gitlab.js:90-99 | a path `/user/repo[/type[/id]]...` gives back its own user and repository, its type when the third segment is non-empty, and its id only together with a type |
| RepoPathProps.ReservedNeverRepo | src/adapters/gitlab.js:1-13 | a reserved user name or repository name is never taken for a repository, and the cache is untouched |
| RepoPathProps.NonCodeSkipped | src/adapters/gitlab.js:111-114 | past the page and name checks, the lookup is skipped if and only if the page has a type other than `tree` or `blob` and non-code pages are not wanted |
| RepoPathProps.LocatedRepo | src/adapters/gitlab.js:96-141 | a located repository has the matched user and repository, neither reserved, and a non-empty branch; it has a pull-request number exactly on a `pull` page with an id when changed files are wanted, and that number is the id |
| RepoPathProps.LocatedFromMatch | src/adapters/gitlab.js:96-141 | a located repository takes user and repository name from the match, neither is reserved, its branch is non-empty, and its pull number is the one the page type and setting give |
| RepoPathProps.PageBranchWins | src/adapters/gitlab.js:121-136 | a branch found on the page decides the outcome whatever the current repository, cache or project reply, and nothing is cached |
| RepoPathProps.BranchFallbackOrder | src/adapters/gitlab.js:121-141 | past the page checks the branch is the page's own when it has one, else the current repository's or the cached one, else the project's `default_branch` or `master`; a throwing page branch stops the lookup |
| RepoPathProps.CacheGrowsByOne | src/adapters/gitlab.js:130-141 | a lookup leaves the cache as it was, or sets the located repository's `user/repo` key to its non-empty branch |
| RepoPathProps.FetchFailureReported | src/adapters/gitlab.js:137-139 | when no branch is known and the project request fails, its status is reported and nothing is cached |
| RepoPathProps.SecondLookupUsesCache | src/adapters/gitlab.js:128-141 | after a default branch is fetched, the same lookup again resolves from the cache without a request, to the same repository, and leaves the cache unchanged |
| RepoPathProps.TreeLinkBranch | src/adapters/gitlab.js:119-126 | a tree link `/group/project/tree/branch` alone on the page gives its fourth run of non-`/` characters, `branch`, as the branch |
| RepoPathProps.LinkSegments | src/adapters/gitlab.js:126 | splitting `/g/p/t/b` gives an empty piece and then the four segments |
| RepoPathProps.SlashOnlyLinkThrows | src/adapters/gitlab.js:125-126 | a tree link `/` makes the match return `null`, and the lookup throws where the `' '` stand-in was meant to prevent it |
| TreeRequests.TreePath | src/adapters/gitlab.js:155-156 | the path built for `_getTree` is never empty; a node with a truthy sha loads that sha; a node without one loads the encoded branch when that is non-empty; the whole tree (no node), or a sha-less node with an empty branch, is the recursive listing `?ref=` + encoded branch + `&recursive=true&per_page=100` |
| TreeRequests.GetTree | src/adapters/gitlab.js:161-171 | the merge request's files are read exactly when the repository has a pull number, from `/pulls/` + that number + `/files?per_page=300`; otherwise the tree listing is read at `/repository/tree/` + the requested path |
| TreeRequests.ApiUrl | src/adapters/gitlab.js:271-272 | every request URL starts with the page's own scheme and host and `/api/v4/projects/`, and ends with the request path, or with the repository name when there is none |
| RepoPathProps.TreeRequestsNotTruncationChecked | src/adapters/gitlab.js:162-171 | neither the merge-request files nor a `/repository/tree/` listing is a `/git/trees` path, so truncation is never checked for a tree request |
| RepoPathProps.PullPagesLoadPatch | src/adapters/gitlab.js:162-171 | for a located repository, `_getTree` reads the merge request's files exactly on a `pull` page with an id when changed files are wanted, and the tree listing otherwise |
| RepoPathProps.CutAtMarker | src/adapters/gitlab.js:272 | where two strings without a marker character are each followed by a part that starts with it, equal concatenations cut at the same place |
| RepoPathProps.ApiUrlSeparatesRepos | src/adapters/gitlab.js:272 | two requests with the same API URL name the same user, repository and path, provided user names hold no `%`, repository names no `/`, and paths start with `/` |

## Left out

- DOM, layout, pjax, the mutation observer and file selection (`init`, `updateLayout`, `selectFile`, `getCreateTokenUrl` and the like) are left out. They touch only the page. The page facts that `getRepoFromPath` reads are inputs: the 404 and raw markers, the pathname, the value of `#repository_ref`, the text of the select2 ref picker, and the tree-shortcut link.
- The `$.ajax` transport, the `Authorization` header, `cache: false` and the body of `_handleError` are left out. A response is an input, and an error the adapter reports is an outcome carrying a status. The `TypeError` that the callbacks of pages 2..N throw is modelled as making no callback; the exception itself and where it surfaces are not modelled.
- Asynchrony is modelled as a sequence: the responses to pages 2..N arrive in a given order, one callback at a time.
- The `X-Total-Pages` header is taken as already parsed to an integer, or absent. JavaScript's coercion of non-integer header strings is not modelled. For example, `"2.5"` would request page 2 and never merge.
- The project request behind a missing default branch is another `_get`. Here it is a single reply, either the project's `default_branch` or an error status. Its own paging is not modelled.
- `encodeURIComponent`/`decodeURIComponent` are left out: `TreeRequests.TreePath` takes the encoded branch as given.
- `_getSubmodules`, `atob` and `parseGitmodules` are not part of this model.
- `_loadCodeTreeInternal`, the base class code that passes `opts.path` on to `_getTree`, is not part of this model. The two ends are modelled separately.
- `localeCompare` is locale-sensitive. It is replaced by code-point lexicographic order (`StringOps.Less`), which keeps the property the sort relies on: a folder precedes its contents.
- A blob entry that a later file's reduce visits as a folder gets `filesChanged++` on a missing field, which makes it NaN in JavaScript. `ChangeTree.AddChange` only grows the blob's additions and deletions, because a blob entry has no `filesChanged` here.
- `_getPatch`'s error path (`cb(err)`) is the paged GET's error outcome and is not repeated. `ChangeTree.GetPatch` models the successful response.
- `Object.keys` order is left open. `ChangeTree.ProjectKeys` picks keys in an arbitrary order, and the sort makes the result independent of it.
- ChangeTreeProps.FolderTotals: stated for file names that do not start with `/` and for a folder that is not itself a file name. This is weaker than the code for other names. A leading `/` makes the reduce count the file into paths that are not its folders: for `/a/b` it visits `''` and `a`, while its folder is `/a` (only a name starting with `//` visits `''` twice). A name used as both file and folder mixes a blob entry with folder totals.
- ChangeTreeProps.FileEntry: stated only when no later record reuses the name or counts into it as a folder. Otherwise the later record's blob entry, or its folder bump, overwrites or changes the entry.
- ChangeTreeProps.AncestorsUnder: stated for file names that do not start with `/`, for the same reason as `FolderTotals`.
- RepoPathProps.ApiUrlSeparatesRepos: stated for user names without `%`, repository names without `/`, and paths starting with `/`. These are the shapes GitLab user names, repository names and the adapter's API paths have. Without them, distinct repositories can share a URL.
- ChangeTree.BuildDiffMap: `diffMap` is a map with only its own keys. A file or folder named like a property every JavaScript object inherits (`constructor`, `toString`, `__proto__`) behaves differently in the code: `diffMap[path] == null` is false for it, so the folder branch adds to an inherited value; `Object.keys` does not list an inherited name; and assigning to `__proto__` changes the object's prototype instead of adding a key. These names are not modelled.
- RepoPath.RememberedBranch: `None` stands for a current repository that names no repository. A `null` current repository would make the code throw when it reads `currentRepo.username`; the caller that decides what is passed is not part of this model.
- PagedFetch.Get: follows the intended reporting of errors on pages 2..N (see "## Findings"). The code as written is modelled by `GetOutcomesAsWritten`, and `GetAsWrittenDropsErrors` relates the two.
- PagedFetch.Run: folds the intended callbacks, which report errors on pages 2..N. The code as written is folded by `RunAsWritten`, and `AsWrittenDropsErrors` relates the two.
- PagedFetch.GetOutcomes: follows the intended reporting of errors on pages 2..N. The code as written is modelled by `GetOutcomesAsWritten`, and `GetAsWrittenDropsErrors` relates the two.
- PagedFetch.PageLoader.Receive: reports a failed or truncated later page, as intended; as written such a callback throws and changes at most the count, which `ArriveAsWritten` models.
- PagedFetch.Arrive: states the intended reporting of a failed or truncated later page. As written such a callback throws and changes at most the count, which `ArriveAsWritten` models.
- PagedFetchProps.FailedPageReported: states the intended behaviour, where the failure is reported. As written no callback is made at all, which `FailedPageSilent` states.
- PagedFetchProps.FailedPageNeverMerges: states the intended behaviour, where the failure is reported. As written no callback is made at all, which `FailedPageSilent` states.
- PagedFetchProps.TruncatedMiddlePage: states the intended behaviour, with the 206 error reported. As written the error is never reported, which `TruncatedMiddlePageAsWritten` states.
- PagedFetchProps.TruncatedLastPage: states the intended behaviour, with the 206 error reported. As written the error is never reported, which `TruncatedLastPageAsWritten` states.
- PagedFetchProps.MergeInAnyOrder: stated for responses that are all complete and untruncated. With a truncated page the result can depend on the order, which `TruncatedMiddlePage` shows.

## Findings

| source | as written | input that shows it | evidently intended | confidence | as-written member | corrected member |
|---|---|---|---|---|---|---|
| src/adapters/gitlab.js:298 | `loadAll` is called as a plain function, so inside its arrow callbacks `this` is not the adapter, and the `.fail` callback's `this._handleError(jqXHR, cb)` throws a `TypeError`; the caller's callback is never called | `X-Total-Pages` 3, page 2 fails with status 500, page 3 succeeds: no callback at all | the failure is reported to the caller with its status, as the first request's `.fail` does | high, not executed | PagedFetch.ArriveAsWritten, PagedFetchProps.FailedPageSilent | PagedFetch.Arrive, PagedFetchProps.FailedPageNeverMerges |
| src/adapters/gitlab.js:289 | the same unbound `this` makes the truncation report of a later `/git/trees` page throw; the page is counted but never stored or reported | tree pages 1..3, page 2 truncated and arriving before page 3: only a merge with `undefined` in place of page 2 is delivered | the truncation is reported with status 206, as for the first page | high, not executed | PagedFetchProps.TruncatedMiddlePageAsWritten | PagedFetchProps.TruncatedMiddlePage |
