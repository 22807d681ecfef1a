/** Which repository a GitLab page shows (`getRepoFromPath`): the path pattern, the
    reserved names, the pull-request number, the non-code rule, and the chain of
    places the branch is looked up in, ending with the adapter's default-branch cache. */
module RepoPath {
  import opened Wrappers
  import opened StringOps

  /** Path owners that are site sections rather than users. */
  const ReservedUserNames: seq<string> := [
    "settings", "orgs", "organizations",
    "site", "blog", "about", "explore",
    "styleguide", "showcases", "trending",
    "stars", "dashboard", "notifications",
    "search", "developer", "account",
    "pulls", "issues", "features", "contact",
    "security", "join", "login", "watching",
    "new", "integrations", "gist", "business",
    "mirrors", "open-source", "personal",
    "pricing"
  ]

  /** Second path segments that are user pages rather than repositories. */
  const ReservedRepoNames: seq<string> := ["followers", "following", "repositories"]

  /** The branch used when the project reports no default branch. */
  const FallbackBranch := "master"

  /** The groups of `(username)/(reponame)[/(type)][/(typeId)]`; a group that took
      part in no match is `None`. */
  datatype PathMatch = PathMatch(username: string, reponame: string, pageType: Option<string>, typeId: Option<string>)

  /** The pattern can start at segment `k`: it and the next one are non-empty. */
  predicate PairAt(segs: seq<string>, k: int)
  {
    0 <= k && k + 1 < |segs| && segs[k] != "" && segs[k + 1] != ""
  }

  /** The groups of a match starting at segment `k`: each optional group takes the
      next segment when that is non-empty, the fourth only after the third. */
  function GroupsAt(segs: seq<string>, k: int): PathMatch
    requires PairAt(segs, k)
  {
    var t := if k + 2 < |segs| && segs[k + 2] != "" then Some(segs[k + 2]) else None;
    PathMatch(segs[k], segs[k + 1], t,
              if t.Some? && k + 3 < |segs| && segs[k + 3] != "" then Some(segs[k + 3]) else None)
  }

  /** The unanchored pattern tried at each start position in turn, over the
      `/`-separated segments of the path. */
  function MatchSegments(segs: seq<string>): (r: Option<PathMatch>)
    ensures |segs| < 2 ==> r.None?
    ensures r.Some? ==> r.value.username != "" && r.value.reponame != ""
    ensures r.Some? ==> r.value.username in segs && r.value.reponame in segs
    ensures r.Some? && r.value.pageType.Some? ==>
              r.value.pageType.value != "" && r.value.pageType.value in segs
    ensures r.Some? && r.value.typeId.Some? ==>
              r.value.pageType.Some? && r.value.typeId.value != "" && r.value.typeId.value in segs
    decreases |segs|
  {
    if |segs| < 2 then None
    else if segs[0] != "" && segs[1] != "" then Some(GroupsAt(segs, 0))
    else MatchSegments(segs[1..])
  }

  /** The match of a page path: its groups are whole, non-empty segments of the path,
      and an id is only matched after a type. */
  function MatchPath(pathname: string): (r: Option<PathMatch>)
    ensures r.Some? ==> r.value.username != "" && '/' !in r.value.username
    ensures r.Some? ==> r.value.reponame != "" && '/' !in r.value.reponame
    ensures r.Some? && r.value.pageType.Some? ==>
              r.value.pageType.value != "" && '/' !in r.value.pageType.value
    ensures r.Some? && r.value.typeId.Some? ==>
              r.value.pageType.Some? && r.value.typeId.value != "" && '/' !in r.value.typeId.value
  {
    MatchSegments(Split(pathname))
  }

  lemma {:induction false} MatchLeftmost(segs: seq<string>)
    ensures MatchSegments(segs).Some? <==> exists k :: PairAt(segs, k)
    ensures MatchSegments(segs).Some? ==>
              exists k :: PairAt(segs, k) && MatchSegments(segs).value == GroupsAt(segs, k)
                          && forall j :: 0 <= j < k ==> !PairAt(segs, j)
    decreases |segs|
  {
    if |segs| >= 2 && !(segs[0] != "" && segs[1] != "") {
      var tail := segs[1..];
      MatchLeftmost(tail);
      forall k | PairAt(segs, k)
        ensures PairAt(tail, k - 1)
      {
        assert k != 0;
      }
      if MatchSegments(tail).Some? {
        var k :| PairAt(tail, k) && MatchSegments(tail).value == GroupsAt(tail, k)
                 && forall j :: 0 <= j < k ==> !PairAt(tail, j);
        assert PairAt(segs, k + 1);
        assert GroupsAt(segs, k + 1) == GroupsAt(tail, k);
        forall j | 0 <= j < k + 1
          ensures !PairAt(segs, j)
        {
          if j > 0 {
            assert !PairAt(tail, j - 1);
          }
        }
      }
    } else if |segs| >= 2 {
      assert PairAt(segs, 0);
    }
  }

  /** The options the page lookup reads from the store. */
  datatype Settings = Settings(showInNonCodePage: bool, showOnlyChangedInPr: bool)

  /** `pullNumber`: the type id of a pull-request page, when changed files are wanted. */
  function PullNumber(m: PathMatch, settings: Settings): (r: Option<string>)
    ensures r.Some? <==> m.pageType == Some("pull") && settings.showOnlyChangedInPr && m.typeId.Some?
    ensures r.Some? ==> r == m.typeId
  {
    if m.pageType == Some("pull") && settings.showOnlyChangedInPr then m.typeId else None
  }

  /** A page of some other type than `tree` or `blob` is skipped unless non-code pages are wanted. */
  predicate SkipsNonCode(m: PathMatch, settings: Settings): (b: bool)
    ensures settings.showInNonCodePage ==> !b
    ensures m.pageType.None? || m.pageType == Some("tree") || m.pageType == Some("blob") ==> !b
  {
    !settings.showInNonCodePage && m.pageType.Some? && m.pageType.value != "tree" && m.pageType.value != "blob"
  }

  /** What the lookup reads from the page besides its path. */
  datatype Page = Page(
    notFound: bool,            // the 404 marker element is present
    rawContent: bool,          // the page is a raw file (`body > pre`)
    pathname: string,
    refValue: Option<string>,  // value of the `#repository_ref` field; `None` without the element
    refText: string,           // text of the chosen entry in the select2 ref picker
                               // (`.select2-container.project-refs-select.select2 .select2-chosen`);
                               // empty without it
    treeHref: Option<string>)  // `href` of the tree shortcut link, if any

  /** The repository a page belongs to. */
  datatype Repo = Repo(username: string, reponame: string, branch: string, pullNumber: Option<string>)

  /** The maximal runs of non-slash characters of `s`, as a global match of one or more
      non-slash characters finds them; no run at all stands for the `null` of no match. */
  function Runs(s: string): (runs: seq<string>)
    ensures forall i :: 0 <= i < |runs| ==> runs[i] != "" && '/' !in runs[i]
    ensures s != "" && '/' !in s ==> runs == [s]
  {
    if s != "" && '/' !in s then SplitNoSeparator(s); NonEmpty(Split(s))
    else NonEmpty(Split(s))
  }

  /** The non-empty pieces, in order; when no piece is empty, all of them. */
  function NonEmpty(xs: seq<string>): (ys: seq<string>)
    requires forall i :: 0 <= i < |xs| ==> '/' !in xs[i]
    ensures forall i :: 0 <= i < |ys| ==> ys[i] != "" && '/' !in ys[i]
    ensures |ys| <= |xs|
    ensures (forall i :: 0 <= i < |xs| ==> xs[i] != "") ==> ys == xs
    decreases |xs|
  {
    if xs == [] then []
    else (if xs[0] == "" then [] else [xs[0]]) + NonEmpty(xs[1..])
  }

  /** The `href` of the tree shortcut link, or the `' '` that stands in for a missing one. */
  function LinkText(treeHref: Option<string>): string
  {
    if Truthy(treeHref) then treeHref.value else " "
  }

  /** What the page says about the branch. */
  datatype BranchGuess = Guessed(name: string) | NoGuess | Thrown

  /** The page's own branch candidates, in order. Without a link the `' '` stand-in
      yields one run; a link of slashes only makes `match` return `null`, and reading
      `[3]` of it throws. */
  function PageBranch(page: Page): (g: BranchGuess)
    ensures g.Guessed? ==> g.name != ""
    ensures Truthy(page.refValue) ==> g == Guessed(page.refValue.value)
    ensures !Truthy(page.refValue) && page.refText != "" ==> g == Guessed(page.refText)
    ensures !Truthy(page.refValue) && page.refText == "" && |Runs(LinkText(page.treeHref))| > 3 ==>
              g == Guessed(Runs(LinkText(page.treeHref))[3])
    ensures !Truthy(page.refValue) && page.refText == "" && 1 <= |Runs(LinkText(page.treeHref))| <= 3 ==>
              g.NoGuess?
    ensures g.Thrown? <==> !Truthy(page.refValue) && page.refText == "" && Runs(LinkText(page.treeHref)) == []
    ensures g.Thrown? ==> Truthy(page.treeHref)
  {
    if Truthy(page.refValue) then Guessed(page.refValue.value)
    else if page.refText != "" then Guessed(page.refText)
    else
      var runs := Runs(LinkText(page.treeHref));
      if runs == [] then Thrown
      else if |runs| > 3 then Guessed(runs[3])
      else NoGuess
  }

  /** The key of the default-branch cache. */
  function CacheKey(username: string, reponame: string): string
  {
    username + "/" + reponame
  }

  /** The branch remembered for `username/reponame`: that of the current repository
      when it is the same one, else the cached default branch. */
  function RememberedBranch(current: Option<Repo>, username: string, reponame: string,
                            cache: map<string, string>): (b: Option<string>)
    ensures b.Some? ==> b.value != ""
    ensures b.Some? ==>
              (current.Some? && current.value.username == username
               && current.value.reponame == reponame && b.value == current.value.branch)
              || (CacheKey(username, reponame) in cache && b.value == cache[CacheKey(username, reponame)])
    ensures current.Some? && current.value.username == username && current.value.reponame == reponame
            && current.value.branch != "" ==>
              b == Some(current.value.branch)
    ensures b.None? ==> CacheKey(username, reponame) !in cache || cache[CacheKey(username, reponame)] == ""
  {
    if current.Some? && current.value.username == username && current.value.reponame == reponame
       && current.value.branch != ""
    then Some(current.value.branch)
    else if CacheKey(username, reponame) in cache && cache[CacheKey(username, reponame)] != ""
    then Some(cache[CacheKey(username, reponame)])
    else None
  }

  /** How far the lookup gets before it needs the network. */
  datatype Lookup =
    | NotARepo
    | ScriptError
    | Resolved(repo: Repo)
    | NeedsDefaultBranch(username: string, reponame: string, pullNumber: Option<string>)

  /** The lookup without the network: a repository is only found on a page that is
      neither a 404 nor raw content and whose path matches, and it always has a branch. */
  function Locate(page: Page, settings: Settings, current: Option<Repo>, cache: map<string, string>): (r: Lookup)
    ensures !r.NotARepo? ==> !page.notFound && !page.rawContent && MatchPath(page.pathname).Some?
    ensures r.Resolved? ==> r.repo.branch != "" && r.repo.username == MatchPath(page.pathname).value.username
                            && r.repo.reponame == MatchPath(page.pathname).value.reponame
    ensures r.Resolved? ==> r.repo.pullNumber == PullNumber(MatchPath(page.pathname).value, settings)
    ensures r.Resolved? ==>
              PageBranch(page) == Guessed(r.repo.branch)
              || (PageBranch(page).NoGuess?
                  && RememberedBranch(current, r.repo.username, r.repo.reponame, cache) == Some(r.repo.branch))
    ensures r.ScriptError? ==> PageBranch(page).Thrown?
    ensures r.NeedsDefaultBranch? ==> PageBranch(page).NoGuess?
    ensures r.NeedsDefaultBranch? ==> RememberedBranch(current, r.username, r.reponame, cache).None?
    ensures r.NeedsDefaultBranch? ==>
              var m := MatchPath(page.pathname).value;
              r.username == m.username && r.reponame == m.reponame && r.pullNumber == PullNumber(m, settings)
  {
    if page.notFound || page.rawContent then NotARepo
    else match MatchPath(page.pathname)
      case None => NotARepo
      case Some(m) =>
        if m.username in ReservedUserNames || m.reponame in ReservedRepoNames then NotARepo
        else if SkipsNonCode(m, settings) then NotARepo
        else
          var pull := PullNumber(m, settings);
          match PageBranch(page)
          case Thrown => ScriptError
          case Guessed(b) => Resolved(Repo(m.username, m.reponame, b, pull))
          case NoGuess =>
            match RememberedBranch(current, m.username, m.reponame, cache)
            case Some(b) => Resolved(Repo(m.username, m.reponame, b, pull))
            case None => NeedsDefaultBranch(m.username, m.reponame, pull)
  }

  /** The answer to the project request made when no branch is known. */
  datatype ProjectReply = Project(defaultBranch: Option<string>) | ProjectError(status: int)

  /** What the caller's callback receives, or the exception that stops the lookup. */
  datatype Outcome = Skipped | ScriptFailed | FetchFailed(status: int) | Located(repo: Repo)

  datatype Resolution = Resolution(outcome: Outcome, cache: map<string, string>)

  /** The whole lookup: its outcome and the default-branch cache after it. */
  function RepoFromPath(page: Page, settings: Settings, current: Option<Repo>,
                        cache: map<string, string>, reply: ProjectReply): (r: Resolution)
    ensures r.cache != cache ==> reply.Project? && Locate(page, settings, current, cache).NeedsDefaultBranch?
    ensures r.outcome.Located? ==> r.outcome.repo.branch != ""
    ensures r.outcome.FetchFailed? ==> reply.ProjectError? && r.cache == cache
    ensures Locate(page, settings, current, cache).Resolved? ==>
              r == Resolution(Located(Locate(page, settings, current, cache).repo), cache)
    ensures Locate(page, settings, current, cache).NeedsDefaultBranch? && reply.Project? ==>
              var l := Locate(page, settings, current, cache);
              var b := if Truthy(reply.defaultBranch) then reply.defaultBranch.value else FallbackBranch;
              r == Resolution(Located(Repo(l.username, l.reponame, b, l.pullNumber)), cache[CacheKey(l.username, l.reponame) := b])
  {
    match Locate(page, settings, current, cache)
    case NotARepo => Resolution(Skipped, cache)
    case ScriptError => Resolution(ScriptFailed, cache)
    case Resolved(repo) => Resolution(Located(repo), cache)
    case NeedsDefaultBranch(u, r, pull) =>
      match reply
      case ProjectError(status) => Resolution(FetchFailed(status), cache)
      case Project(d) =>
        var b := if Truthy(d) then d.value else FallbackBranch;
        Resolution(Located(Repo(u, r, b, pull)), cache[CacheKey(u, r) := b])
  }

  /** The part of the adapter the lookup changes. */
  class GitlabAdapter {
    /** `_defaultBranch`: the default branches fetched so far, by `user/repo`. */
    var defaultBranch: map<string, string>

    constructor ()
      ensures defaultBranch == map[]
    {
      defaultBranch := map[];
    }

    /** `getRepoFromPath`; `reply` stands for the project request's answer, read only
        when that request is made. */
    method GetRepoFromPath(page: Page, settings: Settings, current: Option<Repo>, reply: ProjectReply)
      returns (outcome: Outcome)
      modifies this
      ensures Resolution(outcome, defaultBranch) == RepoFromPath(page, settings, current, old(defaultBranch), reply)
    {
      match Locate(page, settings, current, defaultBranch)
      case NotARepo =>
        outcome := Skipped;
      case ScriptError =>
        outcome := ScriptFailed;
      case Resolved(repo) =>
        outcome := Located(repo);
      case NeedsDefaultBranch(u, r, pull) =>
        match reply
        case ProjectError(status) =>
          outcome := FetchFailed(status);
        case Project(d) =>
          var branch := if Truthy(d) then d.value else FallbackBranch;
          defaultBranch := defaultBranch[CacheKey(u, r) := branch];
          outcome := Located(Repo(u, r, branch, pull));
    }
  }
}
