/** What the page lookup and the tree requests promise. */
module RepoPathProps {
  import opened Wrappers
  import opened StringOps
  import opened RepoPath
  import opened TreeRequests
  import PagedFetch

  lemma SplitOfPath(ys: seq<string>)
    requires |ys| >= 1 && forall i :: 0 <= i < |ys| ==> '/' !in ys[i]
    ensures Split("/" + Join(ys)) == [""] + ys
  {
    var xs := [""] + ys;
    JoinCut(xs, 1);
    assert xs[..1] == [""] && xs[1..] == ys;
    assert forall i :: 0 <= i < |xs| ==> '/' !in xs[i];
    SplitJoin(xs);
  }

  /** A path `/user/repo[/type[/id]]...` built from its segments yields its own user
      and repository, and the type and id when those segments are present. */
  lemma PathRoundTrip(segs: seq<string>)
    requires |segs| >= 2 && segs[0] != "" && segs[1] != ""
    requires forall i :: 0 <= i < |segs| ==> '/' !in segs[i]
    ensures MatchPath("/" + Join(segs)).Some?
    ensures var m := MatchPath("/" + Join(segs)).value;
      m.username == segs[0] && m.reponame == segs[1]
      && m.pageType == (if |segs| > 2 && segs[2] != "" then Some(segs[2]) else None)
      && m.typeId == (if m.pageType.Some? && |segs| > 3 && segs[3] != "" then Some(segs[3]) else None)
  {
    SplitOfPath(segs);
    var xs := [""] + segs;
    assert xs[1..] == segs;
    assert MatchSegments(xs) == MatchSegments(segs);
  }

  /** A reserved user or repository name is never taken for a repository. */
  lemma ReservedNeverRepo(page: Page, settings: Settings, current: Option<Repo>,
                          cache: map<string, string>, reply: ProjectReply)
    requires MatchPath(page.pathname).Some?
    requires MatchPath(page.pathname).value.username in ReservedUserNames
             || MatchPath(page.pathname).value.reponame in ReservedRepoNames
    ensures RepoFromPath(page, settings, current, cache, reply) == Resolution(Skipped, cache)
  {
  }

  /** A lookup that gets past the page checks is skipped exactly for the non-code pages
      it is told to skip. */
  lemma NonCodeSkipped(page: Page, settings: Settings, current: Option<Repo>,
                       cache: map<string, string>, reply: ProjectReply)
    requires !page.notFound && !page.rawContent && MatchPath(page.pathname).Some?
    requires MatchPath(page.pathname).value.username !in ReservedUserNames
    requires MatchPath(page.pathname).value.reponame !in ReservedRepoNames
    ensures RepoFromPath(page, settings, current, cache, reply).outcome.Skipped?
            <==> SkipsNonCode(MatchPath(page.pathname).value, settings)
  {
  }

  /** A located repository takes its names from the match of the path, they are not
      reserved, its branch is non-empty, and its pull number is the one the match gives. */
  lemma LocatedFromMatch(page: Page, settings: Settings, current: Option<Repo>,
                         cache: map<string, string>, reply: ProjectReply)
    requires RepoFromPath(page, settings, current, cache, reply).outcome.Located?
    ensures var repo := RepoFromPath(page, settings, current, cache, reply).outcome.repo;
      MatchPath(page.pathname).Some?
      && var m := MatchPath(page.pathname).value;
      repo.username == m.username && repo.reponame == m.reponame
      && repo.username !in ReservedUserNames && repo.reponame !in ReservedRepoNames
      && repo.branch != "" && repo.pullNumber == PullNumber(m, settings)
  {
  }

  /** A located repository comes from the matched path, has a branch, and carries a
      pull-request number exactly on pull pages when changed files are wanted. */
  lemma LocatedRepo(page: Page, settings: Settings, current: Option<Repo>,
                    cache: map<string, string>, reply: ProjectReply)
    requires RepoFromPath(page, settings, current, cache, reply).outcome.Located?
    ensures var repo := RepoFromPath(page, settings, current, cache, reply).outcome.repo;
      MatchPath(page.pathname).Some?
      && var m := MatchPath(page.pathname).value;
      repo.username == m.username && repo.reponame == m.reponame
      && repo.username !in ReservedUserNames && repo.reponame !in ReservedRepoNames
      && repo.branch != ""
      && (Truthy(repo.pullNumber) <==> m.pageType == Some("pull") && settings.showOnlyChangedInPr && m.typeId.Some?)
      && (repo.pullNumber.Some? ==> repo.pullNumber == m.typeId)
  {
    LocatedFromMatch(page, settings, current, cache, reply);
  }

  /** A branch found on the page wins over everything remembered, and then nothing
      is fetched. */
  lemma PageBranchWins(page: Page, settings: Settings, c1: Option<Repo>, k1: map<string, string>,
                       r1: ProjectReply, c2: Option<Repo>, k2: map<string, string>, r2: ProjectReply)
    requires PageBranch(page).Guessed?
    ensures RepoFromPath(page, settings, c1, k1, r1).outcome == RepoFromPath(page, settings, c2, k2, r2).outcome
    ensures RepoFromPath(page, settings, c1, k1, r1).cache == k1
  {
  }

  /** Past the page checks, the branch comes from the first source that has one: the
      page itself, then the current repository or the cache, then the project request's
      default branch, or `master` when that is empty. */
  lemma BranchFallbackOrder(page: Page, settings: Settings, current: Option<Repo>,
                            cache: map<string, string>, reply: ProjectReply)
    requires !page.notFound && !page.rawContent && MatchPath(page.pathname).Some?
    requires MatchPath(page.pathname).value.username !in ReservedUserNames
    requires MatchPath(page.pathname).value.reponame !in ReservedRepoNames
    requires !SkipsNonCode(MatchPath(page.pathname).value, settings)
    ensures var m := MatchPath(page.pathname).value;
      var outcome := RepoFromPath(page, settings, current, cache, reply).outcome;
      (PageBranch(page).Guessed? ==>
         outcome == Located(Repo(m.username, m.reponame, PageBranch(page).name, PullNumber(m, settings))))
      && (PageBranch(page).NoGuess? && RememberedBranch(current, m.username, m.reponame, cache).Some? ==>
         outcome == Located(Repo(m.username, m.reponame, RememberedBranch(current, m.username, m.reponame, cache).value,
                                 PullNumber(m, settings))))
      && (PageBranch(page).NoGuess? && RememberedBranch(current, m.username, m.reponame, cache).None?
          && reply.Project? ==>
         outcome == Located(Repo(m.username, m.reponame,
                                 if Truthy(reply.defaultBranch) then reply.defaultBranch.value else FallbackBranch,
                                 PullNumber(m, settings))))
      && (PageBranch(page).Thrown? ==> outcome == ScriptFailed)
  {
  }

  /** The cache changes only by the default branch of the repository just looked up. */
  lemma CacheGrowsByOne(page: Page, settings: Settings, current: Option<Repo>,
                        cache: map<string, string>, reply: ProjectReply)
    ensures var res := RepoFromPath(page, settings, current, cache, reply);
      res.cache == cache
      || (res.outcome.Located? && res.outcome.repo.branch != ""
          && res.cache == cache[CacheKey(res.outcome.repo.username, res.outcome.repo.reponame) := res.outcome.repo.branch])
  {
  }

  /** A failed project request reports its status and caches nothing. */
  lemma FetchFailureReported(page: Page, settings: Settings, current: Option<Repo>,
                             cache: map<string, string>, status: int)
    requires Locate(page, settings, current, cache).NeedsDefaultBranch?
    ensures RepoFromPath(page, settings, current, cache, ProjectError(status)) == Resolution(FetchFailed(status), cache)
  {
  }

  /** Once the default branch is fetched, the same page is looked up again without the
      network, to the same repository. */
  lemma SecondLookupUsesCache(page: Page, settings: Settings, current: Option<Repo>,
                              cache: map<string, string>, reply: ProjectReply, later: ProjectReply)
    requires Locate(page, settings, current, cache).NeedsDefaultBranch?
    requires reply.Project?
    ensures var first := RepoFromPath(page, settings, current, cache, reply);
      Locate(page, settings, current, first.cache) == Resolved(first.outcome.repo)
      && RepoFromPath(page, settings, current, first.cache, later) == first
  {
    var m := MatchPath(page.pathname).value;
    var first := RepoFromPath(page, settings, current, cache, reply);
    assert first.cache[CacheKey(m.username, m.reponame)] == first.outcome.repo.branch;
  }

  /** One more separator-free segment at the end adds one piece to the split. */
  lemma SplitAppendSegment(a: string, x: string)
    requires '/' !in x
    ensures Split(a + "/" + x) == Split(a) + [x]
  {
    SplitAround(a, x);
    SplitNoSeparator(x);
  }

  lemma LinkSegments(g: string, p: string, t: string, b: string)
    requires '/' !in g && '/' !in p && '/' !in t && '/' !in b
    ensures Split("/" + g + "/" + p + "/" + t + "/" + b) == ["", g, p, t, b]
  {
    var s1 := "/" + g;
    assert Split(s1) == ["", g] by {
      assert s1 == "" + "/" + g;
      SplitAppendSegment("", g);
    }
    var s2 := s1 + "/" + p;
    assert Split(s2) == ["", g, p] by {
      SplitAppendSegment(s1, p);
    }
    var s3 := s2 + "/" + t;
    assert Split(s3) == ["", g, p, t] by {
      SplitAppendSegment(s2, t);
    }
    assert Split(s3 + "/" + b) == ["", g, p, t, b] by {
      SplitAppendSegment(s3, b);
    }
  }

  lemma NonEmptyOfLink(g: string, p: string, t: string, b: string)
    requires g != "" && p != "" && t != "" && b != ""
    requires '/' !in g && '/' !in p && '/' !in t && '/' !in b
    ensures NonEmpty(["", g, p, t, b]) == [g, p, t, b]
  {
    assert ["", g, p, t, b][1..] == [g, p, t, b];
  }

  /** The tree shortcut link `/group/project/tree/branch` gives its fourth maximal run of
      non-`/` characters (index 3 of the global match). */
  lemma TreeLinkBranch(notFound: bool, raw: bool, pathname: string, g: string, p: string, t: string, b: string)
    requires g != "" && p != "" && t != "" && b != ""
    requires '/' !in g && '/' !in p && '/' !in t && '/' !in b
    ensures PageBranch(Page(notFound, raw, pathname, None, "", Some("/" + g + "/" + p + "/" + t + "/" + b)))
            == Guessed(b)
  {
    LinkSegments(g, p, t, b);
    NonEmptyOfLink(g, p, t, b);
  }

  /** A tree link of slashes only: `match` gives `null`, and reading index 3 of it throws. */
  lemma SlashOnlyLinkThrows(notFound: bool, raw: bool, pathname: string)
    ensures PageBranch(Page(notFound, raw, pathname, None, "", Some("/"))) == Thrown
  {
    assert "/" == "" + "/" + "";
    SplitAround("", "");
  }

  /** Neither the merge-request files nor a tree listing is a `/git/trees` request, so
      no tree request is ever checked for truncation. */
  lemma TreeRequestsNotTruncationChecked(path: string, repo: Repo)
    ensures !PagedFetch.IsTreesPath(Some(GetTree(path, repo).apiPath))
  {
    var p := GetTree(path, repo).apiPath;
    assert p[1] != 'g';
  }

  /** On a located repository the tree is read from the merge request exactly on pull
      pages with changed files wanted. */
  lemma PullPagesLoadPatch(page: Page, settings: Settings, current: Option<Repo>,
                           cache: map<string, string>, reply: ProjectReply, path: string)
    requires RepoFromPath(page, settings, current, cache, reply).outcome.Located?
    ensures MatchPath(page.pathname).Some?
    ensures var m := MatchPath(page.pathname).value;
      GetTree(path, RepoFromPath(page, settings, current, cache, reply).outcome.repo).PatchFiles?
      <==> m.pageType == Some("pull") && settings.showOnlyChangedInPr && m.typeId.Some?
  {
    LocatedRepo(page, settings, current, cache, reply);
  }

  /** `a1 + b1 == a2 + b2`, both `a`s free of `c` and both `b`s empty or starting with it:
      the cut falls at the same place. */
  lemma CutAtMarker(c: char, a1: string, b1: string, a2: string, b2: string)
    requires c !in a1 && c !in a2
    requires b1 == "" || b1[0] == c
    requires b2 == "" || b2[0] == c
    requires a1 + b1 == a2 + b2
    ensures a1 == a2 && b1 == b2
  {
    assert a1 == (a1 + b1)[..|a1|];
    assert a2 == (a2 + b2)[..|a2|];
  }

  /** The URL is the fixed head followed by the project id and the path. */
  lemma ApiUrlShape(origin: Origin, u: string, r: string, p: Option<string>)
    ensures ApiUrl(origin, u, r, p)
            == (origin.protocol + "//" + origin.host + ProjectsPrefix) + (u + ("%2F" + r + (if p.Some? then p.value else "")))
  {
  }

  /** A common head can be cut off both sides of an equation. */
  lemma DropHead(head: string, x: string, y: string)
    requires head + x == head + y
    ensures x == y
  {
    assert x == (head + x)[|head|..];
    assert y == (head + y)[|head|..];
  }

  /** Requests for two different repositories never share an API URL. */
  lemma ApiUrlSeparatesRepos(origin: Origin, u1: string, r1: string, p1: Option<string>,
                             u2: string, r2: string, p2: Option<string>)
    requires '%' !in u1 && '%' !in u2 && '/' !in r1 && '/' !in r2
    requires p1.Some? ==> p1.value == "" || p1.value[0] == '/'
    requires p2.Some? ==> p2.value == "" || p2.value[0] == '/'
    requires ApiUrl(origin, u1, r1, p1) == ApiUrl(origin, u2, r2, p2)
    ensures u1 == u2 && r1 == r2
    ensures (if p1.Some? then p1.value else "") == (if p2.Some? then p2.value else "")
  {
    var t1 := if p1.Some? then p1.value else "";
    var t2 := if p2.Some? then p2.value else "";
    ApiUrlShape(origin, u1, r1, p1);
    ApiUrlShape(origin, u2, r2, p2);
    ProjectIdsSeparate(origin.protocol + "//" + origin.host + ProjectsPrefix, u1, r1, t1, u2, r2, t2);
  }

  /** After a common head, `user%2Frepo` and a path that is empty or starts with `/`
      give back user, repository and path. */
  lemma ProjectIdsSeparate(head: string, u1: string, r1: string, t1: string,
                           u2: string, r2: string, t2: string)
    requires '%' !in u1 && '%' !in u2 && '/' !in r1 && '/' !in r2
    requires t1 == "" || t1[0] == '/'
    requires t2 == "" || t2[0] == '/'
    requires head + (u1 + ("%2F" + r1 + t1)) == head + (u2 + ("%2F" + r2 + t2))
    ensures u1 == u2 && r1 == r2 && t1 == t2
  {
    DropHead(head, u1 + ("%2F" + r1 + t1), u2 + ("%2F" + r2 + t2));
    CutAtMarker('%', u1, "%2F" + r1 + t1, u2, "%2F" + r2 + t2);
    assert "%2F" + r1 + t1 == "%2F" + (r1 + t1) && "%2F" + r2 + t2 == "%2F" + (r2 + t2);
    DropHead("%2F", r1 + t1, r2 + t2);
    CutAtMarker('/', r1, t1, r2, t2);
  }
}
