/** How a code tree is requested: the path `loadCodeTree` builds, the route `_getTree`
    takes, and the API URL `_get` sends each request to. */
module TreeRequests {
  import opened Wrappers
  import opened RepoPath

  /** The node whose children are loaded; no node loads the whole tree. */
  datatype TreeNode = TreeNode(sha: Option<string>)

  const RecursiveSuffix := "&recursive=true&per_page=100"

  /** `opts.path` of `loadCodeTree`: the node's sha, else the encoded branch, and for
      the whole tree (or an empty branch) the recursive listing of the branch. */
  function TreePath(node: Option<TreeNode>, encodedBranch: string): (path: string)
    ensures path != ""
    ensures node.Some? && Truthy(node.value.sha) ==> path == node.value.sha.value
    ensures node.Some? && !Truthy(node.value.sha) && encodedBranch != "" ==> path == encodedBranch
    ensures node.None? || (!Truthy(node.value.sha) && encodedBranch == "") ==>
              path == "?ref=" + encodedBranch + RecursiveSuffix
    ensures node.None? ==>
              |RecursiveSuffix| < |path| && path[|path| - |RecursiveSuffix|..] == RecursiveSuffix
  {
    if node.Some? && Truthy(node.value.sha) then node.value.sha.value
    else if node.Some? && encodedBranch != "" then encodedBranch
    else "?ref=" + encodedBranch + RecursiveSuffix
  }

  /** The request `_getTree` makes: the changed files of the merge request when there
      is one, else the tree listing at `path`. */
  datatype TreeRoute = PatchFiles(apiPath: string) | TreeListing(apiPath: string)

  function GetTree(path: string, repo: Repo): (r: TreeRoute)
    ensures r.PatchFiles? <==> Truthy(repo.pullNumber)
    ensures r.PatchFiles? ==> "/pulls/" <= r.apiPath
    ensures r.PatchFiles? ==> r.apiPath == "/pulls/" + repo.pullNumber.value + "/files?per_page=300"
    ensures r.TreeListing? ==> r.apiPath == "/repository/tree/" + path
    ensures r.TreeListing? ==> |path| < |r.apiPath| && r.apiPath[|r.apiPath| - |path|..] == path
  {
    if Truthy(repo.pullNumber) then PatchFiles("/pulls/" + repo.pullNumber.value + "/files?per_page=300")
    else TreeListing("/repository/tree/" + path)
  }

  /** The scheme and host of the page's own location. */
  datatype Origin = Origin(protocol: string, host: string)

  const ProjectsPrefix := "/api/v4/projects/"

  /** The URL of `_get`: the project id is `username%2Freponame`, then the path, if any. */
  function ApiUrl(origin: Origin, username: string, reponame: string, path: Option<string>): (url: string)
    ensures origin.protocol + "//" + origin.host + ProjectsPrefix <= url
    ensures path.Some? ==> |path.value| <= |url| && url[|url| - |path.value|..] == path.value
    ensures path.None? ==> |reponame| < |url| && url[|url| - |reponame|..] == reponame
  {
    origin.protocol + "//" + origin.host + ProjectsPrefix + username + "%2F" + reponame
      + (if path.Some? then path.value else "")
  }
}
