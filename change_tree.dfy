/** The merge-request "changed files" tree (`_getPatch`): a dictionary from path to
    entry built from the flat list of changed files, projected into tree nodes and
    sorted by path. */
module ChangeTree {
  import opened Wrappers
  import opened StringOps
  import opened SeqFacts

  /** One element of the `/pulls/<n>/files` listing. */
  datatype FileRecord = FileRecord(
    filename: string,
    status: string,
    additions: int,
    deletions: int,
    sha: string,
    blobUrl: string,
    path: string)

  /** A value of `diffMap`: a changed file, or a folder with running totals. */
  datatype DiffEntry =
    | BlobEntry(diffId: nat, action: string, additions: int, blobUrl: string,
                deletions: int, filename: string, path: string, sha: string)
    | TreeEntry(filename: string, filesChanged: int, additions: int, deletions: int)

  datatype ObjectType = Blob | Tree

  /** One element of the result, shaped like an element of a `tree` listing. */
  datatype Node = Node(patch: DiffEntry, path: string, sha: Option<string>,
                       objectType: ObjectType, url: Option<string>)

  type DiffMap = map<string, DiffEntry>

  /** The entry recorded for the file at position `index`. */
  function BlobOf(file: FileRecord, index: nat): (e: DiffEntry)
    ensures e.BlobEntry? && e.diffId == index && e.filename == file.filename && e.path == file.path
    ensures e.action == file.status && e.additions == file.additions && e.deletions == file.deletions
    ensures e.sha == file.sha && e.blobUrl == file.blobUrl
  {
    BlobEntry(index, file.status, file.additions, file.blobUrl, file.deletions,
              file.filename, file.path, file.sha)
  }

  /** The reduce callback's next accumulator: the piece, under the accumulated path
      when there is one. */
  function NextPath(path: string, curr: string): (r: string)
    ensures path == "" ==> r == curr
    ensures path != "" ==> IsFolderOf(path, r) && r[|path| + 1..] == curr
  {
    if |path| > 0 then
      assert (path + "/" + curr)[..|path|] == path && (path + "/" + curr)[|path| + 1..] == curr;
      path + "/" + curr
    else curr
  }

  /** The successive accumulators of the reduce over `parts` that starts from `path`. */
  function ReducePaths(path: string, parts: seq<string>): (paths: seq<string>)
    ensures |paths| == |parts|
    ensures path != "" && parts != [] ==> IsFolderOf(path, paths[0])
    decreases |parts|
  {
    if parts == [] then []
    else
      var next := NextPath(path, parts[0]);
      [next] + ReducePaths(next, parts[1..])
  }

  /** The folder part of a file name: its pieces but the last, joined again. For a
      nested name this is the deepest folder: no `/` follows it. */
  function FolderPath(filename: string): (folder: string)
    ensures '/' in filename ==> IsFolderOf(folder, filename)
    ensures '/' in filename ==> '/' !in filename[|folder| + 1..]
    ensures '/' !in filename ==> folder == ""
  {
    var segs := Split(filename);
    if '/' in filename then
      SplitWithSeparator(filename);
      JoinSplit(filename);
      JoinCut(segs, |segs| - 1);
      var rest := Join(segs[|segs| - 1..]);
      assert (Join(DropLast(segs)) + "/" + rest)[..|Join(DropLast(segs))|] == Join(DropLast(segs));
      assert (Join(DropLast(segs)) + "/" + rest)[|Join(DropLast(segs))|] == '/';
      assert rest == segs[|segs| - 1];
      assert (Join(DropLast(segs)) + "/" + rest)[|Join(DropLast(segs))| + 1..] == rest;
      Join(DropLast(segs))
    else
      SplitNoSeparator(filename);
      Join(DropLast(segs))
  }

  /** The folder paths the reduce visits for one file, root to leaf: one per piece
      of the folder path, so always at least one. */
  function Ancestors(filename: string): (paths: seq<string>)
    ensures |paths| == |Split(FolderPath(filename))| >= 1
  {
    ReducePaths("", Split(FolderPath(filename)))
  }

  /** One more file counted into an existing entry (`+=` and `++`). A blob entry has
      no `filesChanged`; only its additions and deletions grow. */
  function AddChange(e: DiffEntry, file: FileRecord): (r: DiffEntry)
    ensures r.filename == e.filename && (r.TreeEntry? <==> e.TreeEntry?)
    ensures r.additions == e.additions + file.additions && r.deletions == e.deletions + file.deletions
    ensures e.TreeEntry? ==> r.filesChanged == e.filesChanged + 1
    ensures e.BlobEntry? ==>
      r.BlobEntry? && r.diffId == e.diffId && r.action == e.action
      && r.blobUrl == e.blobUrl && r.path == e.path && r.sha == e.sha
  {
    match e
    case TreeEntry(name, files, adds, dels) =>
      TreeEntry(name, files + 1, adds + file.additions, dels + file.deletions)
    case BlobEntry(id, action, adds, url, dels, name, path, sha) =>
      BlobEntry(id, action, adds + file.additions, url, dels + file.deletions, name, path, sha)
  }

  /** One call of the reduce callback on `diffMap`. */
  function Bump(m: DiffMap, path: string, file: FileRecord): (r: DiffMap)
    ensures r.Keys == m.Keys + {path}
    ensures path !in m ==> r[path].TreeEntry? && r[path].filesChanged == 1
  {
    if path !in m then m[path := TreeEntry(path, 1, file.additions, file.deletions)]
    else m[path := AddChange(m[path], file)]
  }

  /** The reduce over all of one file's folder paths. */
  function BumpAll(m: DiffMap, paths: seq<string>, file: FileRecord): (r: DiffMap)
    ensures m.Keys <= r.Keys
    decreases |paths|
  {
    if paths == [] then m else BumpAll(Bump(m, paths[0], file), paths[1..], file)
  }

  /** One iteration of `res.forEach`: record the blob, then aggregate its folders. */
  function Record(m: DiffMap, file: FileRecord, index: nat): (r: DiffMap)
    ensures m.Keys <= r.Keys && file.filename in r
  {
    BumpAll(m[file.filename := BlobOf(file, index)], Ancestors(file.filename), file)
  }

  /** `diffMap` after the whole `forEach` over `files`. */
  function BuildDiffMap(files: seq<FileRecord>): (m: DiffMap)
    ensures files == [] ==> m == map[]
    ensures files != [] ==> files[|files| - 1].filename in m
    decreases |files|
  {
    if files == [] then map[]
    else
      Record(BuildDiffMap(files[..|files| - 1]), files[|files| - 1], |files| - 1)
  }

  /** The node the projection makes of one `diffMap` key. */
  function Project(path: string, e: DiffEntry): (n: Node)
    ensures n.path == path && n.patch == e && (n.objectType == Blob <==> e.BlobEntry?)
    ensures e.BlobEntry? ==> n.sha == Some(e.sha) && n.url == Some(e.blobUrl)
    ensures e.TreeEntry? ==> n.sha == None && n.url == None
  {
    match e
    case BlobEntry(_, _, _, url, _, _, _, sha) => Node(e, path, Some(sha), Blob, Some(url))
    case TreeEntry(_, _, _, _) => Node(e, path, None, Tree, None)
  }

  ghost predicate SortedByPath(s: seq<Node>)
  {
    forall i, j :: 0 <= i < j < |s| ==> !Less(s[j].path, s[i].path)
  }

  method Swap(a: array<Node>, i: int, j: int)
    requires 0 <= i < j < a.Length
    modifies a
    ensures a[..] == old(a[..])[i := old(a[j])][j := old(a[i])]
    ensures multiset(a[..]) == old(multiset(a[..]))
  {
    a[i], a[j] := a[j], a[i];
  }

  /** The sort of the nodes by path, as an insertion sort in place. */
  method SortByPath(a: array<Node>)
    modifies a
    ensures SortedByPath(a[..])
    ensures multiset(a[..]) == old(multiset(a[..]))
  {
    var i := 0;
    while i < a.Length
      invariant 0 <= i <= a.Length
      invariant forall p, q :: 0 <= p < q < i ==> !Less(a[q].path, a[p].path)
      invariant multiset(a[..]) == old(multiset(a[..]))
    {
      var j := i;
      while j > 0 && Less(a[j].path, a[j - 1].path)
        invariant 0 <= j <= i
        invariant forall p, q :: 0 <= p < q <= i && p != j && q != j ==> !Less(a[q].path, a[p].path)
        invariant forall q :: j < q <= i ==> !Less(a[q].path, a[j].path)
        invariant multiset(a[..]) == old(multiset(a[..]))
      {
        LessAsymmetric(a[j].path, a[j - 1].path);
        Swap(a, j - 1, j);
        j := j - 1;
      }
      forall p | 0 <= p < j
        ensures !Less(a[j].path, a[p].path)
      {
        if p < j - 1 {
          LessEqTransitive(a[p].path, a[j - 1].path, a[j].path);
        }
      }
      i := i + 1;
    }
    assert a[..] == a[..a.Length];
  }

  /** The reduce over one file's folder pieces, updating `diffMap` in place. */
  method AddFolders(diffMap: DiffMap, file: FileRecord) returns (m: DiffMap)
    ensures m == BumpAll(diffMap, Ancestors(file.filename), file)
  {
    m := diffMap;
    var folderPath := FolderPath(file.filename);
    var split := Split(folderPath);
    var path := "";
    var k := 0;
    while k < |split|
      invariant 0 <= k <= |split|
      invariant BumpAll(m, ReducePaths(path, split[k..]), file) == BumpAll(diffMap, Ancestors(file.filename), file)
    {
      assert split[k..][1..] == split[k + 1..];
      path := NextPath(path, split[k]);
      if path !in m {
        m := m[path := TreeEntry(path, 1, file.additions, file.deletions)];
      } else {
        m := m[path := AddChange(m[path], file)];
      }
      k := k + 1;
    }
  }

  /** The `forEach` over the response: a blob entry per file and running folder totals. */
  method CollectDiffMap(files: seq<FileRecord>) returns (diffMap: DiffMap)
    ensures diffMap == BuildDiffMap(files)
  {
    diffMap := map[];
    var index := 0;
    while index < |files|
      invariant 0 <= index <= |files|
      invariant diffMap == BuildDiffMap(files[..index])
    {
      var file := files[index];
      assert files[..index + 1][..index] == files[..index];
      diffMap := diffMap[file.filename := BlobOf(file, index)];
      diffMap := AddFolders(diffMap, file);
      index := index + 1;
    }
    assert files[..index] == files;
  }

  /** The projection of the map: one node per key, in some key order. */
  method ProjectKeys(diffMap: DiffMap) returns (nodes: seq<Node>)
    ensures forall i :: 0 <= i < |nodes| ==>
      nodes[i].path in diffMap && nodes[i] == Project(nodes[i].path, diffMap[nodes[i].path])
    ensures forall p :: p in diffMap ==> Project(p, diffMap[p]) in nodes
    ensures Distinct(nodes)
  {
    var remaining := diffMap.Keys;
    nodes := [];
    ghost var seen: seq<string> := [];
    while remaining != {}
      invariant remaining <= diffMap.Keys
      invariant forall p :: p in diffMap ==> (p in remaining <==> p !in seen)
      invariant |nodes| == |seen|
      invariant forall i :: 0 <= i < |seen| ==> seen[i] in diffMap && nodes[i] == Project(seen[i], diffMap[seen[i]])
      invariant Distinct(seen)
      decreases remaining
    {
      var fileName :| fileName in remaining;
      nodes := nodes + [Project(fileName, diffMap[fileName])];
      seen := seen + [fileName];
      remaining := remaining - {fileName};
    }
    forall i, j | 0 <= i < j < |nodes| ensures nodes[i] != nodes[j] {
      assert nodes[i].path == seen[i] && nodes[j].path == seen[j];
    }
    forall p | p in diffMap ensures Project(p, diffMap[p]) in nodes {
      var i :| 0 <= i < |seen| && seen[i] == p;
      assert nodes[i] == Project(p, diffMap[p]);
    }
  }

  /** A permutation of the projected keys is again one node per key. */
  lemma PermutedProjection(diffMap: DiffMap, nodes: seq<Node>, tree: seq<Node>)
    requires multiset(nodes) == multiset(tree)
    requires forall i :: 0 <= i < |nodes| ==>
      nodes[i].path in diffMap && nodes[i] == Project(nodes[i].path, diffMap[nodes[i].path])
    requires forall p :: p in diffMap ==> Project(p, diffMap[p]) in nodes
    requires Distinct(nodes)
    ensures forall i :: 0 <= i < |tree| ==>
      tree[i].path in diffMap && tree[i] == Project(tree[i].path, diffMap[tree[i].path])
    ensures forall p :: p in diffMap ==> Project(p, diffMap[p]) in tree
    ensures Distinct(tree)
  {
    PermutationDistinct(nodes, tree);
    forall i | 0 <= i < |tree|
      ensures tree[i].path in diffMap && tree[i] == Project(tree[i].path, diffMap[tree[i].path])
    {
      assert tree[i] in multiset(nodes);
    }
    forall p | p in diffMap ensures Project(p, diffMap[p]) in tree {
      assert Project(p, diffMap[p]) in multiset(tree);
    }
  }

  /** Sorted with no repeated path means strictly increasing. */
  lemma SortedDistinctIsStrict(tree: seq<Node>)
    requires SortedByPath(tree)
    requires forall i, j :: 0 <= i < j < |tree| ==> tree[i].path != tree[j].path
    ensures forall i, j :: 0 <= i < j < |tree| ==> Less(tree[i].path, tree[j].path)
  {
    forall i, j | 0 <= i < j < |tree| ensures Less(tree[i].path, tree[j].path) {
      LessTotal(tree[i].path, tree[j].path);
    }
  }

  /** Distinct nodes, each the projection of its own key, have distinct paths. */
  lemma ProjectedPathsDistinct(diffMap: DiffMap, tree: seq<Node>)
    requires forall i :: 0 <= i < |tree| ==>
      tree[i].path in diffMap && tree[i] == Project(tree[i].path, diffMap[tree[i].path])
    requires Distinct(tree)
    ensures forall i, j :: 0 <= i < j < |tree| ==> tree[i].path != tree[j].path
  {
    forall i, j | 0 <= i < j < |tree| ensures tree[i].path != tree[j].path {
      assert tree[i] != tree[j];
    }
  }

  /** In a strictly increasing sequence a proper prefix comes first. */
  lemma StrictPutsPrefixFirst(tree: seq<Node>)
    requires forall i, j :: 0 <= i < j < |tree| ==> Less(tree[i].path, tree[j].path)
    ensures forall i, j ::
      (0 <= i < |tree| && 0 <= j < |tree| && IsProperPrefix(tree[i].path, tree[j].path)) ==> i < j
  {
    forall i, j | 0 <= i < |tree| && 0 <= j < |tree| && IsProperPrefix(tree[i].path, tree[j].path)
      ensures i < j
    {
      PrefixFirst(tree[i].path, tree[j].path);
      LessAsymmetric(tree[i].path, tree[j].path);
    }
  }

  /** The nodes copied into a fresh array and sorted there, as `sort` does in place. */
  method SortNodes(nodes: seq<Node>) returns (tree: seq<Node>)
    ensures SortedByPath(tree)
    ensures multiset(tree) == multiset(nodes)
  {
    var a := new Node[|nodes|](i requires 0 <= i < |nodes| => nodes[i]);
    assert a[..] == nodes;
    SortByPath(a);
    tree := a[..];
  }

  /** The sorted permutation of the projected keys is strictly ordered by path, one
      node per key. */
  lemma SortedProjection(diffMap: DiffMap, nodes: seq<Node>, tree: seq<Node>)
    requires multiset(nodes) == multiset(tree) && SortedByPath(tree)
    requires forall i :: 0 <= i < |nodes| ==>
      nodes[i].path in diffMap && nodes[i] == Project(nodes[i].path, diffMap[nodes[i].path])
    requires forall p :: p in diffMap ==> Project(p, diffMap[p]) in nodes
    requires Distinct(nodes)
    ensures forall i :: 0 <= i < |tree| ==>
      tree[i].path in diffMap && tree[i] == Project(tree[i].path, diffMap[tree[i].path])
    ensures forall p :: p in diffMap ==> Project(p, diffMap[p]) in tree
    ensures forall i, j :: 0 <= i < j < |tree| ==> Less(tree[i].path, tree[j].path)
    ensures forall i, j :: 0 <= i < j < |tree| ==> tree[i].path != tree[j].path
    ensures forall i, j ::
      (0 <= i < |tree| && 0 <= j < |tree| && IsProperPrefix(tree[i].path, tree[j].path)) ==> i < j
  {
    PermutedProjection(diffMap, nodes, tree);
    ProjectedPathsDistinct(diffMap, tree);
    SortedDistinctIsStrict(tree);
    StrictPutsPrefixFirst(tree);
  }

  /** `_getPatch` on a successful response: the nodes of `diffMap`, one per key,
      sorted by path so that every folder precedes what lies beneath it. */
  method GetPatch(files: seq<FileRecord>) returns (tree: seq<Node>)
    ensures forall i :: 0 <= i < |tree| ==>
      tree[i].path in BuildDiffMap(files) &&
      tree[i] == Project(tree[i].path, BuildDiffMap(files)[tree[i].path])
    ensures forall p :: p in BuildDiffMap(files) ==> Project(p, BuildDiffMap(files)[p]) in tree
    ensures forall i, j :: 0 <= i < j < |tree| ==> Less(tree[i].path, tree[j].path)
    ensures forall i, j :: 0 <= i < j < |tree| ==> tree[i].path != tree[j].path
    ensures forall i, j ::
      (0 <= i < |tree| && 0 <= j < |tree| && IsProperPrefix(tree[i].path, tree[j].path)) ==> i < j
  {
    var diffMap := CollectDiffMap(files);
    var nodes := ProjectKeys(diffMap);
    tree := SortNodes(nodes);
    SortedProjection(diffMap, nodes, tree);
  }
}
