/** What the change tree promises: which folders a file counts into, the blob
    entries, and the folder totals. */
module ChangeTreeProps {
  import opened StringOps
  import opened SeqFacts
  import opened ChangeTree

  /** The file name does not start with a separator (GitLab reports repository-relative
      paths, so every real file name has this shape). */
  predicate NoLeadingSlash(filename: string)
  {
    filename == "" || filename[0] != '/'
  }

  /** The folder `dir` is one the file counts into: a folder on its path, or the
      empty path for a file at the repository root. */
  predicate Under(dir: string, filename: string)
  {
    if '/' in filename then IsFolderOf(dir, filename) else dir == ""
  }

  /** A root-level file contributes only to the entry at the empty path. */
  lemma RootLevelAncestors(filename: string)
    requires '/' !in filename
    ensures Ancestors(filename) == [""]
  {
    SplitNoSeparator(filename);
    assert DropLast([filename]) == [];
  }

  /** Once the accumulator is non-empty, each step appends `"/" + piece`. */
  lemma {:induction false} ReduceFromNonEmpty(acc: string, xs: seq<string>, k: nat)
    requires |acc| > 0 && k < |xs|
    ensures ReducePaths(acc, xs)[k] == acc + "/" + Join(xs[..k + 1])
    decreases k
  {
    if k == 0 {
      ReduceNonEmptyFirst(acc, xs);
    } else {
      ReduceFromNonEmpty(acc + "/" + xs[0], xs[1..], k - 1);
      ReduceNonEmptyStep(acc, xs, k);
    }
  }

  lemma ReduceNonEmptyFirst(acc: string, xs: seq<string>)
    requires |acc| > 0 && xs != []
    ensures ReducePaths(acc, xs)[0] == acc + "/" + Join(xs[..1])
  {
    assert xs[..1] == [xs[0]];
    assert ReducePaths(acc, xs)[0] == NextPath(acc, xs[0]);
  }

  /** The inductive step: path `k` of the reduce is path `k - 1` of the reduce that
      starts one piece later. */
  lemma ReduceNonEmptyStep(acc: string, xs: seq<string>, k: nat)
    requires |acc| > 0 && 0 < k < |xs|
    requires ReducePaths(acc + "/" + xs[0], xs[1..])[k - 1]
             == acc + "/" + xs[0] + "/" + Join(xs[1..][..k - 1 + 1])
    ensures ReducePaths(acc, xs)[k] == acc + "/" + Join(xs[..k + 1])
  {
    var next := acc + "/" + xs[0];
    var tail := Join(xs[1..][..k]);
    assert xs[1..][..k - 1 + 1] == xs[1..][..k];
    assert ReducePaths(acc, xs)[k] == ReducePaths(next, xs[1..])[k - 1];
    JoinHead(xs[..k + 1]);
    TakeThenDrop(xs, k);
    AppendAssoc(acc + "/", xs[0], "/");
    AppendAssoc(acc + "/", xs[0] + "/", tail);
  }

  /** For a nested file the reduce runs over the pieces of its name but the last. */
  lemma AncestorsNested(filename: string)
    requires '/' in filename
    ensures Ancestors(filename) == ReducePaths("", DropLast(Split(filename)))
  {
    var segs := Split(filename);
    SplitWithSeparator(filename);
    var xs := DropLast(segs);
    forall i | 0 <= i < |xs|
      ensures '/' !in xs[i]
    {
      assert xs[i] == segs[i];
    }
    SplitJoin(xs);
    assert FolderPath(filename) == Join(xs);
  }

  /** From the empty path the reduce first visits the first piece, and then goes on
      from there. */
  lemma ReduceFirstStep(xs: seq<string>)
    requires xs != [] && xs[0] != ""
    ensures ReducePaths("", xs) == [xs[0]] + ReducePaths(xs[0], xs[1..])
  {
    assert NextPath("", xs[0]) == xs[0];
  }

  /** From the empty path, the `k`-th path of the reduce is the first `k + 1` pieces
      joined, as long as the first piece is non-empty. */
  lemma ReduceFromEmpty(xs: seq<string>, k: nat)
    requires k < |xs| && xs[0] != ""
    ensures ReducePaths("", xs)[k] == Join(xs[..k + 1])
  {
    ReduceFirstStep(xs);
    if k == 0 {
      assert xs[..k + 1] == [xs[0]];
    } else {
      ReduceBeyondFirst(xs, k);
    }
  }

  lemma ReduceBeyondFirst(xs: seq<string>, k: nat)
    requires 0 < k < |xs| && xs[0] != ""
    requires ReducePaths("", xs) == [xs[0]] + ReducePaths(xs[0], xs[1..])
    ensures ReducePaths("", xs)[k] == Join(xs[..k + 1])
  {
    var rest := ReducePaths(xs[0], xs[1..]);
    var head := xs[..k + 1];
    ReduceFromNonEmpty(xs[0], xs[1..], k - 1);
    JoinHead(head);
    TakeThenDrop(xs, k);
    assert ReducePaths("", xs)[k] == rest[k - 1];
  }

  /** The `k`-th folder visited is the join of the first `k + 1` pieces. */
  lemma AncestorAt(filename: string, k: nat)
    requires '/' in filename && filename[0] != '/'
    requires k < |Split(filename)| - 1
    ensures |Ancestors(filename)| == |Split(filename)| - 1
    ensures Ancestors(filename)[k] == Join(Split(filename)[..k + 1])
  {
    var segs := Split(filename);
    SplitWithSeparator(filename);
    var xs := DropLast(segs);
    AncestorsNested(filename);
    FirstPieceNonEmpty(filename);
    assert xs[0] == segs[0];
    ReduceFromEmpty(xs, k);
    assert xs[..k + 1] == segs[..k + 1];
  }

  /** A name followed by a separator is a folder of what comes after. */
  lemma FolderOfJoined(dir: string, rest: string)
    ensures IsFolderOf(dir, dir + "/" + rest)
  {
    assert (dir + "/" + rest)[..|dir|] == dir;
    assert (dir + "/" + rest)[|dir|] == '/';
  }

  /** Every folder a nested file visits is a folder on its path. */
  lemma NestedAncestorsAreFolders(filename: string, dir: string)
    requires '/' in filename && filename[0] != '/'
    requires dir in Ancestors(filename)
    ensures IsFolderOf(dir, filename)
  {
    var segs := Split(filename);
    SplitWithSeparator(filename);
    AncestorAt(filename, 0);
    var k :| 0 <= k < |Ancestors(filename)| && Ancestors(filename)[k] == dir;
    AncestorAt(filename, k);
    assert filename == dir + "/" + Join(segs[k + 1..]) by {
      JoinSplit(filename);
      JoinCut(segs, k + 1);
    }
    FolderOfJoined(dir, Join(segs[k + 1..]));
  }

  /** Every folder on the path of a nested file is visited. */
  lemma FoldersAreNestedAncestors(filename: string, dir: string)
    requires '/' in filename && filename[0] != '/'
    requires IsFolderOf(dir, filename)
    ensures dir in Ancestors(filename)
  {
    var segs := Split(filename);
    var rest := filename[|dir| + 1..];
    assert filename == dir + "/" + rest;
    SplitAround(dir, rest);
    var m := |Split(dir)|;
    assert segs[..m] == Split(dir);
    JoinSplit(dir);
    AncestorAt(filename, m - 1);
  }

  /** For a nested file, the folders visited are exactly the folders on its path. */
  lemma NestedAncestors(filename: string, dir: string)
    requires '/' in filename && filename[0] != '/'
    ensures dir in Ancestors(filename) <==> IsFolderOf(dir, filename)
  {
    if dir in Ancestors(filename) {
      NestedAncestorsAreFolders(filename, dir);
    }
    if IsFolderOf(dir, filename) {
      FoldersAreNestedAncestors(filename, dir);
    }
  }

  /** A nested file visits each folder once. */
  lemma NestedAncestorsDistinct(filename: string)
    requires '/' in filename && filename[0] != '/'
    ensures Distinct(Ancestors(filename))
  {
    var segs := Split(filename);
    SplitWithSeparator(filename);
    AncestorAt(filename, 0);
    forall i, j | 0 <= i < j < |Ancestors(filename)|
      ensures Ancestors(filename)[i] != Ancestors(filename)[j]
    {
      AncestorAt(filename, i);
      AncestorAt(filename, j);
      SplitJoin(segs[..i + 1]);
      SplitJoin(segs[..j + 1]);
    }
  }

  /** The folders one file counts into, each once: those it lies under. */
  lemma AncestorsUnder(filename: string, dir: string)
    requires NoLeadingSlash(filename)
    ensures Distinct(Ancestors(filename))
    ensures dir in Ancestors(filename) <==> Under(dir, filename)
  {
    if '/' in filename {
      NestedAncestors(filename, dir);
      NestedAncestorsDistinct(filename);
    } else {
      RootLevelAncestors(filename);
    }
  }

  /** The entry at `path`, an empty folder entry when there is none yet. */
  function Lookup(m: DiffMap, path: string): DiffEntry
  {
    if path in m then m[path] else TreeEntry(path, 0, 0, 0)
  }

  /** Aggregating over folders that do not include `path` leaves its entry alone. */
  lemma {:induction false} BumpAllOutside(m: DiffMap, paths: seq<string>, file: FileRecord, path: string)
    requires path !in paths
    ensures path in BumpAll(m, paths, file) <==> path in m
    ensures Lookup(BumpAll(m, paths, file), path) == Lookup(m, path)
    decreases |paths|
  {
    if paths != [] {
      BumpAllOutside(Bump(m, paths[0], file), paths[1..], file, path);
    }
  }

  /** Aggregating over folders that include `path` once counts the file into it once. */
  lemma {:induction false} BumpAllInside(m: DiffMap, paths: seq<string>, file: FileRecord, path: string)
    requires Distinct(paths) && path in paths
    ensures path in BumpAll(m, paths, file)
    ensures Lookup(BumpAll(m, paths, file), path) == AddChange(Lookup(m, path), file)
    decreases |paths|
  {
    assert Distinct(paths[1..]);
    if paths[0] == path {
      assert path !in paths[1..];
      BumpAllOutside(Bump(m, path, file), paths[1..], file, path);
    } else {
      BumpAllInside(Bump(m, paths[0], file), paths[1..], file, path);
    }
  }

  /** Change totals of a folder. */
  datatype Totals = Totals(filesChanged: int, additions: int, deletions: int)

  /** The count, additions and deletions of the files that lie under `dir`, one
      contribution per record (a repeated file name counts each time). */
  function TotalsUnder(files: seq<FileRecord>, dir: string): Totals
    decreases |files|
  {
    if files == [] then Totals(0, 0, 0)
    else
      var t := TotalsUnder(files[..|files| - 1], dir);
      var file := files[|files| - 1];
      if Under(dir, file.filename)
      then Totals(t.filesChanged + 1, t.additions + file.additions, t.deletions + file.deletions)
      else t
  }

  /** Each folder entry holds the number of files under it and the sums of their
      additions and deletions; a folder entry exists exactly when some file lies under
      it. `dir` must not itself be reported as a file. */
  lemma {:induction false} FolderTotals(files: seq<FileRecord>, dir: string)
    requires forall i :: 0 <= i < |files| ==> NoLeadingSlash(files[i].filename)
    requires forall i :: 0 <= i < |files| ==> files[i].filename != dir
    ensures dir in BuildDiffMap(files) <==> TotalsUnder(files, dir).filesChanged > 0
    ensures Lookup(BuildDiffMap(files), dir) ==
      TreeEntry(dir, TotalsUnder(files, dir).filesChanged,
                TotalsUnder(files, dir).additions, TotalsUnder(files, dir).deletions)
    decreases |files|
  {
    if files != [] {
      var n := |files| - 1;
      var init, file := files[..n], files[n];
      FolderTotals(init, dir);
      var m1 := BuildDiffMap(init)[file.filename := BlobOf(file, n)];
      assert Lookup(m1, dir) == Lookup(BuildDiffMap(init), dir);
      AncestorsUnder(file.filename, dir);
      if Under(dir, file.filename) {
        BumpAllInside(m1, Ancestors(file.filename), file, dir);
      } else {
        BumpAllOutside(m1, Ancestors(file.filename), file, dir);
      }
    }
  }

  /** The blob entry of a file is the one its last record wrote, with `diffId` its
      position, as long as no later record reuses the name and no record from it on
      counts into a folder of that name. */
  lemma {:induction false} FileEntry(files: seq<FileRecord>, i: nat)
    requires i < |files|
    requires forall j :: i < j < |files| ==> files[j].filename != files[i].filename
    requires forall j :: i <= j < |files| ==> files[i].filename !in Ancestors(files[j].filename)
    ensures files[i].filename in BuildDiffMap(files)
    ensures BuildDiffMap(files)[files[i].filename] == BlobOf(files[i], i)
    decreases |files|
  {
    var n := |files| - 1;
    var init, file := files[..n], files[n];
    var name := files[i].filename;
    if i < n {
      forall j | i < j < |init|
        ensures init[j].filename != init[i].filename
      {
        assert init[j] == files[j];
      }
      forall j | i <= j < |init|
        ensures init[i].filename !in Ancestors(init[j].filename)
      {
        assert init[j] == files[j];
      }
      FileEntry(init, i);
    }
    assert name !in Ancestors(file.filename);
    RecordKeeps(BuildDiffMap(init), file, n, name, BlobOf(files[i], i));
    assert BuildDiffMap(files) == Record(BuildDiffMap(init), file, n);
  }

  /** One record keeps an entry that is not in its folders: its own blob entry, or
      under another name the entry that was there. */
  lemma RecordKeeps(m: DiffMap, file: FileRecord, n: nat, name: string, e: DiffEntry)
    requires name !in Ancestors(file.filename)
    requires if name == file.filename then e == BlobOf(file, n) else name in m && m[name] == e
    ensures name in Record(m, file, n) && Record(m, file, n)[name] == e
  {
    var m1 := m[file.filename := BlobOf(file, n)];
    BumpAllOutside(m1, Ancestors(file.filename), file, name);
  }

  /** A diffMap key is touched by a record: its own name or a folder it counts into. */
  predicate Touches(file: FileRecord, path: string)
  {
    path == file.filename || path in Ancestors(file.filename)
  }

  lemma {:induction false} BumpAllKeys(m: DiffMap, paths: seq<string>, file: FileRecord, path: string)
    ensures path in BumpAll(m, paths, file) <==> path in m || path in paths
    decreases |paths|
  {
    if paths != [] {
      BumpAllKeys(Bump(m, paths[0], file), paths[1..], file, path);
    }
  }

  /** Some record of `files` touches `path`. */
  predicate AnyTouches(files: seq<FileRecord>, path: string)
    decreases |files|
  {
    files != [] && (AnyTouches(files[..|files| - 1], path) || Touches(files[|files| - 1], path))
  }

  lemma {:induction false} AnyTouchesExists(files: seq<FileRecord>, path: string)
    ensures AnyTouches(files, path) <==> exists i :: 0 <= i < |files| && Touches(files[i], path)
    decreases |files|
  {
    if files != [] {
      var n := |files| - 1;
      var init := files[..n];
      AnyTouchesExists(init, path);
      if AnyTouches(init, path) {
        var i :| 0 <= i < n && Touches(init[i], path);
        assert files[i] == init[i];
      }
      if exists i :: 0 <= i < |files| && Touches(files[i], path) {
        var i :| 0 <= i < |files| && Touches(files[i], path);
        if i < n {
          assert init[i] == files[i];
        }
      }
    }
  }

  lemma {:induction false} DiffMapKeysTouched(files: seq<FileRecord>, path: string)
    ensures path in BuildDiffMap(files) <==> AnyTouches(files, path)
    decreases |files|
  {
    if files != [] {
      var n := |files| - 1;
      var init, file := files[..n], files[n];
      DiffMapKeysTouched(init, path);
      BumpAllKeys(BuildDiffMap(init)[file.filename := BlobOf(file, n)], Ancestors(file.filename), file, path);
    }
  }

  /** The keys of `diffMap` are exactly the names and folders the records touch. */
  lemma DiffMapKeys(files: seq<FileRecord>, path: string)
    ensures path in BuildDiffMap(files) <==> exists i :: 0 <= i < |files| && Touches(files[i], path)
  {
    DiffMapKeysTouched(files, path);
    AnyTouchesExists(files, path);
  }

  /** The folder `src` of the two-file scenario. */
  lemma ScenarioSrcFolder(a: FileRecord, b: FileRecord)
    requires a.filename == "src/a.go" && a.additions == 3 && a.deletions == 1
    requires b.filename == "src/sub/b.go" && b.additions == 5 && b.deletions == 0
    ensures "src" in BuildDiffMap([a, b]) && BuildDiffMap([a, b])["src"] == TreeEntry("src", 2, 8, 1)
  {
    var files := [a, b];
    assert files[..1] == [a] && [a][..0] == [];
    assert '/' in a.filename && '/' in b.filename by { assert a.filename[3] == '/' && b.filename[3] == '/'; }
    FoldersOfFirstScenarioFile(a.filename, "src");
    FoldersOfSecondScenarioFile(b.filename, "src");
    assert TotalsUnder([a], "src") == Totals(1, 3, 1);
    assert TotalsUnder(files, "src") == Totals(2, 8, 1);
    assert a.filename != "src" && b.filename != "src" by { assert |a.filename| != 3 && |b.filename| != 3; }
    FolderTotals(files, "src");
  }

  /** The folder `src/sub` of the two-file scenario. */
  lemma ScenarioSubFolder(a: FileRecord, b: FileRecord)
    requires a.filename == "src/a.go" && b.filename == "src/sub/b.go"
    requires b.additions == 5 && b.deletions == 0
    ensures "src/sub" in BuildDiffMap([a, b]) && BuildDiffMap([a, b])["src/sub"] == TreeEntry("src/sub", 1, 5, 0)
  {
    var files := [a, b];
    assert files[..1] == [a] && [a][..0] == [];
    assert '/' in a.filename && '/' in b.filename by { assert a.filename[3] == '/' && b.filename[3] == '/'; }
    FoldersOfFirstScenarioFile(a.filename, "src/sub");
    FoldersOfSecondScenarioFile(b.filename, "src/sub");
    assert TotalsUnder([a], "src/sub") == Totals(0, 0, 0);
    assert TotalsUnder(files, "src/sub") == Totals(1, 5, 0);
    assert a.filename != "src/sub" && b.filename != "src/sub" by { assert |a.filename| != 7 && |b.filename| != 7; }
    FolderTotals(files, "src/sub");
  }

  /** Two changed files, `src/a.go` (+3 -1) and `src/sub/b.go` (+5 -0): the folders
      `src` and `src/sub` get the totals of the files beneath them. */
  lemma TwoFileScenario(a: FileRecord, b: FileRecord)
    requires a.filename == "src/a.go" && a.additions == 3 && a.deletions == 1
    requires b.filename == "src/sub/b.go" && b.additions == 5 && b.deletions == 0
    ensures "src" in BuildDiffMap([a, b]) && BuildDiffMap([a, b])["src"] == TreeEntry("src", 2, 8, 1)
    ensures "src/sub" in BuildDiffMap([a, b]) &&
      BuildDiffMap([a, b])["src/sub"] == TreeEntry("src/sub", 1, 5, 0)
  {
    ScenarioSrcFolder(a, b);
    ScenarioSubFolder(a, b);
  }

  /** Of two records, the first keeps its entry when the second neither rewrites
      nor passes through its name. */
  lemma FirstOfTwoKept(a: FileRecord, b: FileRecord)
    requires a.filename != b.filename
    requires a.filename !in Ancestors(a.filename) && a.filename !in Ancestors(b.filename)
    ensures a.filename in BuildDiffMap([a, b]) && BuildDiffMap([a, b])[a.filename] == BlobOf(a, 0)
  {
    FileEntry([a, b], 0);
  }

  /** In the two-file scenario, `src/a.go` keeps the entry its record wrote. */
  lemma ScenarioFirstFile(a: FileRecord, b: FileRecord)
    requires a.filename == "src/a.go" && b.filename == "src/sub/b.go"
    ensures "src/a.go" in BuildDiffMap([a, b]) && BuildDiffMap([a, b])["src/a.go"] == BlobOf(a, 0)
  {
    assert a.filename !in Ancestors(a.filename) by {
      assert '/' in a.filename by { assert a.filename[3] == '/'; }
      AncestorsUnder(a.filename, a.filename);
    }
    assert a.filename !in Ancestors(b.filename) by {
      assert '/' in b.filename by { assert b.filename[3] == '/'; }
      AncestorsUnder(b.filename, a.filename);
      FoldersOfSecondScenarioFile(b.filename, a.filename);
    }
    assert a.filename != b.filename by { assert |a.filename| != |b.filename|; }
    FirstOfTwoKept(a, b);
  }

  /** In the two-file scenario, `src/sub/b.go` keeps the entry its record wrote. */
  lemma ScenarioSecondFile(a: FileRecord, b: FileRecord)
    requires a.filename == "src/a.go" && b.filename == "src/sub/b.go"
    ensures "src/sub/b.go" in BuildDiffMap([a, b]) && BuildDiffMap([a, b])["src/sub/b.go"] == BlobOf(b, 1)
  {
    assert b.filename[3] == '/';
    AncestorsUnder(b.filename, b.filename);
    FileEntry([a, b], 1);
  }

  /** In the same scenario, each file keeps the entry its record wrote. */
  lemma TwoFileScenarioFiles(a: FileRecord, b: FileRecord)
    requires a.filename == "src/a.go" && b.filename == "src/sub/b.go"
    ensures "src/a.go" in BuildDiffMap([a, b]) && BuildDiffMap([a, b])["src/a.go"] == BlobOf(a, 0)
    ensures "src/sub/b.go" in BuildDiffMap([a, b]) &&
      BuildDiffMap([a, b])["src/sub/b.go"] == BlobOf(b, 1)
  {
    ScenarioFirstFile(a, b);
    ScenarioSecondFile(a, b);
  }

  /** The folders on the path of `src/a.go`. */
  lemma FoldersOfFirstScenarioFile(fa: string, p: string)
    requires fa == "src/a.go"
    ensures IsFolderOf(p, fa) <==> p == "src"
  {
    if IsFolderOf(p, fa) {
      assert |p| == 3 by {
        assert forall k :: 0 <= k < |fa| && fa[k] == '/' ==> k == 3;
      }
    }
    if p == "src" {
      assert fa[..3] == p;
    }
  }

  /** The folders on the path of `src/sub/b.go`. */
  lemma FoldersOfSecondScenarioFile(fb: string, p: string)
    requires fb == "src/sub/b.go"
    ensures IsFolderOf(p, fb) <==> p == "src" || p == "src/sub"
  {
    if IsFolderOf(p, fb) {
      assert |p| == 3 || |p| == 7 by {
        assert forall k :: 0 <= k < |fb| && fb[k] == '/' ==> k == 3 || k == 7;
      }
      assert p == fb[..|p|];
    }
    if p == "src" {
      assert fb[..3] == p;
    }
    if p == "src/sub" {
      assert fb[..7] == p;
    }
  }

  /** `src/a.go` touches itself and the folder `src`. */
  lemma TouchesOfFirstScenarioFile(a: FileRecord, p: string)
    requires a.filename == "src/a.go"
    ensures Touches(a, p) <==> p == "src" || p == "src/a.go"
  {
    var fa := a.filename;
    assert '/' in fa by { assert fa[3] == '/'; }
    AncestorsUnder(fa, p);
    FoldersOfFirstScenarioFile(fa, p);
  }

  /** `src/sub/b.go` touches itself and the folders `src` and `src/sub`. */
  lemma TouchesOfSecondScenarioFile(b: FileRecord, p: string)
    requires b.filename == "src/sub/b.go"
    ensures Touches(b, p) <==> p == "src" || p == "src/sub" || p == "src/sub/b.go"
  {
    var fb := b.filename;
    assert '/' in fb by { assert fb[3] == '/'; }
    AncestorsUnder(fb, p);
    FoldersOfSecondScenarioFile(fb, p);
  }

  lemma AnyTouchesOfTwo(a: FileRecord, b: FileRecord, p: string)
    ensures AnyTouches([a, b], p) == (Touches(a, p) || Touches(b, p))
  {
    assert [a, b][..1] == [a];
    assert AnyTouches([a], p) == Touches(a, p) by {
      assert [a][..0] == [];
      assert !AnyTouches([], p);
    }
  }

  /** In the same scenario the keys are the two files and their two folders. */
  lemma TwoFileScenarioKeys(a: FileRecord, b: FileRecord, p: string)
    requires a.filename == "src/a.go" && b.filename == "src/sub/b.go"
    ensures p in BuildDiffMap([a, b]) <==> p in {"src", "src/a.go", "src/sub", "src/sub/b.go"}
  {
    DiffMapKeysTouched([a, b], p);
    AnyTouchesOfTwo(a, b, p);
    TouchesOfFirstScenarioFile(a, p);
    TouchesOfSecondScenarioFile(b, p);
  }
}
