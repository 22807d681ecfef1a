/** The JavaScript string operations the adapter relies on: `split('/')`,
    `join('/')` and a fixed total order on strings that stands for `localeCompare`. */
module StringOps {

  /** Splitting at every separator: the pieces between separators, in order; never empty. */
  function Split(s: string): (parts: seq<string>)
    ensures |parts| >= 1
    ensures forall i :: 0 <= i < |parts| ==> '/' !in parts[i]
    decreases |s|
  {
    if |s| == 0 then [""]
    else
      var rest := Split(s[1..]);
      if s[0] == '/' then [""] + rest
      else [[s[0]] + rest[0]] + rest[1..]
  }

  /** The pieces with a separator between each two. */
  function Join(xs: seq<string>): (s: string)
    ensures xs == [] ==> s == ""
    ensures |xs| == 1 ==> s == xs[0]
    ensures |xs| >= 2 ==> IsFolderOf(xs[0], s)
  {
    if |xs| == 0 then ""
    else if |xs| == 1 then xs[0]
    else
      assert (xs[0] + "/" + Join(xs[1..]))[..|xs[0]|] == xs[0];
      xs[0] + "/" + Join(xs[1..])
  }

  /** All elements but the last; nothing of an empty sequence. */
  function DropLast<T>(xs: seq<T>): (r: seq<T>)
    ensures r <= xs
    ensures |r| == if xs == [] then 0 else |xs| - 1
  {
    if |xs| == 0 then [] else xs[..|xs| - 1]
  }

  /** Two or more pieces join as the first, a separator, and the rest joined. */
  lemma JoinHead(xs: seq<string>)
    requires |xs| >= 2
    ensures Join(xs) == xs[0] + "/" + Join(xs[1..])
  {
  }

  /** Joining the pieces of a split gives back the string. */
  lemma {:induction false} JoinSplit(s: string)
    ensures Join(Split(s)) == s
    decreases |s|
  {
    if |s| > 0 {
      JoinSplit(s[1..]);
      var rest := Split(s[1..]);
      if s[0] == '/' {
        assert s == "/" + s[1..];
      } else if |rest| == 1 {
        assert s == [s[0]] + s[1..];
      } else {
        assert Join(rest) == rest[0] + "/" + Join(rest[1..]);
        assert s == [s[0]] + s[1..];
      }
    }
  }

  /** One step of `Split` on `a + "/" + b`, for a non-empty `a`. */
  lemma SplitJoinedStep(a: string, b: string)
    requires |a| > 0
    ensures var rest := Split(a[1..] + "/" + b);
      Split(a + "/" + b) == if a[0] == '/' then [""] + rest else [[a[0]] + rest[0]] + rest[1..]
  {
    assert (a + "/" + b)[1..] == a[1..] + "/" + b;
  }

  lemma TailOfConcat<T>(h: seq<T>, t: seq<T>)
    requires |h| >= 1
    ensures (h + t)[0] == h[0] && (h + t)[1..] == h[1..] + t
  {
  }

  lemma ConsAssoc<T>(x: T, h: seq<T>, t: seq<T>)
    ensures [x] + (h + t) == ([x] + h) + t
  {
  }

  /** A separator splits the string into the pieces on either side of it. */
  lemma {:induction false} SplitAround(a: string, b: string)
    ensures Split(a + "/" + b) == Split(a) + Split(b)
    decreases |a|
  {
    if |a| == 0 {
      assert a + "/" + b == "/" + b;
      assert ("/" + b)[1..] == b;
    } else {
      SplitAround(a[1..], b);
      SplitJoinedStep(a, b);
      var head := Split(a[1..]);
      TailOfConcat(head, Split(b));
      if a[0] == '/' {
        ConsAssoc("", head, Split(b));
      } else {
        ConsAssoc([a[0]] + head[0], head[1..], Split(b));
      }
    }
  }

  /** A string without a separator is its own single piece. */
  lemma {:induction false} SplitNoSeparator(s: string)
    requires '/' !in s
    ensures Split(s) == [s]
    decreases |s|
  {
    if |s| > 0 {
      assert s[0] != '/';
      assert forall c :: c in s[1..] ==> c in s;
      SplitNoSeparator(s[1..]);
      assert s == [s[0]] + s[1..];
    }
  }

  /** A string with a separator splits into at least two pieces. */
  lemma {:induction false} SplitWithSeparator(s: string)
    requires '/' in s
    ensures |Split(s)| >= 2
    decreases |s|
  {
    if s[0] != '/' {
      assert '/' in s[1..] by {
        var i :| 0 <= i < |s| && s[i] == '/';
        assert s[1..][i - 1] == '/';
      }
      SplitWithSeparator(s[1..]);
    }
  }

  /** Splitting a join of separator-free pieces gives back the pieces. */
  lemma {:induction false} SplitJoin(xs: seq<string>)
    requires |xs| >= 1
    requires forall i :: 0 <= i < |xs| ==> '/' !in xs[i]
    ensures Split(Join(xs)) == xs
    decreases |xs|
  {
    SplitNoSeparator(xs[0]);
    if |xs| > 1 {
      SplitJoin(xs[1..]);
      SplitAround(xs[0], Join(xs[1..]));
      assert xs == [xs[0]] + xs[1..];
    }
  }

  /** A join can be cut at any inner separator. */
  lemma {:induction false} JoinCut(xs: seq<string>, m: nat)
    requires 0 < m < |xs|
    ensures Join(xs) == Join(xs[..m]) + "/" + Join(xs[m..])
    decreases m
  {
    if m > 1 {
      JoinCut(xs[1..], m - 1);
      assert xs[1..][..m - 1] == xs[..m][1..];
      assert xs[1..][m - 1..] == xs[m..];
    } else {
      assert xs[..1] == [xs[0]];
      assert xs[1..] == xs[m..];
    }
  }

  /** The first piece of a string that does not start with a separator is non-empty. */
  lemma FirstPieceNonEmpty(s: string)
    requires |s| > 0 && s[0] != '/'
    ensures Split(s)[0] != ""
  {
  }

  /** Strict lexicographic order on code points, in which a proper prefix comes first. */
  predicate Less(a: string, b: string)
    decreases |a|
  {
    if |a| == 0 then |b| > 0
    else if |b| == 0 then false
    else if a[0] != b[0] then a[0] < b[0]
    else Less(a[1..], b[1..])
  }

  /** `a` is a proper prefix of `b`. */
  predicate IsProperPrefix(a: string, b: string)
  {
    |a| < |b| && b[..|a|] == a
  }

  /** `dir` names a folder on the way to `path`: `path` is `dir + "/" + ...`. */
  predicate IsFolderOf(dir: string, path: string)
  {
    |dir| < |path| && path[..|dir|] == dir && path[|dir|] == '/'
  }

  lemma {:induction false} LessIrreflexive(a: string)
    ensures !Less(a, a)
    decreases |a|
  {
    if |a| > 0 { LessIrreflexive(a[1..]); }
  }

  lemma {:induction false} LessAsymmetric(a: string, b: string)
    requires Less(a, b)
    ensures !Less(b, a)
    decreases |a|
  {
    if |a| > 0 && |b| > 0 && a[0] == b[0] { LessAsymmetric(a[1..], b[1..]); }
  }

  lemma {:induction false} LessTransitive(a: string, b: string, c: string)
    requires Less(a, b) && Less(b, c)
    ensures Less(a, c)
    decreases |a|
  {
    if |a| > 0 && a[0] == b[0] && b[0] == c[0] {
      LessTransitive(a[1..], b[1..], c[1..]);
    }
  }

  lemma {:induction false} LessTotal(a: string, b: string)
    requires a != b
    ensures Less(a, b) || Less(b, a)
    decreases |a|
  {
    if |a| > 0 && |b| > 0 && a[0] == b[0] {
      assert a == [a[0]] + a[1..] && b == [b[0]] + b[1..];
      LessTotal(a[1..], b[1..]);
    }
  }

  /** A proper prefix sorts before the longer string: parents before children. */
  lemma {:induction false} PrefixFirst(a: string, b: string)
    requires IsProperPrefix(a, b)
    ensures Less(a, b)
    decreases |a|
  {
    if |a| > 0 {
      assert b[1..][..|a| - 1] == a[1..];
      PrefixFirst(a[1..], b[1..]);
    }
  }

  /** Non-strict companion of `Less`, transitive. */
  lemma LessEqTransitive(a: string, b: string, c: string)
    requires !Less(b, a) && !Less(c, b)
    ensures !Less(c, a)
  {
    if a != b && b != c {
      LessTotal(a, b);
      LessTotal(b, c);
      LessTransitive(a, b, c);
      LessAsymmetric(a, c);
    }
  }
}
