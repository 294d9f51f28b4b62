/**
 * Paths, how a directory listing turns entry names into paths, and the
 * order `Vec<PathBuf>::sort` puts sibling paths in.
 */
module Paths {

  type Path = string

  const Separator: char := '/'

  /**
   * What `PathBuf::join(name)` puts in front of a (relative) entry name: the
   * directory, followed by a separator unless it is empty or already ends in
   * one.
   */
  function JoinPrefix(dir: Path): Path {
    if |dir| == 0 || dir[|dir| - 1] == Separator then dir else dir + [Separator]
  }

  /** `dir.join(name)`, which is what `DirEntry::path()` returns. */
  function Join(dir: Path, name: string): Path {
    JoinPrefix(dir) + name
  }

  /**
   * Lexicographic order on code points. For UTF-8 names this is the byte
   * order `OsStr` compares with.
   */
  predicate LexLe(a: string, b: string)
    decreases |a|
  {
    |a| == 0 || (|b| > 0 && (a[0] < b[0] || (a[0] == b[0] && LexLe(a[1..], b[1..]))))
  }

  lemma {:induction false} LexLeRefl(a: string)
    ensures LexLe(a, a)
    decreases |a|
  {
    if |a| > 0 { LexLeRefl(a[1..]); }
  }

  lemma {:induction false} LexLeTotal(a: string, b: string)
    ensures LexLe(a, b) || LexLe(b, a)
    decreases |a|
  {
    if |a| > 0 && |b| > 0 && a[0] == b[0] { LexLeTotal(a[1..], b[1..]); }
  }

  lemma {:induction false} LexLeAntisymmetric(a: string, b: string)
    requires LexLe(a, b) && LexLe(b, a)
    ensures a == b
    decreases |a|
  {
    if |a| > 0 {
      LexLeAntisymmetric(a[1..], b[1..]);
      assert a == [a[0]] + a[1..] && b == [b[0]] + b[1..];
    }
  }

  lemma {:induction false} LexLeTransitive(a: string, b: string, c: string)
    requires LexLe(a, b) && LexLe(b, c)
    ensures LexLe(a, c)
    decreases |a|
  {
    if |a| > 0 && a[0] == b[0] && b[0] == c[0] { LexLeTransitive(a[1..], b[1..], c[1..]); }
  }

  /**
   * Two paths with the same prefix compare as the rest of them do. Siblings
   * share `JoinPrefix(dir)`, so sorting their full paths sorts their names;
   * for names without a separator this is also the component-wise order of
   * `Path`'s `Ord`.
   */
  lemma {:induction false} LexLeCommonPrefix(prefix: string, a: string, b: string)
    ensures LexLe(prefix + a, prefix + b) <==> LexLe(a, b)
    decreases |prefix|
  {
    if |prefix| > 0 {
      assert (prefix + a)[0] == prefix[0] == (prefix + b)[0];
      assert (prefix + a)[1..] == prefix[1..] + a;
      assert (prefix + b)[1..] == prefix[1..] + b;
      LexLeCommonPrefix(prefix[1..], a, b);
    } else {
      assert prefix + a == a && prefix + b == b;
    }
  }

  lemma SiblingOrder(dir: Path, a: string, b: string)
    ensures LexLe(Join(dir, a), Join(dir, b)) <==> LexLe(a, b)
  {
    LexLeCommonPrefix(JoinPrefix(dir), a, b);
  }

  predicate Sorted(s: seq<Path>) {
    forall i, j :: 0 <= i < j < |s| ==> LexLe(s[i], s[j])
  }

  /** Inserts `x` in front of the first element of `s` that is not below it. */
  function Insert(x: Path, s: seq<Path>): seq<Path> {
    if s == [] || LexLe(x, s[0]) then [x] + s
    else [s[0]] + Insert(x, s[1..])
  }

  /**
   * `Vec<PathBuf>::sort`, as an insertion sort. By SortedIsUnique any sort
   * yields this same sequence, so the choice of algorithm is immaterial.
   */
  function SortPaths(s: seq<Path>): seq<Path> {
    if s == [] then [] else Insert(s[0], SortPaths(s[1..]))
  }

  /** Inserting adds exactly `x`. */
  lemma {:induction false} InsertPermutes(x: Path, s: seq<Path>)
    ensures multiset(Insert(x, s)) == multiset(s) + multiset{x}
  {
    if s != [] && !LexLe(x, s[0]) {
      InsertPermutes(x, s[1..]);
      assert s == [s[0]] + s[1..];
    }
  }

  /** A sequence is sorted when its head is below all of its sorted tail. */
  lemma SortedCons(h: Path, t: seq<Path>)
    requires Sorted(t) && forall y :: y in t ==> LexLe(h, y)
    ensures Sorted([h] + t)
  {
    var s := [h] + t;
    forall i, j | 0 <= i < j < |s| ensures LexLe(s[i], s[j]) {
      assert s[j] == t[j - 1];
      if i > 0 { assert s[i] == t[i - 1]; }
    }
  }

  /** Inserting into a sorted sequence keeps it sorted. */
  lemma {:induction false} InsertSorts(x: Path, s: seq<Path>)
    requires Sorted(s)
    ensures Sorted(Insert(x, s))
  {
    if s == [] {
      SortedCons(x, s);
    } else if LexLe(x, s[0]) {
      forall y | y in s ensures LexLe(x, y) {
        var j :| 0 <= j < |s| && s[j] == y;
        if j > 0 { LexLeTransitive(x, s[0], y); }
      }
      SortedCons(x, s);
    } else {
      var t := s[1..];
      assert Sorted(t);
      InsertSorts(x, t);
      InsertPermutes(x, t);
      LexLeTotal(x, s[0]);
      forall y | y in Insert(x, t) ensures LexLe(s[0], y) {
        assert y in multiset(Insert(x, t));
        if y != x {
          assert y in multiset(t);
          var j :| 0 <= j < |t| && t[j] == y;
          assert s[j + 1] == y;
        }
      }
      SortedCons(s[0], Insert(x, t));
    }
  }

  /** The sort yields a sorted sequence... */
  lemma {:induction false} SortPathsSorted(s: seq<Path>)
    ensures Sorted(SortPaths(s))
  {
    if s != [] {
      SortPathsSorted(s[1..]);
      InsertSorts(s[0], SortPaths(s[1..]));
    }
  }

  /** ...that is a permutation of its input. */
  lemma {:induction false} SortPathsPermutes(s: seq<Path>)
    ensures multiset(SortPaths(s)) == multiset(s)
  {
    if s != [] {
      assert s == [s[0]] + s[1..];
      SortPathsPermutes(s[1..]);
      InsertPermutes(s[0], SortPaths(s[1..]));
    }
  }

  lemma SortPathsSorts(s: seq<Path>)
    ensures Sorted(SortPaths(s))
    ensures multiset(SortPaths(s)) == multiset(s)
  {
    SortPathsSorted(s);
    SortPathsPermutes(s);
  }

  /** The head of a sorted sequence is below each of its elements. */
  lemma SortedHeadLeast(a: seq<Path>, x: Path)
    requires Sorted(a) && x in a
    ensures LexLe(a[0], x)
  {
    var i :| 0 <= i < |a| && a[i] == x;
    if i == 0 { LexLeRefl(x); }
  }

  /** A multiset has one sorted arrangement only. */
  lemma {:induction false} SortedIsUnique(a: seq<Path>, b: seq<Path>)
    requires Sorted(a) && Sorted(b) && multiset(a) == multiset(b)
    ensures a == b
    decreases |a|
  {
    if a != [] {
      assert b != [] by { assert a[0] in multiset(b); }
      assert a[0] in multiset(b) && b[0] in multiset(a);
      SortedHeadLeast(a, b[0]);
      SortedHeadLeast(b, a[0]);
      LexLeAntisymmetric(a[0], b[0]);
      SortedTail(a);
      SortedTail(b);
      HeadTailMultiset(a);
      HeadTailMultiset(b);
      SortedIsUnique(a[1..], b[1..]);
      assert |a| == |b|;
      forall i | 0 < i < |a| ensures a[i] == b[i] {
        assert a[i] == a[1..][i - 1] && b[i] == b[1..][i - 1];
      }
    }
  }

  lemma SortedTail(a: seq<Path>)
    requires Sorted(a) && a != []
    ensures Sorted(a[1..])
  {
    forall i, j | 0 <= i < j < |a[1..]| ensures LexLe(a[1..][i], a[1..][j]) {
      assert a[1..][i] == a[i + 1] && a[1..][j] == a[j + 1];
    }
  }

  lemma HeadTailMultiset(a: seq<Path>)
    requires a != []
    ensures multiset(a[1..]) == multiset(a) - multiset{a[0]}
  {
    assert a == [a[0]] + a[1..];
    assert multiset(a) == multiset{a[0]} + multiset(a[1..]);
  }
}
