/**
 * `FsEntry`, `MapSnapshot` and the snapshot builder `MapSnapshot::new`: a
 * depth-bounded walk that lists each directory, keeps its subdirectories
 * and regular files, sorts each group, and recurses into the
 * subdirectories before appending the files.
 */
module Snapshot {
  import opened Io
  import opened Paths
  import opened FileSystem
  import opened Seqs

  datatype FsEntry = File(path: Path) | Dir(snapshot: MapSnapshot)

  /** One directory level: its path, its children, and the depth it was built at. */
  datatype MapSnapshot = MapSnapshot(directory: Path, children: seq<FsEntry>, depth: Depth)

  function EntryPath(e: FsEntry): Path {
    match e
    case File(p) => p
    case Dir(s) => s.directory
  }

  function ChildPaths(cs: seq<FsEntry>): seq<Path> {
    seq(|cs|, k requires 0 <= k < |cs| => EntryPath(cs[k]))
  }

  /** One file entry per path, in order. */
  function FileEntries(files: seq<Path>): (r: seq<FsEntry>)
    ensures ChildPaths(r) == files
    ensures forall k :: 0 <= k < |r| ==> r[k].File?
  {
    seq(|files|, k requires 0 <= k < |files| => File(files[k]))
  }

  lemma FileEntriesSnoc(files: seq<Path>, j: nat)
    requires j < |files|
    ensures FileEntries(files[..j + 1]) == FileEntries(files[..j]) + [File(files[j])]
  {
    var a, b := FileEntries(files[..j + 1]), FileEntries(files[..j]) + [File(files[j])];
    assert |a| == |b|;
    forall k | 0 <= k < |a| ensures a[k] == b[k] {
      if k < j { assert a[k] == File(files[k]) == b[k]; }
    }
  }

  /** No directory comes after a file. */
  predicate Grouped(cs: seq<FsEntry>) {
    forall i, j :: 0 <= i < j < |cs| && cs[i].File? ==> cs[j].File?
  }

  /** The directories are in ascending path order, and so are the files. */
  predicate GroupsSorted(cs: seq<FsEntry>) {
    forall i, j :: 0 <= i < j < |cs| && cs[i].Dir? == cs[j].Dir? ==> LexLe(EntryPath(cs[i]), EntryPath(cs[j]))
  }

  /**
   * The shape of every snapshot built with bound `maxDepth`, at every level:
   * only nodes within the bound have children, directories come first, each
   * group is sorted, and a nested snapshot is one level deeper than its
   * parent.
   */
  predicate WellFormed(s: MapSnapshot, maxDepth: Depth) {
    && (s.depth > maxDepth ==> s.children == [])
    && Grouped(s.children)
    && GroupsSorted(s.children)
    && forall k :: 0 <= k < |s.children| && s.children[k].Dir? ==>
         s.children[k].snapshot.depth == s.depth + 1 && WellFormed(s.children[k].snapshot, maxDepth)
  }

  /** No node of `s` is deeper than `bound`. */
  predicate DepthsAtMost(s: MapSnapshot, bound: int) {
    && s.depth <= bound
    && forall k :: 0 <= k < |s.children| && s.children[k].Dir? ==> DepthsAtMost(s.children[k].snapshot, bound)
  }

  /**
   * `MapSnapshot::new(dir, max_depth, depth)`. The `u8` addition `depth + 1`
   * cannot overflow because `depth <= maxDepth < 255` wherever it happens.
   */
  function Build(fs: Fs, dir: Path, maxDepth: Depth, depth: Depth): (r: Result<MapSnapshot>)
    requires maxDepth < 255
    ensures r.Ok? ==> r.value.directory == dir && r.value.depth == depth
    ensures depth > maxDepth ==> r == Ok(MapSnapshot(dir, [], depth))
    decreases 256 - depth
  {
    if depth > maxDepth then Ok(MapSnapshot(dir, [], depth))
    else
      match ReadDir(fs, dir)
      case Err(e) => Err(e)
      case Ok(paths) =>
        var dirs := SortPaths(Dirs(fs, paths));
        var files := SortPaths(Files(fs, paths));
        match BuildAll(fs, dirs, maxDepth, depth + 1)
        case Err(e) => Err(e)
        case Ok(subs) => Ok(MapSnapshot(dir, subs + FileEntries(files), depth))
  }

  /** `subs` are well-formed snapshots of `dirs`, in order, all at `depth`. */
  predicate SnapshotsOf(subs: seq<FsEntry>, dirs: seq<Path>, depth: int, maxDepth: Depth) {
    && |subs| == |dirs|
    && forall k :: 0 <= k < |dirs| ==>
         && subs[k].Dir?
         && subs[k].snapshot.directory == dirs[k]
         && subs[k].snapshot.depth == depth
         && WellFormed(subs[k].snapshot, maxDepth)
  }

  /** A level assembled from sorted, well-formed subdirectory snapshots and sorted files is well formed. */
  lemma {:induction false} AssembledWellFormed(dir: Path, subs: seq<FsEntry>, dirs: seq<Path>, files: seq<Path>, maxDepth: Depth, depth: Depth)
    requires depth <= maxDepth < 255
    requires Sorted(dirs) && Sorted(files) && SnapshotsOf(subs, dirs, depth + 1, maxDepth)
    ensures WellFormed(MapSnapshot(dir, subs + FileEntries(files), depth), maxDepth)
  {
    var cs := subs + FileEntries(files);
    assert forall k :: 0 <= k < |subs| ==> cs[k] == subs[k];
    assert forall k :: |subs| <= k < |cs| ==> cs[k] == File(files[k - |subs|]);
    assert Grouped(cs);
    assert GroupsSorted(cs);
  }

  /** The `for dir in dirs` loop: one nested snapshot per directory, in order, or the first error. */
  function BuildAll(fs: Fs, dirs: seq<Path>, maxDepth: Depth, depth: Depth): (r: Result<seq<FsEntry>>)
    requires maxDepth < 255
    ensures r.Ok? ==> |r.value| == |dirs|
    ensures r.Ok? ==> forall k :: 0 <= k < |dirs| ==>
      && r.value[k].Dir?
      && r.value[k].snapshot.directory == dirs[k]
      && r.value[k].snapshot.depth == depth
    decreases 257 - depth, |dirs|
  {
    if dirs == [] then Ok([])
    else
      match Build(fs, dirs[0], maxDepth, depth)
      case Err(e) => Err(e)
      case Ok(first) =>
        match BuildAll(fs, dirs[1..], maxDepth, depth)
        case Err(e) => Err(e)
        case Ok(rest) =>
          assert forall k :: 0 < k < |dirs| ==> ([Dir(first)] + rest)[k] == rest[k - 1] && dirs[k] == dirs[1..][k - 1];
          Ok([Dir(first)] + rest)
  }

  /** Every snapshot the builder returns is well formed. */
  lemma {:induction false} BuildWellFormed(fs: Fs, dir: Path, maxDepth: Depth, depth: Depth)
    requires maxDepth < 255 && Build(fs, dir, maxDepth, depth).Ok?
    ensures WellFormed(Build(fs, dir, maxDepth, depth).value, maxDepth)
    decreases 256 - depth
  {
    if depth <= maxDepth {
      BuildLevel(fs, dir, maxDepth, depth);
      var paths := ReadDir(fs, dir).value;
      var dirs := SortPaths(Dirs(fs, paths));
      BuildAllWellFormed(fs, dirs, maxDepth, depth + 1);
      LevelWellFormed(fs, paths, BuildAll(fs, dirs, maxDepth, depth + 1).value, Build(fs, dir, maxDepth, depth).value, maxDepth);
    }
  }

  /** The level the builder assembles from a listing and well-formed subdirectory snapshots is well formed. */
  lemma LevelWellFormed(fs: Fs, paths: seq<Path>, subs: seq<FsEntry>, s: MapSnapshot, maxDepth: Depth)
    requires s.depth <= maxDepth < 255 && SnapshotsOf(subs, SortPaths(Dirs(fs, paths)), s.depth + 1, maxDepth)
    requires s.children == subs + FileEntries(SortPaths(Files(fs, paths)))
    ensures WellFormed(s, maxDepth)
  {
    SortPathsSorted(Dirs(fs, paths));
    SortPathsSorted(Files(fs, paths));
    AssembledWellFormed(s.directory, subs, SortPaths(Dirs(fs, paths)), SortPaths(Files(fs, paths)), maxDepth, s.depth);
    assert s == MapSnapshot(s.directory, subs + FileEntries(SortPaths(Files(fs, paths))), s.depth);
  }

  lemma {:induction false} BuildAllWellFormed(fs: Fs, dirs: seq<Path>, maxDepth: Depth, depth: Depth)
    requires maxDepth < 255 && BuildAll(fs, dirs, maxDepth, depth).Ok?
    ensures SnapshotsOf(BuildAll(fs, dirs, maxDepth, depth).value, dirs, depth, maxDepth)
    decreases 257 - depth, |dirs|
  {
    if dirs != [] {
      BuildWellFormed(fs, dirs[0], maxDepth, depth);
      BuildAllWellFormed(fs, dirs[1..], maxDepth, depth);
      var r, rest := BuildAll(fs, dirs, maxDepth, depth).value, BuildAll(fs, dirs[1..], maxDepth, depth).value;
      assert forall k :: 0 < k < |dirs| ==> r[k] == rest[k - 1] && dirs[k] == dirs[1..][k - 1];
    }
  }

  /** The loop succeeds exactly when every directory builds, and then holds their snapshots. */
  lemma {:induction false} BuildAllOk(fs: Fs, dirs: seq<Path>, maxDepth: Depth, depth: Depth)
    requires maxDepth < 255
    ensures BuildAll(fs, dirs, maxDepth, depth).Ok? <==> forall k :: 0 <= k < |dirs| ==> Build(fs, dirs[k], maxDepth, depth).Ok?
    ensures BuildAll(fs, dirs, maxDepth, depth).Ok? ==> forall k :: 0 <= k < |dirs| ==>
      BuildAll(fs, dirs, maxDepth, depth).value[k] == Dir(Build(fs, dirs[k], maxDepth, depth).value)
    decreases |dirs|
  {
    if dirs != [] {
      BuildAllOk(fs, dirs[1..], maxDepth, depth);
      assert forall k :: 0 < k < |dirs| ==> dirs[1..][k - 1] == dirs[k];
    }
  }

  /** A failed loop fails with the error of the first directory that does not build. */
  lemma {:induction false} BuildAllErr(fs: Fs, dirs: seq<Path>, maxDepth: Depth, depth: Depth)
    requires maxDepth < 255 && BuildAll(fs, dirs, maxDepth, depth).Err?
    ensures exists k ::
      && 0 <= k < |dirs|
      && Build(fs, dirs[k], maxDepth, depth) == Err(BuildAll(fs, dirs, maxDepth, depth).error)
      && (forall j :: 0 <= j < k ==> Build(fs, dirs[j], maxDepth, depth).Ok?)
    decreases |dirs|
  {
    if Build(fs, dirs[0], maxDepth, depth).Err? {
      assert 0 < |dirs|;
    } else {
      BuildAllErr(fs, dirs[1..], maxDepth, depth);
      var k :| 0 <= k < |dirs[1..]| && Build(fs, dirs[1..][k], maxDepth, depth) == Err(BuildAll(fs, dirs[1..], maxDepth, depth).error)
        && forall j :: 0 <= j < k ==> Build(fs, dirs[1..][j], maxDepth, depth).Ok?;
      assert forall j :: 0 < j < k + 1 ==> dirs[1..][j - 1] == dirs[j];
      assert dirs[1..][k] == dirs[k + 1];
    }
  }

  lemma {:induction false} BuildAllAppend(fs: Fs, a: seq<Path>, b: seq<Path>, maxDepth: Depth, depth: Depth)
    requires maxDepth < 255
    ensures BuildAll(fs, a + b, maxDepth, depth) ==
      match BuildAll(fs, a, maxDepth, depth)
      case Err(e) => Err(e)
      case Ok(sa) =>
        match BuildAll(fs, b, maxDepth, depth)
        case Err(e) => Err(e)
        case Ok(sb) => Ok(sa + sb)
    decreases |a|
  {
    if a == [] {
      assert a + b == b;
      if BuildAll(fs, b, maxDepth, depth).Ok? {
        assert [] + BuildAll(fs, b, maxDepth, depth).value == BuildAll(fs, b, maxDepth, depth).value;
      }
    } else {
      assert (a + b)[0] == a[0] && (a + b)[1..] == a[1..] + b;
      BuildAllAppend(fs, a[1..], b, maxDepth, depth);
      var ra, rb := BuildAll(fs, a[1..], maxDepth, depth), BuildAll(fs, b, maxDepth, depth);
      if Build(fs, a[0], maxDepth, depth).Ok? && ra.Ok? && rb.Ok? {
        AppendAssoc([Dir(Build(fs, a[0], maxDepth, depth).value)], ra.value, rb.value);
      }
    }
  }

  /** One more step of the loop: the prefix up to `j + 1` builds exactly when the prefix up to `j` and `dirs[j]` do. */
  lemma BuildAllSplit(fs: Fs, dirs: seq<Path>, j: nat, maxDepth: Depth, depth: Depth)
    requires maxDepth < 255 && j < |dirs| && BuildAll(fs, dirs[..j], maxDepth, depth).Ok?
    ensures Build(fs, dirs[j], maxDepth, depth).Err? ==>
      BuildAll(fs, dirs, maxDepth, depth) == Err(Build(fs, dirs[j], maxDepth, depth).error)
    ensures Build(fs, dirs[j], maxDepth, depth).Ok? ==>
      BuildAll(fs, dirs[..j + 1], maxDepth, depth) ==
        Ok(BuildAll(fs, dirs[..j], maxDepth, depth).value + [Dir(Build(fs, dirs[j], maxDepth, depth).value)])
  {
    BuildAllAppend(fs, dirs[..j], dirs[j..], maxDepth, depth);
    assert dirs[..j] + dirs[j..] == dirs;
    assert dirs[j..][0] == dirs[j];
    BuildAllAppend(fs, dirs[..j], [dirs[j]], maxDepth, depth);
    assert dirs[..j + 1] == dirs[..j] + [dirs[j]];
    BuildAllSingle(fs, dirs[j], maxDepth, depth);
  }

  lemma BuildAllSingle(fs: Fs, dir: Path, maxDepth: Depth, depth: Depth)
    requires maxDepth < 255
    ensures BuildAll(fs, [dir], maxDepth, depth) ==
      match Build(fs, dir, maxDepth, depth)
      case Err(e) => Err(e)
      case Ok(s) => Ok([Dir(s)])
  {
    assert [dir][1..] == [];
    if Build(fs, dir, maxDepth, depth).Ok? {
      assert [Dir(Build(fs, dir, maxDepth, depth).value)] + [] == [Dir(Build(fs, dir, maxDepth, depth).value)];
    }
  }

  /** What one explored level consists of: the listing succeeded, and so did the loop over its subdirectories. */
  lemma BuildLevel(fs: Fs, dir: Path, maxDepth: Depth, depth: Depth)
    requires depth <= maxDepth < 255 && Build(fs, dir, maxDepth, depth).Ok?
    ensures ReadDir(fs, dir).Ok?
    ensures var listed := ReadDir(fs, dir).value;
      && BuildAll(fs, SortPaths(Dirs(fs, listed)), maxDepth, depth + 1).Ok?
      && Build(fs, dir, maxDepth, depth).value.children ==
           BuildAll(fs, SortPaths(Dirs(fs, listed)), maxDepth, depth + 1).value + FileEntries(SortPaths(Files(fs, listed)))
  {
  }

  /** The paths of a level assembled from directory snapshots and files, and their kinds. */
  lemma AssembledPaths(subs: seq<FsEntry>, dirs: seq<Path>, files: seq<Path>)
    requires |subs| == |dirs| && forall k :: 0 <= k < |dirs| ==> subs[k].Dir? && subs[k].snapshot.directory == dirs[k]
    ensures ChildPaths(subs + FileEntries(files)) == dirs + files
    ensures forall k :: 0 <= k < |subs + FileEntries(files)| ==> ((subs + FileEntries(files))[k].Dir? <==> k < |dirs|)
  {
    var cs := subs + FileEntries(files);
    assert forall k :: 0 <= k < |subs| ==> cs[k] == subs[k];
    assert forall k :: |subs| <= k < |cs| ==> cs[k] == File(files[k - |subs|]);
  }

  /** The sorted directory group holds listed directories only, and the file group listed regular files only. */
  lemma SortedGroupsClassified(fs: Fs, listed: seq<Path>)
    ensures forall p :: p in SortPaths(Dirs(fs, listed)) ==> IsDir(fs, p) && !IsFile(fs, p)
    ensures forall p :: p in SortPaths(Files(fs, listed)) ==> IsFile(fs, p) && !IsDir(fs, p)
    ensures multiset(SortPaths(Dirs(fs, listed))) + multiset(SortPaths(Files(fs, listed))) ==
      multiset(Dirs(fs, listed)) + multiset(Files(fs, listed))
  {
    DirsClassified(fs, listed);
    FilesClassified(fs, listed);
    SortPathsSorts(Dirs(fs, listed));
    SortPathsSorts(Files(fs, listed));
    forall p | p in SortPaths(Dirs(fs, listed)) ensures IsDir(fs, p) && !IsFile(fs, p) {
      assert multiset(SortPaths(Dirs(fs, listed)))[p] > 0;
    }
    forall p | p in SortPaths(Files(fs, listed)) ensures IsFile(fs, p) && !IsDir(fs, p) {
      assert multiset(SortPaths(Files(fs, listed)))[p] > 0;
    }
  }

  /**
   * An explored level holds exactly the listed entries that are directories
   * or regular files: the sorted directories, then the sorted files (as a
   * multiset nothing is lost and nothing added, so there are #dirs + #files
   * children), and each child has the kind the filesystem reports for its
   * path.
   */
  lemma ExploredLevel(fs: Fs, dir: Path, maxDepth: Depth, depth: Depth)
    requires depth <= maxDepth < 255 && Build(fs, dir, maxDepth, depth).Ok?
    ensures ReadDir(fs, dir).Ok?
    ensures var s, listed := Build(fs, dir, maxDepth, depth).value, ReadDir(fs, dir).value;
      && ChildPaths(s.children) == SortPaths(Dirs(fs, listed)) + SortPaths(Files(fs, listed))
      && multiset(ChildPaths(s.children)) == multiset(Dirs(fs, listed)) + multiset(Files(fs, listed))
      && |s.children| == |Dirs(fs, listed)| + |Files(fs, listed)|
      && (forall k :: 0 <= k < |s.children| ==> (s.children[k].Dir? <==> IsDir(fs, EntryPath(s.children[k]))))
      && (forall k :: 0 <= k < |s.children| ==> (s.children[k].File? <==> IsFile(fs, EntryPath(s.children[k]))))
  {
    BuildLevel(fs, dir, maxDepth, depth);
    var listed := ReadDir(fs, dir).value;
    var dirs, files := SortPaths(Dirs(fs, listed)), SortPaths(Files(fs, listed));
    var subs := BuildAll(fs, dirs, maxDepth, depth + 1).value;
    AssembledPaths(subs, dirs, files);
    SortedGroupsClassified(fs, listed);
    LevelKinds(fs, subs + FileEntries(files), dirs, files);
    assert |ChildPaths(subs + FileEntries(files))| == |multiset(Dirs(fs, listed)) + multiset(Files(fs, listed))|;
  }

  /** Kinds of the children of a level whose paths are `dirs + files`, directories first. */
  lemma LevelKinds(fs: Fs, cs: seq<FsEntry>, dirs: seq<Path>, files: seq<Path>)
    requires ChildPaths(cs) == dirs + files
    requires forall k :: 0 <= k < |cs| ==> (cs[k].Dir? <==> k < |dirs|)
    requires forall p :: p in dirs ==> IsDir(fs, p) && !IsFile(fs, p)
    requires forall p :: p in files ==> IsFile(fs, p) && !IsDir(fs, p)
    ensures forall k :: 0 <= k < |cs| ==> (cs[k].Dir? <==> IsDir(fs, EntryPath(cs[k])))
    ensures forall k :: 0 <= k < |cs| ==> (cs[k].File? <==> IsFile(fs, EntryPath(cs[k])))
  {
    forall k | 0 <= k < |cs|
      ensures cs[k].Dir? <==> IsDir(fs, EntryPath(cs[k]))
      ensures cs[k].File? <==> IsFile(fs, EntryPath(cs[k]))
    {
      assert EntryPath(cs[k]) == (dirs + files)[k];
      if k < |dirs| {
        assert (dirs + files)[k] == dirs[k];
      } else {
        assert (dirs + files)[k] == files[k - |dirs|];
      }
    }
  }

  /** Below the bound nothing is read: the result does not depend on the filesystem. */
  lemma TruncationReadsNothing(fs: Fs, other: Fs, dir: Path, maxDepth: Depth, depth: Depth)
    requires maxDepth < 255 && depth > maxDepth
    ensures Build(fs, dir, maxDepth, depth) == Build(other, dir, maxDepth, depth) == Ok(MapSnapshot(dir, [], depth))
  {
  }

  /**
   * Started within the bound, no node is deeper than `maxDepth + 1`; nodes
   * at that depth have no children (by WellFormed).
   */
  lemma {:induction false} DepthBound(s: MapSnapshot, maxDepth: Depth)
    requires WellFormed(s, maxDepth) && s.depth <= maxDepth + 1
    ensures DepthsAtMost(s, maxDepth + 1)
    decreases s
  {
    forall k | 0 <= k < |s.children| && s.children[k].Dir?
      ensures DepthsAtMost(s.children[k].snapshot, maxDepth + 1)
    {
      DepthBound(s.children[k].snapshot, maxDepth);
    }
  }

  /** Every listed directory is among the sorted directories the builder recurses into. */
  lemma ListedDirIsVisited(fs: Fs, paths: seq<Path>, q: Path)
    requires q in paths && IsDir(fs, q)
    ensures q in SortPaths(Dirs(fs, paths))
  {
    DirsClassified(fs, paths);
    SortPathsSorts(Dirs(fs, paths));
    assert multiset(paths)[q] > 0;
    assert multiset(SortPaths(Dirs(fs, paths)))[q] > 0;
  }

  /** The builder recurses into listed directories only. */
  lemma VisitedDirIsListed(fs: Fs, paths: seq<Path>, q: Path)
    requires q in SortPaths(Dirs(fs, paths))
    ensures q in paths && IsDir(fs, q)
  {
    DirsClassified(fs, paths);
    SortPathsSorts(Dirs(fs, paths));
    assert multiset(SortPaths(Dirs(fs, paths)))[q] > 0;
    assert multiset(Dirs(fs, paths))[q] > 0;
  }

  /**
   * The reference for error propagation: within the bound, `dir` can be
   * listed and so can, recursively, every subdirectory the listing reports.
   */
  ghost predicate Readable(fs: Fs, dir: Path, maxDepth: Depth, depth: Depth)
    requires maxDepth < 255
    decreases 256 - depth
  {
    depth > maxDepth ||
      (&& ReadDir(fs, dir).Ok?
       && forall q :: q in ReadDir(fs, dir).value && IsDir(fs, q) ==> Readable(fs, q, maxDepth, depth + 1))
  }

  /** One unfolding of the builder within the bound: it succeeds when the listing and the loop over its subdirectories do. */
  lemma BuildOkStep(fs: Fs, dir: Path, maxDepth: Depth, depth: Depth)
    requires depth <= maxDepth < 255
    ensures Build(fs, dir, maxDepth, depth).Ok? <==>
      ReadDir(fs, dir).Ok? && BuildAll(fs, SortPaths(Dirs(fs, ReadDir(fs, dir).value)), maxDepth, depth + 1).Ok?
  {
  }

  /** The loop over the sorted subdirectories succeeds exactly when every listed subdirectory builds. */
  lemma SubdirsOk(fs: Fs, listed: seq<Path>, maxDepth: Depth, depth: Depth)
    requires maxDepth < 255
    ensures BuildAll(fs, SortPaths(Dirs(fs, listed)), maxDepth, depth).Ok? <==>
      forall q :: q in listed && IsDir(fs, q) ==> Build(fs, q, maxDepth, depth).Ok?
  {
    var dirs := SortPaths(Dirs(fs, listed));
    BuildAllOk(fs, dirs, maxDepth, depth);
    forall q | q in listed && IsDir(fs, q) ensures q in dirs { ListedDirIsVisited(fs, listed, q); }
    forall k | 0 <= k < |dirs| ensures dirs[k] in listed && IsDir(fs, dirs[k]) { VisitedDirIsListed(fs, listed, dirs[k]); }
  }

  /** A build that succeeds met only readable directories. */
  lemma {:induction false} BuildOkReadable(fs: Fs, dir: Path, maxDepth: Depth, depth: Depth)
    requires maxDepth < 255 && Build(fs, dir, maxDepth, depth).Ok?
    ensures Readable(fs, dir, maxDepth, depth)
    decreases 256 - depth
  {
    if depth <= maxDepth {
      var listed := ReadDir(fs, dir).value;
      var dirs := SortPaths(Dirs(fs, listed));
      BuildAllOkReadable(fs, dirs, maxDepth, depth + 1);
      forall q | q in listed && IsDir(fs, q) ensures Readable(fs, q, maxDepth, depth + 1) {
        ListedDirIsVisited(fs, listed, q);
      }
    }
  }

  lemma {:induction false} BuildAllOkReadable(fs: Fs, dirs: seq<Path>, maxDepth: Depth, depth: Depth)
    requires maxDepth < 255 && BuildAll(fs, dirs, maxDepth, depth).Ok?
    ensures forall k :: 0 <= k < |dirs| ==> Readable(fs, dirs[k], maxDepth, depth)
    decreases 257 - depth, |dirs|
  {
    if dirs != [] {
      BuildOkReadable(fs, dirs[0], maxDepth, depth);
      BuildAllOkReadable(fs, dirs[1..], maxDepth, depth);
      assert forall k :: 0 < k < |dirs| ==> dirs[k] == dirs[1..][k - 1];
    }
  }

  /** When every directory met is readable, the build succeeds. */
  lemma {:induction false} ReadableBuildOk(fs: Fs, dir: Path, maxDepth: Depth, depth: Depth)
    requires maxDepth < 255 && Readable(fs, dir, maxDepth, depth)
    ensures Build(fs, dir, maxDepth, depth).Ok?
    decreases 256 - depth
  {
    if depth <= maxDepth {
      ReadableSubdirs(fs, dir, maxDepth, depth);
      ReadableBuildAllOk(fs, SortPaths(Dirs(fs, ReadDir(fs, dir).value)), maxDepth, depth + 1);
    }
  }

  /** Within the bound, a readable directory is listed, and every subdirectory the builder recurses into is readable. */
  lemma ReadableSubdirs(fs: Fs, dir: Path, maxDepth: Depth, depth: Depth)
    requires depth <= maxDepth < 255 && Readable(fs, dir, maxDepth, depth)
    ensures ReadDir(fs, dir).Ok?
    ensures forall k :: 0 <= k < |SortPaths(Dirs(fs, ReadDir(fs, dir).value))| ==>
      Readable(fs, SortPaths(Dirs(fs, ReadDir(fs, dir).value))[k], maxDepth, depth + 1)
  {
    var listed := ReadDir(fs, dir).value;
    var dirs := SortPaths(Dirs(fs, listed));
    forall k | 0 <= k < |dirs| ensures Readable(fs, dirs[k], maxDepth, depth + 1) {
      VisitedDirIsListed(fs, listed, dirs[k]);
    }
  }

  lemma {:induction false} ReadableBuildAllOk(fs: Fs, dirs: seq<Path>, maxDepth: Depth, depth: Depth)
    requires maxDepth < 255 && forall k :: 0 <= k < |dirs| ==> Readable(fs, dirs[k], maxDepth, depth)
    ensures BuildAll(fs, dirs, maxDepth, depth).Ok?
    decreases 257 - depth, |dirs|
  {
    if dirs != [] {
      ReadableBuildOk(fs, dirs[0], maxDepth, depth);
      assert forall k :: 0 <= k < |dirs[1..]| ==> dirs[1..][k] == dirs[k + 1];
      ReadableBuildAllOk(fs, dirs[1..], maxDepth, depth);
    }
  }

  /**
   * All or nothing: the build succeeds exactly when every directory the walk
   * meets within the bound can be listed without an erroneous entry; one
   * failure anywhere fails the whole build.
   */
  lemma BuildOkIff(fs: Fs, dir: Path, maxDepth: Depth, depth: Depth)
    requires maxDepth < 255
    ensures Build(fs, dir, maxDepth, depth).Ok? <==> Readable(fs, dir, maxDepth, depth)
  {
    if Build(fs, dir, maxDepth, depth).Ok? {
      BuildOkReadable(fs, dir, maxDepth, depth);
    } else if Readable(fs, dir, maxDepth, depth) {
      ReadableBuildOk(fs, dir, maxDepth, depth);
    }
  }

  /**
   * The `for entry in fs::read_dir(directory)?` loop of `MapSnapshot::new`:
   * the listed subdirectories and regular files, in listing order, or the
   * first error.
   */
  method ReadLevel(fs: Fs, dir: Path) returns (r: Result<(seq<Path>, seq<Path>)>)
    ensures ReadDir(fs, dir).Err? ==> r == Err(ReadDir(fs, dir).error)
    ensures ReadDir(fs, dir).Ok? ==> r == Ok((Dirs(fs, ReadDir(fs, dir).value), Files(fs, ReadDir(fs, dir).value)))
  {
    if !IsDir(fs, dir) || !fs[dir].readable {
      return Err(ReadDirFailed(dir));
    }
    var items := fs[dir].items;
    var dirs: seq<Path> := [];
    var files: seq<Path> := [];
    ghost var listed: seq<Path> := [];
    for i := 0 to |items|
      invariant ItemPaths(dir, items[..i]) == Ok(listed)
      invariant dirs == Dirs(fs, listed) && files == Files(fs, listed)
    {
      ListingStep(dir, items, i, listed);
      match items[i]
      case BadItem =>
        return Err(EntryFailed(dir));
      case Item(name) =>
        var path := Join(dir, name);
        ClassifyStep(fs, listed, path);
        if IsDir(fs, path) {
          dirs := dirs + [path];
        } else if IsFile(fs, path) {
          files := files + [path];
        }
        listed := listed + [path];
    }
    assert items[..|items|] == items;
    return Ok((dirs, files));
  }

  /** The `for dir in dirs` loop of `MapSnapshot::new`, one recursive call per directory. */
  method NewAll(fs: Fs, dirs: seq<Path>, maxDepth: Depth, depth: Depth) returns (r: Result<seq<FsEntry>>)
    requires maxDepth < 255
    ensures r == BuildAll(fs, dirs, maxDepth, depth)
    decreases 257 - depth, 0, |dirs|
  {
    var children: seq<FsEntry> := [];
    for j := 0 to |dirs|
      invariant BuildAll(fs, dirs[..j], maxDepth, depth) == Ok(children)
    {
      var sub := New(fs, dirs[j], maxDepth, depth);
      BuildAllSplit(fs, dirs, j, maxDepth, depth);
      if sub.Err? {
        return Err(sub.error);
      }
      children := children + [Dir(sub.value)];
    }
    assert dirs[..|dirs|] == dirs;
    return Ok(children);
  }

  /** Build within the bound, once the listing succeeded. */
  lemma BuildExplored(fs: Fs, dir: Path, maxDepth: Depth, depth: Depth)
    requires depth <= maxDepth < 255 && ReadDir(fs, dir).Ok?
    ensures var listed := ReadDir(fs, dir).value;
      Build(fs, dir, maxDepth, depth) ==
        match BuildAll(fs, SortPaths(Dirs(fs, listed)), maxDepth, depth + 1)
        case Err(e) => Err(e)
        case Ok(subs) => Ok(MapSnapshot(dir, subs + FileEntries(SortPaths(Files(fs, listed))), depth))
  {
  }

  /** The `for file in files` loop of `MapSnapshot::new`. */
  method AppendFiles(subs: seq<FsEntry>, files: seq<Path>) returns (children: seq<FsEntry>)
    ensures children == subs + FileEntries(files)
  {
    children := subs;
    for j := 0 to |files|
      invariant children == subs + FileEntries(files[..j])
    {
      FileEntriesSnoc(files, j);
      children := children + [File(files[j])];
    }
    assert files[..|files|] == files;
  }

  /** `MapSnapshot::new`, step by step as the source does it. */
  method New(fs: Fs, dir: Path, maxDepth: Depth, depth: Depth) returns (r: Result<MapSnapshot>)
    requires maxDepth < 255
    ensures r == Build(fs, dir, maxDepth, depth)
    decreases 256 - depth, 2
  {
    if depth > maxDepth {
      return Ok(MapSnapshot(dir, [], depth));
    }
    var level := ReadLevel(fs, dir);
    if level.Err? {
      return Err(level.error);
    }
    BuildExplored(fs, dir, maxDepth, depth);
    r := NewLevel(fs, dir, maxDepth, depth, level.value.0, level.value.1);
  }

  /** The rest of `MapSnapshot::new` once the listing is read: sort each group, recurse into the directories, then append the files. */
  method NewLevel(fs: Fs, dir: Path, maxDepth: Depth, depth: Depth, dirs: seq<Path>, files: seq<Path>) returns (r: Result<MapSnapshot>)
    requires depth <= maxDepth < 255
    ensures r ==
      match BuildAll(fs, SortPaths(dirs), maxDepth, depth + 1)
      case Err(e) => Err(e)
      case Ok(subs) => Ok(MapSnapshot(dir, subs + FileEntries(SortPaths(files)), depth))
    decreases 256 - depth, 1
  {
    var sortedDirs := SortPaths(dirs);
    var sortedFiles := SortPaths(files);
    var subs := NewAll(fs, sortedDirs, maxDepth, depth + 1);
    if subs.Err? {
      return Err(subs.error);
    }
    var children := AppendFiles(subs.value, sortedFiles);
    return Ok(MapSnapshot(dir, children, depth));
  }
}
