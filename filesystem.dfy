/**
 * The filesystem the builder reads, as a value: what `fs::read_dir`,
 * `DirEntry::path`, `Path::is_dir` and `Path::is_file` report, with
 * symbolic links already resolved.
 */
module FileSystem {
  import opened Io
  import opened Paths

  /** One item of the `read_dir` iterator: an entry name, or an error. */
  datatype DirItem = Item(name: string) | BadItem

  /** What the operating system reports at a path. */
  datatype Inode =
    | RegularFile
      // `items` is the listing in whatever order the operating system returns it
    | Directory(readable: bool, items: seq<DirItem>)
      // a socket, device, fifo, ...: neither `is_dir` nor `is_file`
    | Special

  /** A path that is not in the map does not exist (or is a dangling link). */
  type Fs = map<Path, Inode>

  /** `path.is_dir()`. */
  predicate IsDir(fs: Fs, p: Path) {
    p in fs && fs[p].Directory?
  }

  /** `path.is_file()`. */
  predicate IsFile(fs: Fs, p: Path) {
    p in fs && fs[p].RegularFile?
  }

  predicate HasBadItem(items: seq<DirItem>) {
    exists i :: 0 <= i < |items| && items[i].BadItem?
  }

  /** `entry?` and `entry.path()` for each item of a listing, in order. */
  function ItemPaths(dir: Path, items: seq<DirItem>): (r: Result<seq<Path>>)
    ensures r.Err? <==> HasBadItem(items)
    ensures r.Err? ==> r.error == EntryFailed(dir)
    ensures r.Ok? ==> |r.value| == |items|
    ensures r.Ok? ==> forall i :: 0 <= i < |items| ==> r.value[i] == Join(dir, items[i].name)
  {
    if items == [] then Ok([])
    else if items[0].BadItem? then Err(EntryFailed(dir))
    else
      match ItemPaths(dir, items[1..])
      case Err(e) =>
        assert HasBadItem(items) by {
          var i :| 0 <= i < |items[1..]| && items[1..][i].BadItem?;
          assert items[i + 1].BadItem?;
        }
        Err(e)
      case Ok(rest) =>
        assert !HasBadItem(items) by {
          forall i | 0 <= i < |items| ensures !items[i].BadItem? {
            if i > 0 { assert items[1..][i - 1] == items[i]; }
          }
        }
        Ok([Join(dir, items[0].name)] + rest)
  }

  /**
   * `fs::read_dir(dir)` drained by the `for` loop: the entry paths in listing
   * order, or the error that aborts the build.
   */
  function ReadDir(fs: Fs, dir: Path): (r: Result<seq<Path>>)
    ensures r.Err? <==> !IsDir(fs, dir) || !fs[dir].readable || HasBadItem(fs[dir].items)
    ensures r.Err? ==> r.error == if IsDir(fs, dir) && fs[dir].readable then EntryFailed(dir) else ReadDirFailed(dir)
    ensures r.Ok? ==> |r.value| == |fs[dir].items|
    ensures r.Ok? ==> forall i :: 0 <= i < |r.value| ==> r.value[i] == Join(dir, fs[dir].items[i].name)
  {
    if !IsDir(fs, dir) || !fs[dir].readable then Err(ReadDirFailed(dir))
    else ItemPaths(dir, fs[dir].items)
  }

  /** The listed paths that `is_dir`, in listing order. */
  function Dirs(fs: Fs, paths: seq<Path>): seq<Path> {
    if paths == [] then []
    else (if IsDir(fs, paths[0]) then [paths[0]] else []) + Dirs(fs, paths[1..])
  }

  /** The listed paths that are not directories but `is_file`, in listing order. */
  function Files(fs: Fs, paths: seq<Path>): seq<Path> {
    if paths == [] then []
    else (if !IsDir(fs, paths[0]) && IsFile(fs, paths[0]) then [paths[0]] else []) + Files(fs, paths[1..])
  }

  /** The listed paths that are skipped: neither directories nor files. */
  function Skipped(fs: Fs, paths: seq<Path>): seq<Path> {
    if paths == [] then []
    else (if !IsDir(fs, paths[0]) && !IsFile(fs, paths[0]) then [paths[0]] else []) + Skipped(fs, paths[1..])
  }

  /** The directory group holds every listed directory, with its multiplicity. */
  lemma {:induction false} DirsClassified(fs: Fs, paths: seq<Path>)
    ensures forall p :: multiset(Dirs(fs, paths))[p] == if IsDir(fs, p) then multiset(paths)[p] else 0
  {
    if paths != [] {
      var h, t := paths[0], paths[1..];
      assert paths == [h] + t;
      DirsClassified(fs, t);
      var g := if IsDir(fs, h) then [h] else [];
      assert multiset(Dirs(fs, paths)) == multiset(g) + multiset(Dirs(fs, t));
      assert multiset(paths) == multiset{h} + multiset(t);
    }
  }

  /** The file group holds every listed regular file, with its multiplicity. */
  lemma {:induction false} FilesClassified(fs: Fs, paths: seq<Path>)
    ensures forall p :: multiset(Files(fs, paths))[p] == if IsFile(fs, p) then multiset(paths)[p] else 0
  {
    if paths != [] {
      var h, t := paths[0], paths[1..];
      assert paths == [h] + t;
      FilesClassified(fs, t);
      var g := if !IsDir(fs, h) && IsFile(fs, h) then [h] else [];
      assert multiset(Files(fs, paths)) == multiset(g) + multiset(Files(fs, t));
      assert multiset(paths) == multiset{h} + multiset(t);
    }
  }

  /** The skipped group holds every listed path that is neither. */
  lemma {:induction false} SkippedClassified(fs: Fs, paths: seq<Path>)
    ensures forall p :: multiset(Skipped(fs, paths))[p] == if !IsDir(fs, p) && !IsFile(fs, p) then multiset(paths)[p] else 0
  {
    if paths != [] {
      var h, t := paths[0], paths[1..];
      assert paths == [h] + t;
      SkippedClassified(fs, t);
      var g := if !IsDir(fs, h) && !IsFile(fs, h) then [h] else [];
      assert multiset(Skipped(fs, paths)) == multiset(g) + multiset(Skipped(fs, t));
      assert multiset(paths) == multiset{h} + multiset(t);
    }
  }

  /** Every listed path lands in exactly one of the three groups. */
  lemma ClassificationPartitions(fs: Fs, paths: seq<Path>)
    ensures multiset(Dirs(fs, paths)) + multiset(Files(fs, paths)) + multiset(Skipped(fs, paths)) == multiset(paths)
    ensures |Dirs(fs, paths)| + |Files(fs, paths)| + |Skipped(fs, paths)| == |paths|
  {
    DirsClassified(fs, paths);
    FilesClassified(fs, paths);
    SkippedClassified(fs, paths);
    var d, f, k := multiset(Dirs(fs, paths)), multiset(Files(fs, paths)), multiset(Skipped(fs, paths));
    assert d + f + k == multiset(paths) by {
      forall p ensures (d + f + k)[p] == multiset(paths)[p] { }
    }
    assert |d + f + k| == |d| + |f| + |k|;
  }

  /** A single good entry yields the one joined path. */
  lemma ItemPathsSingle(dir: Path, name: string)
    ensures ItemPaths(dir, [Item(name)]) == Ok([Join(dir, name)])
  {
    assert !HasBadItem([Item(name)]);
    assert [Item(name)][1..] == [];
    assert [Join(dir, name)] + [] == [Join(dir, name)];
  }

  /** Concatenated listings hold a bad item exactly when one of the parts does. */
  lemma BadItemAppend(a: seq<DirItem>, b: seq<DirItem>)
    ensures HasBadItem(a + b) <==> HasBadItem(a) || HasBadItem(b)
  {
    if HasBadItem(a) {
      var i :| 0 <= i < |a| && a[i].BadItem?;
      assert (a + b)[i].BadItem?;
    } else if HasBadItem(b) {
      var i :| 0 <= i < |b| && b[i].BadItem?;
      assert (a + b)[|a| + i].BadItem?;
    } else {
      forall i | 0 <= i < |a + b| ensures !(a + b)[i].BadItem? {
        if i < |a| { assert (a + b)[i] == a[i]; } else { assert (a + b)[i] == b[i - |a|]; }
      }
    }
  }

  /** Reading a listing in two parts reads it whole. */
  lemma ItemPathsAppend(dir: Path, a: seq<DirItem>, b: seq<DirItem>)
    ensures ItemPaths(dir, a + b) ==
      if ItemPaths(dir, a).Ok? && ItemPaths(dir, b).Ok?
      then Ok(ItemPaths(dir, a).value + ItemPaths(dir, b).value)
      else Err(EntryFailed(dir))
  {
    BadItemAppend(a, b);
    if ItemPaths(dir, a).Ok? && ItemPaths(dir, b).Ok? {
      var r, pa, pb := ItemPaths(dir, a + b).value, ItemPaths(dir, a).value, ItemPaths(dir, b).value;
      forall i | 0 <= i < |a + b| ensures r[i] == (pa + pb)[i] {
        if i < |a| { assert (a + b)[i] == a[i]; } else { assert (a + b)[i] == b[i - |a|]; }
      }
      assert r == pa + pb;
    }
  }

  /** One more item of the listing: an error fails the whole listing, an entry adds its path. */
  lemma ListingStep(dir: Path, items: seq<DirItem>, i: nat, listed: seq<Path>)
    requires i < |items| && ItemPaths(dir, items[..i]) == Ok(listed)
    ensures items[i].BadItem? ==> ItemPaths(dir, items) == Err(EntryFailed(dir))
    ensures items[i].Item? ==> ItemPaths(dir, items[..i + 1]) == Ok(listed + [Join(dir, items[i].name)])
  {
    if items[i].BadItem? {
      assert HasBadItem(items);
    } else {
      assert items[..i + 1] == items[..i] + [items[i]];
      ItemPathsAppend(dir, items[..i], [items[i]]);
      ItemPathsSingle(dir, items[i].name);
    }
  }

  /** One more listed path: it joins the directory group, the file group, or neither. */
  lemma ClassifyStep(fs: Fs, listed: seq<Path>, p: Path)
    ensures Dirs(fs, listed + [p]) == Dirs(fs, listed) + (if IsDir(fs, p) then [p] else [])
    ensures Files(fs, listed + [p]) == Files(fs, listed) + (if !IsDir(fs, p) && IsFile(fs, p) then [p] else [])
  {
    DirsAppend(fs, listed, [p]);
    FilesAppend(fs, listed, [p]);
    assert [p][1..] == [];
    assert Dirs(fs, [p]) == (if IsDir(fs, p) then [p] else []) + [];
    assert Files(fs, [p]) == (if !IsDir(fs, p) && IsFile(fs, p) then [p] else []) + [];
  }

  lemma {:induction false} DirsAppend(fs: Fs, a: seq<Path>, b: seq<Path>)
    ensures Dirs(fs, a + b) == Dirs(fs, a) + Dirs(fs, b)
    decreases |a|
  {
    if a == [] {
      assert a + b == b;
    } else {
      assert (a + b)[0] == a[0] && (a + b)[1..] == a[1..] + b;
      DirsAppend(fs, a[1..], b);
    }
  }

  lemma {:induction false} FilesAppend(fs: Fs, a: seq<Path>, b: seq<Path>)
    ensures Files(fs, a + b) == Files(fs, a) + Files(fs, b)
    decreases |a|
  {
    if a == [] {
      assert a + b == b;
    } else {
      assert (a + b)[0] == a[0] && (a + b)[1..] == a[1..] + b;
      FilesAppend(fs, a[1..], b);
    }
  }
}
