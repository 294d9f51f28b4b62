/**
 * A small concrete tree: directory `a` holds a file `y`, a subdirectory `b`
 * with one file `x`, and a socket `s`, listed in that (unsorted) order.
 */
module Examples {
  import opened Io
  import opened Paths
  import opened FileSystem
  import opened Snapshot
  import opened Printer

  function Tree(): Fs {
    map[
      "a" := Directory(true, [Item("y"), Item("b"), Item("s")]),
      "a/b" := Directory(true, [Item("x")]),
      "a/b/x" := RegularFile,
      "a/y" := RegularFile,
      "a/s" := Special
    ]
  }

  /** Entry paths are the directory, a separator and the name. */
  lemma TreeJoins()
    ensures Join("a", "y") == "a/y" && Join("a", "b") == "a/b" && Join("a", "s") == "a/s"
    ensures Join("a/b", "x") == "a/b/x"
  {
    assert JoinPrefix("a") == "a/";
    assert JoinPrefix("a/b") == "a/b/";
  }

  /** `a` lists as `a/y`, `a/b`, `a/s`, and `a/b` as `a/b/x`. */
  lemma TreeListings()
    ensures ReadDir(Tree(), "a") == Ok(["a/y", "a/b", "a/s"])
    ensures ReadDir(Tree(), "a/b") == Ok(["a/b/x"])
  {
    TreeJoins();
    ItemPathsSingle("a", "s");
    ItemPathsSingle("a/b", "x");
    var items := [Item("y"), Item("b"), Item("s")];
    assert items[1..] == [Item("b"), Item("s")] && items[1..][1..] == [Item("s")];
    assert ItemPaths("a", items[1..]) == Ok(["a/b", "a/s"]) by {
      assert ["a/b"] + ["a/s"] == ["a/b", "a/s"];
    }
    assert ["a/y"] + ["a/b", "a/s"] == ["a/y", "a/b", "a/s"];
  }

  /** `a/b` is the only directory in `a` and `a/y` its only file; the socket is dropped. */
  lemma TreeKinds()
    ensures Dirs(Tree(), ["a/y", "a/b", "a/s"]) == ["a/b"]
    ensures Files(Tree(), ["a/y", "a/b", "a/s"]) == ["a/y"]
    ensures Dirs(Tree(), ["a/b/x"]) == []
    ensures Files(Tree(), ["a/b/x"]) == ["a/b/x"]
  {
    var fs := Tree();
    assert IsFile(fs, "a/y") && !IsDir(fs, "a/y");
    assert IsDir(fs, "a/b");
    assert !IsFile(fs, "a/s") && !IsDir(fs, "a/s");
    assert IsFile(fs, "a/b/x") && !IsDir(fs, "a/b/x");
    assert ["a/y", "a/b", "a/s"][1..] == ["a/b", "a/s"];
    assert ["a/b", "a/s"][1..] == ["a/s"];
  }

  lemma SortSingle(p: Path)
    ensures SortPaths([p]) == [p]
  {
    assert [p][1..] == [];
  }

  lemma FileEntriesSingle(p: Path)
    ensures FileEntries([p]) == [File(p)]
  {
  }

  /** `a/b` explored: its one file and no subdirectory. */
  lemma SubSnapshot(maxDepth: Depth)
    requires 1 <= maxDepth < 255
    ensures Build(Tree(), "a/b", maxDepth, 1) == Ok(MapSnapshot("a/b", [File("a/b/x")], 1))
  {
    TreeListings();
    TreeKinds();
    BuildExplored(Tree(), "a/b", maxDepth, 1);
    assert SortPaths([]) == [];
    SortSingle("a/b/x");
    FileEntriesSingle("a/b/x");
    assert [] + [File("a/b/x")] == [File("a/b/x")];
  }

  /** What the builder makes of the listing of `a`: one directory to recurse into, one file to append. */
  lemma TopGroups()
    ensures ReadDir(Tree(), "a").Ok?
    ensures SortPaths(Dirs(Tree(), ReadDir(Tree(), "a").value)) == ["a/b"]
    ensures FileEntries(SortPaths(Files(Tree(), ReadDir(Tree(), "a").value))) == [File("a/y")]
  {
    TreeListings();
    TreeKinds();
    SortSingle("a/b");
    SortSingle("a/y");
    FileEntriesSingle("a/y");
  }

  /** The directory comes before the file although it is listed after it. */
  lemma TreeSnapshot()
    ensures Build(Tree(), "a", 10, 0) ==
      Ok(MapSnapshot("a", [Dir(MapSnapshot("a/b", [File("a/b/x")], 1)), File("a/y")], 0))
  {
    TopGroups();
    BuildExplored(Tree(), "a", 10, 0);
    SubSnapshot(10);
    BuildAllSingle(Tree(), "a/b", 10, 1);
    var b := MapSnapshot("a/b", [File("a/b/x")], 1);
    assert [Dir(b)] + [File("a/y")] == [Dir(b), File("a/y")];
  }

  /** With `max_depth` 0 the subdirectory is still recorded, but not listed. */
  lemma TreeTruncated()
    ensures Build(Tree(), "a", 0, 0) ==
      Ok(MapSnapshot("a", [Dir(MapSnapshot("a/b", [], 1)), File("a/y")], 0))
  {
    TopGroups();
    BuildExplored(Tree(), "a", 0, 0);
    BuildAllSingle(Tree(), "a/b", 0, 1);
    var b := MapSnapshot("a/b", [], 1);
    assert [Dir(b)] + [File("a/y")] == [Dir(b), File("a/y")];
  }

  lemma LineTexts()
    ensures LineText(0, "a") == "a\n"
    ensures LineText(1, "a/b") == "\ta/b\n"
    ensures LineText(1, "a/y") == "\ta/y\n"
    ensures LineText(2, "a/b/x") == "\t\ta/b/x\n"
  {
    assert Tabs(0) == "" && Tabs(1) == "\t" && Tabs(2) == "\t\t";
  }

  /** `a/b` prints as its own line and its file's line, one tab deeper. */
  lemma SubOutput()
    ensures Render(MapSnapshot("a/b", [File("a/b/x")], 1)) == "\ta/b\n" + "\t\ta/b/x\n"
  {
    LineTexts();
    var b := MapSnapshot("a/b", [File("a/b/x")], 1);
    assert RenderUpTo(b, 0) == "";
    assert RenderUpTo(b, 1) == "\t\ta/b/x\n";
  }

  /** The printed text of the full snapshot: pre-order, one line per node, indented by depth. */
  lemma TreeOutput()
    ensures Render(MapSnapshot("a", [Dir(MapSnapshot("a/b", [File("a/b/x")], 1)), File("a/y")], 0)) ==
      "a\n" + "\ta/b\n" + "\t\ta/b/x\n" + "\ta/y\n"
  {
    LineTexts();
    SubOutput();
    var b := MapSnapshot("a/b", [File("a/b/x")], 1);
    var s := MapSnapshot("a", [Dir(b), File("a/y")], 0);
    assert RenderUpTo(s, 0) == "";
    assert RenderUpTo(s, 1) == Render(b);
    assert RenderUpTo(s, 2) == Render(b) + "\ta/y\n";
  }

  /** The printed text of the truncated snapshot: `a/b` appears, with nothing under it. */
  lemma TruncatedOutput()
    ensures Render(MapSnapshot("a", [Dir(MapSnapshot("a/b", [], 1)), File("a/y")], 0)) == "a\n" + "\ta/b\n" + "\ta/y\n"
  {
    LineTexts();
    var s := MapSnapshot("a", [Dir(MapSnapshot("a/b", [], 1)), File("a/y")], 0);
    assert Render(MapSnapshot("a/b", [], 1)) == "\ta/b\n";
    assert RenderUpTo(s, 1) == "\ta/b\n";
    assert RenderUpTo(s, 2) == "\ta/b\n" + "\ta/y\n";
  }

  /** One unreadable subdirectory fails the whole build. */
  lemma TreeUnreadable()
    ensures Build(Tree()["a/b" := Directory(false, [Item("x")])], "a", 10, 0) == Err(ReadDirFailed("a/b"))
  {
    var fs := Tree()["a/b" := Directory(false, [Item("x")])];
    TreeListings();
    TreeKinds();
    assert ReadDir(fs, "a") == ReadDir(Tree(), "a");
    assert Dirs(fs, ["a/y", "a/b", "a/s"]) == ["a/b"] by {
      assert ["a/y", "a/b", "a/s"][1..] == ["a/b", "a/s"];
      assert ["a/b", "a/s"][1..] == ["a/s"];
      assert IsDir(fs, "a/b") && !IsDir(fs, "a/y") && !IsDir(fs, "a/s");
      assert Dirs(fs, ["a/s"]) == [];
      assert Dirs(fs, ["a/b", "a/s"]) == ["a/b"];
    }
    BuildExplored(fs, "a", 10, 0);
    SortSingle("a/b");
    assert Build(fs, "a/b", 10, 1) == Err(ReadDirFailed("a/b"));
    BuildAllSingle(fs, "a/b", 10, 1);
  }

  /** An empty directory prints as its own single line. */
  lemma EmptyDirectory(dir: Path)
    ensures Build(map[dir := Directory(true, [])], dir, 10, 0) == Ok(MapSnapshot(dir, [], 0))
    ensures Render(MapSnapshot(dir, [], 0)) == dir + "\n"
  {
    var fs := map[dir := Directory(true, [])];
    assert ReadDir(fs, dir) == Ok([]);
    BuildExplored(fs, dir, 10, 0);
    assert SortPaths(Dirs(fs, [])) == [] && SortPaths(Files(fs, [])) == [];
    assert [] + FileEntries([]) == [];
    assert Tabs(0) + dir == dir;
    var line := LineText(0, dir);
    assert line + "" == line;
  }
}
