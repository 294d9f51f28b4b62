# DirectoryMapping, modelled in Dafny

DirectoryMapping is a small command-line tool. It walks a directory tree up to a depth bound and builds an in-memory snapshot of it, a `MapSnapshot`. It then prints the snapshot as an indented outline: one line per directory or regular file (for paths without a newline character), each line indented by its depth with tab characters. Inside every directory the subdirectories come first, then the files, and each group is in ascending path order.

The project models the two operations of `MapSnapshot` in `src/main.rs` and proves what they promise.

- **`MapSnapshot::new`** is the builder.
  - It truncates below the depth bound and lists each directory.
  - It keeps subdirectories and regular files and drops everything else.
  - It sorts each group, recurses into the subdirectories, then appends the files.
  - Any listing error aborts the whole build.

  `Snapshot.New` is the step-by-step method, written as the source is: a loop over the listing, a loop over the directories and a loop over the files. It is proved equal to the pure reference `Snapshot.Build`. Everything the builder promises is proved as lemmas about `Build`.

- **`MapSnapshot::print`** is the printer. It writes tabs and lines to a writer, stopping at the first failed write.
  - `Printer.Writer` is a class whose `written` text the methods extend.
  - `Printer.Print` is proved to write exactly the pure rendering `Printer.Render`, or a prefix of it when a write fails.
  - `Render` is in turn proved equal to an independent pre-order description of the tree, `Printer.Preorder`, for every snapshot whose nested depths follow the tree (`Printer.NestedDepths`). Every built snapshot is one (`Printer.WellFormedNested`, `Printer.BuiltOutput`).

Modules:

- Io: the `u8` depth (`Depth`, 0..255), the errors, and `Result`.
- Seqs: shared facts about concatenation and prefixes.
- Paths:
  - path joining (`DirEntry::path`);
  - the order `Vec<PathBuf>::sort` uses, and the sort itself, proved sorted, a permutation and unique.
- FileSystem:
  - the filesystem as a value, a map from path to inode;
  - `read_dir` with its two error points;
  - the `is_dir` / `is_file` classification.
- Snapshot: the snapshot datatypes, the builder and its properties.
- Printer: the rendering, the pre-order reference, the writer and the printing methods.
- Examples: one concrete tree, across builds, truncation, errors and output.

Truncation records every subdirectory of a node at the bound as a childless node one level deeper (`src/main.rs:20-26`); such a directory is not omitted. `Examples.TreeTruncated` and `Examples.TruncatedOutput` show it.

## Model

| member | source | states |
|---|---|---|
| FileSystem.IsDir | src/main.rs:36 | `path.is_dir()`: the path is in the map and names a directory |
| FileSystem.IsFile | src/main.rs:38 | `path.is_file()`: the path is in the map and names a regular file |
| FileSystem.Dirs | src/main.rs:36-37 | The `if path.is_dir()` branch over the whole listing: the listed paths that are directories, in listing order |
| FileSystem.Files | src/main.rs:38-39 | The `else if path.is_file()` branch over the whole listing: the listed paths that are not directories but regular files, in listing order |
| FileSystem.ItemPaths | src/main.rs:33-35 | Draining the `read_dir` iterator fails exactly when some item is an error, and then with that directory's entry error; otherwise it yields one path per item, in listing order, each the directory joined with the entry name |
| FileSystem.ReadDir | src/main.rs:33-35 | Listing fails with a read-dir error exactly when the path is not a readable directory, fails with an entry error when the listing holds a bad item, and otherwise yields the joined paths of all items in listing order |
| FileSystem.ListingStep | src/main.rs:33-35 | One more iteration of the listing loop: a bad item fails the whole listing, a good item appends its joined path |
| FileSystem.ClassifyStep | src/main.rs:36-40 | One more listed path is appended to the directory group if it `is_dir`, else to the file group if it `is_file`, else to neither |
| FileSystem.DirsClassified | src/main.rs:36-37 | The directory group holds every listed path that is a directory, with its multiplicity, and nothing else |
| FileSystem.FilesClassified | src/main.rs:38-39 | The file group holds every listed path that is a regular file, with its multiplicity, and nothing else |
| FileSystem.SkippedClassified | src/main.rs:36-41 | The paths the `if`/`else if` drops are exactly those that are neither directories nor regular files |
| FileSystem.ClassificationPartitions | src/main.rs:36-41 | Directories, files and skipped paths partition the listing: their multisets add up to it and their lengths to its length |
| FileSystem.DirsAppend | src/main.rs:36-37 | Classifying a listing in two parts gives the concatenation of the parts' directory groups |
| FileSystem.FilesAppend | src/main.rs:38-39 | Classifying a listing in two parts gives the concatenation of the parts' file groups |
| FileSystem.ItemPathsAppend | src/main.rs:33-35 | Reading a listing in two parts succeeds exactly when both parts do, and then gives the concatenated paths |
| FileSystem.BadItemAppend | src/main.rs:34 | A concatenated listing holds an error item exactly when one of its parts does |
| Paths.JoinPrefix | src/main.rs:35 | What `entry.path()` puts before the entry name: the directory, followed by a separator unless it is empty or already ends in one |
| Paths.Join | src/main.rs:35 | `entry.path()`: the directory's prefix followed by the entry name |
| Paths.LexLe | src/main.rs:44-45 | The order the model sorts with: code-point lexicographic order, the empty string least; it agrees with `Path`'s order on siblings (`Paths.SiblingOrder`) |
| Paths.Insert | src/main.rs:44-45 | One insertion step: `x` goes in front of the first element that is not below it |
| Paths.SortPaths | src/main.rs:44-45 | `dirs.sort()` / `files.sort()`: insertion sort by `LexLe` |
| Paths.LexLeRefl | src/main.rs:44-45 | The path order is reflexive |
| Paths.LexLeTotal | src/main.rs:44-45 | The path order is total |
| Paths.LexLeAntisymmetric | src/main.rs:44-45 | The path order is antisymmetric |
| Paths.LexLeTransitive | src/main.rs:44-45 | The path order is transitive |
| Paths.LexLeCommonPrefix | src/main.rs:44-45 | Paths with a common prefix compare as their remainders do |
| Paths.SiblingOrder | src/main.rs:44-45 | Sorting the full paths of one directory's entries sorts them by entry name |
| Paths.InsertPermutes | src/main.rs:44-45 | One insertion step adds exactly the inserted path |
| Paths.InsertSorts | src/main.rs:44-45 | Inserting into a sorted sequence keeps it sorted |
| Paths.SortPathsSorted | src/main.rs:44-45 | `sort` yields an ascending sequence |
| Paths.SortPathsPermutes | src/main.rs:44-45 | `sort` yields a permutation of its input |
| Paths.SortPathsSorts | src/main.rs:44-45 | `sort` yields an ascending permutation of its input |
| Paths.SortedIsUnique | src/main.rs:44-45 | Two ascending sequences with the same elements are equal, so every correct sort gives the same result |
| Paths.SortedHeadLeast | src/main.rs:44-45 | The head of an ascending sequence is below each of its elements |
| Paths.SortedCons | src/main.rs:44-45 | A head below every element of an ascending tail gives an ascending sequence |
| Snapshot.Build | src/main.rs:18-60 | The reference for `new`: a successful result is a snapshot of the given directory at the given depth; past the bound the result is always a childless snapshot and never an error |
| Snapshot.BuildAll | src/main.rs:47-49 | The recursion loop yields, on success, one directory entry per directory, in order, each a snapshot of that directory one level deeper |
| Snapshot.New | src/main.rs:18-60 | The step-by-step builder returns exactly what the reference `Build` returns, error or snapshot |
| Snapshot.ReadLevel | src/main.rs:33-41 | The listing loop returns the listing's error, or the directory group and the file group in listing order |
| Snapshot.NewLevel | src/main.rs:43-59 | After listing: both groups sorted, the directories built in order (or the first error), then the files appended |
| Snapshot.NewAll | src/main.rs:47-49 | The recursion loop returns exactly what `BuildAll` returns |
| Snapshot.AppendFiles | src/main.rs:51-53 | The file loop appends one file entry per sorted file path, in order, after the directory entries |
| Snapshot.FileEntries | src/main.rs:51-53 | The `for file in files` loop's entries: one file entry per path, in order, so their paths are exactly the given paths |
| Snapshot.FileEntriesSnoc | src/main.rs:51-53 | One more iteration of the file loop appends that file's entry |
| Snapshot.BuildExplored | src/main.rs:28-59 | Unfolds `Build`'s definition: within the bound, after a successful listing, the result is the sorted directory snapshots followed by the sorted files, or the first error |
| Snapshot.BuildLevel | src/main.rs:33-59 | Unfolds `Build`'s definition: a successful build within the bound listed its directory, and its children are the directory snapshots followed by the file entries |
| Snapshot.BuildWellFormed | src/main.rs:18-60 | Every built snapshot is well formed at every level: nodes past the bound have no children, directories come before files, each group is ascending, and every nested snapshot is exactly one level deeper |
| Snapshot.LevelWellFormed | src/main.rs:43-59 | A level made from well-formed subdirectory snapshots of the sorted directories, followed by the sorted files, is well formed |
| Snapshot.AssembledWellFormed | src/main.rs:43-59 | Sorted directory snapshots followed by sorted file entries form a grouped, sorted, well-formed level |
| Snapshot.BuildAllWellFormed | src/main.rs:47-49 | The recursion loop yields well-formed snapshots of the directories, in order, at the next depth |
| Snapshot.ExploredLevel | src/main.rs:33-53 | An explored level's child paths are the sorted directories followed by the sorted files. Nothing listed is lost and nothing is added apart from the skipped kinds: the child count is the number of directories plus files. A child is a directory entry exactly when its path is a directory, and a file entry exactly when it is a regular file |
| Snapshot.AssembledPaths | src/main.rs:47-53 | The child paths of an assembled level are the directories followed by the files, the first group being the directory entries |
| Snapshot.SortedGroupsClassified | src/main.rs:36-45 | After sorting, the directory group holds directories only and the file group regular files only, with their total contents unchanged |
| Snapshot.LevelKinds | src/main.rs:36-53 | Each child's entry kind agrees with what the filesystem reports for its path |
| Snapshot.TruncationReadsNothing | src/main.rs:20-26 | Past the bound the result does not depend on the filesystem at all: a childless snapshot of the directory at its depth |
| Snapshot.DepthBound | src/main.rs:20-48 | In a well-formed snapshot started within the bound, no node is deeper than the bound plus one |
| Snapshot.ListedDirIsVisited | src/main.rs:36-49 | Every listed directory is among those the builder recurses into |
| Snapshot.VisitedDirIsListed | src/main.rs:36-49 | The builder recurses only into listed directories |
| Snapshot.BuildAllOk | src/main.rs:47-49 | The recursion loop succeeds exactly when every directory builds, and then holds each one's snapshot at its position |
| Snapshot.BuildAllErr | src/main.rs:47-49 | A failed recursion loop fails with the error of the first directory that does not build, all earlier ones having built |
| Snapshot.BuildAllAppend | src/main.rs:47-49 | Running the loop over two consecutive parts gives the concatenated snapshots, or the first error |
| Snapshot.BuildAllSplit | src/main.rs:47-49 | One more iteration of the loop: a failing directory fails the loop with its error, a succeeding one appends its snapshot |
| Snapshot.BuildAllSingle | src/main.rs:47-49 | The loop over one directory yields its snapshot or its error |
| Snapshot.BuildOkStep | src/main.rs:33-48 | Unfolds `Build`'s definition: within the bound, a build succeeds exactly when the listing and the recursion loop do |
| Snapshot.SubdirsOk | src/main.rs:47-49 | The recursion loop succeeds exactly when every listed subdirectory builds |
| Snapshot.BuildOkReadable | src/main.rs:33-48 | A successful build met only listable directories within the bound |
| Snapshot.BuildAllOkReadable | src/main.rs:47-49 | A successful recursion loop met only listable directories |
| Snapshot.ReadableBuildOk | src/main.rs:33-48 | When every directory within the bound can be listed, the build succeeds |
| Snapshot.ReadableSubdirs | src/main.rs:33-48 | Within the bound, a readable directory lists, and every subdirectory the builder recurses into is readable |
| Snapshot.ReadableBuildAllOk | src/main.rs:47-49 | A loop over readable directories succeeds |
| Snapshot.BuildOkIff | src/main.rs:33-48 | All or nothing: the build succeeds exactly when every directory the walk meets within the bound lists without an error; one failure anywhere fails it |
| Printer.Tabs | src/main.rs:64-66 | The indentation is exactly `n` characters, all tabs |
| Printer.LineText | src/main.rs:64-68 | One printed line: `indent` tabs, the path, a newline |
| Printer.Render | src/main.rs:62-83 | What `print` writes: the directory's line with `depth` tabs, then each child in order |
| Printer.RenderUpTo | src/main.rs:70-80 | What the children loop writes for the first `k` children, in order |
| Printer.RenderChild | src/main.rs:71-78 | One child: a subdirectory renders itself, a file is one line with `depth + 1` tabs |
| Printer.RenderUpToPrefix | src/main.rs:70-80 | The children loop's output only grows: the output for fewer children is a prefix of the output for more |
| Printer.Preorder | src/main.rs:62-83 | The reference line list has one line per node, starts with the directory's own line at the given level, and indents no line less than that level |
| Printer.PreorderUpTo | src/main.rs:70-80 | The lines of the first `k` children number their nodes and are all strictly deeper than the parent |
| Printer.PreorderChild | src/main.rs:71-78 | A child's lines are its subtree's nodes for a directory, or one line for a file, all deeper than the parent |
| Printer.PreorderUpToPrefix | src/main.rs:70-80 | The reference lines for fewer children are a prefix of those for more |
| Printer.PreorderLayout | src/main.rs:70-80 | The lines of child `k`, its whole subtree for a directory, sit right after the root's line and the lines of the earlier children |
| Printer.RenderIsPreorder | src/main.rs:62-83 | Printing writes the pre-order list of the nodes, one line each, indented by tree level |
| Printer.RenderUpToIsPreorder | src/main.rs:70-80 | The children loop writes the pre-order lines of the first `k` children |
| Printer.RenderChildIsPreorder | src/main.rs:71-78 | A directory child prints its subtree in pre-order; a file child prints its single line one tab deeper than the parent |
| Printer.TextAppend | src/main.rs:70-80 | Helper for `RenderIsPreorder`: the text of two line lists is the concatenation of their texts |
| Printer.TextSingle | src/main.rs:64-68 | The text of one line is its tabs, its path and a newline |
| Printer.WellFormedNested | src/main.rs:48 | In a built snapshot, every nested snapshot's depth is its parent's plus one, all the way down, so printed indentation is the tree level |
| Printer.WellFormedChild | src/main.rs:48 | A subdirectory of a well-formed snapshot is well formed, one level deeper, and its parent lies within the bound |
| Printer.LineTextCount | src/main.rs:64-68 | A line for a newline-free path holds exactly one newline |
| Printer.CountAppend | src/main.rs:62-83 | Helper for `RenderLineCount`: newline counts add up over concatenated output |
| Printer.CountAbsent | src/main.rs:64-68 | Helper for `RenderLineCount`: text without newlines has a count of zero |
| Printer.RenderLineCount | src/main.rs:62-83 | For paths without a newline character, one line per node: the printed text holds as many newlines as the snapshot has nodes |
| Printer.RenderUpToLineCount | src/main.rs:70-80 | For paths without a newline character, the children loop writes one line per node of the first `k` children |
| Printer.IndentBound | src/main.rs:64-77 | A snapshot built with bound M never prints a line with more than M + 1 tabs |
| Printer.IndentBoundUpTo | src/main.rs:70-80 | The same bound for the lines of the first `k` children |
| Printer.IndentBoundChild | src/main.rs:71-78 | The same bound for one child's lines |
| Printer.WellFormedPrintSafe | src/main.rs:74 | For a snapshot built with a bound below 255, `self.depth + 1` cannot overflow `u8` anywhere while printing |
| Printer.BuiltOutput | src/main.rs:101-105 | For the root build at depth 0: printing cannot overflow, the output is the pre-order list with the root unindented, and no line has more than M + 1 tabs |
| Printer.Writer.constructor | src/main.rs:104 | A fresh output file holds nothing yet |
| Printer.Writer.Write | src/main.rs:65 | A write succeeds exactly when the text fits, and then appends all of it; otherwise it fails with a write error and appends nothing |
| Printer.WriteLine | src/main.rs:64-68 | `indent` tabs and then the path line: succeeds exactly when the whole line fits, and then appends it; on failure the writer holds a prefix of it |
| Printer.Print | src/main.rs:62-83 | `print` succeeds exactly when the whole rendering fits, and then appends exactly `Render(s)`; on the first failed write it stops with a write error, having written a prefix of it |
| Printer.PrintChild | src/main.rs:71-79 | One child: a subdirectory prints recursively, a file is one line one tab deeper; success or a prefix under the same terms |
| Examples.TreeJoins | src/main.rs:35 | Entry paths in the example are the directory, a separator and the name |
| Examples.TreeListings | src/main.rs:33-35 | The example directories list their entries in filesystem order |
| Examples.TreeKinds | src/main.rs:36-40 | The example's subdirectory and file are classified, and its socket is dropped |
| Examples.SubSnapshot | src/main.rs:18-60 | The example subdirectory builds to its single file |
| Examples.TopGroups | src/main.rs:36-45 | The example root has one directory to recurse into and one file to append |
| Examples.TreeSnapshot | src/main.rs:18-60 | With bound 10, the subdirectory comes before the file although it is listed after it |
| Examples.TreeTruncated | src/main.rs:20-26 | With bound 0, the subdirectory is recorded one level deeper with no children |
| Examples.SubOutput | src/main.rs:62-83 | The example subdirectory prints its own line and its file's line one tab deeper |
| Examples.TreeOutput | src/main.rs:62-83 | The example tree prints as `a`, a tab and `a/b`, two tabs and `a/b/x`, a tab and `a/y` |
| Examples.TruncatedOutput | src/main.rs:62-83 | The truncated tree prints `a/b` with nothing under it |
| Examples.TreeUnreadable | src/main.rs:33-48 | One unreadable subdirectory fails the whole build with that directory's error |
| Examples.EmptyDirectory | src/main.rs:18-83 | An empty directory builds to a childless snapshot and prints as its single line |
| Examples.LineTexts | src/main.rs:64-68 | The example lines' texts, tabs included |
| Examples.SortSingle | src/main.rs:44-45 | Sorting one path leaves it |
| Examples.FileEntriesSingle | src/main.rs:51-53 | One file path gives one file entry |

## Left out

- `main` (`src/main.rs:86-108`) is not modelled. That covers command-line parsing, the current-directory fallback, the default bound 10, `parse().unwrap_or(0)`, and creating `output.txt`. It is process glue around `new` and `print`; `Printer.BuiltOutput` states what it gets from them.
- Operating-system calls are not modelled; the filesystem is a value (`FileSystem.Fs`). `read_dir`, `is_dir` and `is_file` read that map. Symbolic links count as already resolved, so the map shows what `is_dir` / `is_file` see through them. A directory changing during the walk, and concurrency in general, are not modelled.
- `to_string_lossy` is the identity: paths are modelled as strings, so invalid UTF-8 and its replacement character are not represented.
- Printer.RenderLineCount: requires `PathsPrintable`, that no path contains a newline character. Names are printed unescaped (`src/main.rs:68`, `src/main.rs:77`), so a path with a newline prints over several lines, as the source does, and the one-line-per-node count does not hold for it. `Printer.RenderUpToLineCount` shares the precondition.
- Paths.SortPaths: the sort is a pure insertion sort, not the in-place `Vec::sort`. `Paths.SortedIsUnique` shows that every correct sort gives this result. The order is code-point order on the whole path string. `Path`'s own `Ord` compares component by component; the two agree on siblings whose names have no separator (`Paths.SiblingOrder`), which is all the builder ever sorts.
- Snapshot.Build: requires `maxDepth < 255`. With `max_depth == 255`, the `u8` addition `depth + 1` at `src/main.rs:48` is evaluated at depth 255 only for a directory that has at least one subdirectory, and there it overflows: it panics in a debug build and wraps to 0 in a release build. A walk whose nodes at depth 255 have no subdirectories would not overflow. The model does not describe that behaviour. `Snapshot.New`, `Snapshot.NewAll`, `Snapshot.NewLevel` and every lemma about `Build` share this precondition.
- Printer.Print: requires `PrintSafe`, which rules out the `u8` overflow of `self.depth + 1` at `src/main.rs:74`. `Printer.WellFormedPrintSafe` shows every snapshot the builder returns meets it. `Printer.PrintChild` shares the precondition.
- Printer.Writer.Write: a write either writes all of its text or fails and writes nothing. Partial writes and interrupted writes are not modelled. Failure comes from a fixed capacity, standing in for a full disk or any other I/O error. This loses no failure behaviour of `print`: it stops at its first failed write, so one run of `print` is determined by which of its writes fails first, and for every such point, or none, some capacity makes exactly that write the first to fail. The if-and-only-if in `Printer.Print` and `Printer.WriteLine` is therefore about `print` and not about the capacity model.
- Printer.WriteLine: treats each `write!` of a tab and the `writeln!` of a path as one write each. A formatter that splits the path and the newline into separate writes is not modelled.
- Snapshot.BuildWellFormed: states ascending order within each group, not strictly ascending. A real directory never lists a name twice, but the modelled listings do not exclude duplicates.
- Memory use and stack depth of the recursion, and the time the walk takes, are not modelled.
