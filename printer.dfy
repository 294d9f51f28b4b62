/**
 * `MapSnapshot::print`: a pre-order rendering of a snapshot, one line per
 * node, each line indented with tab characters. The writer is a class whose
 * `written` text the printing methods extend; the expected output is the
 * pure function `Render`, and `Preorder` is an independent description of
 * the same output as a list of (indentation, path) lines.
 */
module Printer {
  import opened Io
  import opened Paths
  import opened Snapshot
  import opened Seqs

  /** `n` tab characters. */
  function Tabs(n: nat): (r: string)
    ensures |r| == n
    ensures forall i :: 0 <= i < n ==> r[i] == '\t'
  {
    if n == 0 then "" else Tabs(n - 1) + "\t"
  }

  /** `indent` tabs, then `writeln!(writer, "{}", path)`. */
  function LineText(indent: nat, p: Path): string {
    Tabs(indent) + p + "\n"
  }

  /**
   * `self.depth + 1` is computed in `u8` for every file child: printing cannot
   * overflow only if every node that has a file child is shallower than 255.
   */
  predicate PrintSafe(s: MapSnapshot)
    decreases s
  {
    forall k :: 0 <= k < |s.children| ==>
      if s.children[k].File? then s.depth < 255 else PrintSafe(s.children[k].snapshot)
  }

  /** What `s.print(writer)` writes when no write fails. */
  function Render(s: MapSnapshot): string
    decreases s, |s.children| + 1
  {
    LineText(s.depth, s.directory) + RenderUpTo(s, |s.children|)
  }

  /** What the `for child in &self.children` loop writes for the first `k` children. */
  function RenderUpTo(s: MapSnapshot, k: nat): string
    requires k <= |s.children|
    decreases s, k
  {
    if k == 0 then "" else RenderUpTo(s, k - 1) + RenderChild(s, k - 1)
  }

  /** A subdirectory prints itself, at its own depth; a file is one line, one tab deeper than its parent. */
  function RenderChild(s: MapSnapshot, k: nat): string
    requires k < |s.children|
    decreases s, k
  {
    match s.children[k]
    case Dir(c) => Render(c)
    case File(p) => LineText(s.depth + 1, p)
  }

  /** The loop's output only grows: the output for fewer children is a prefix of the output for more. */
  lemma {:induction false} RenderUpToPrefix(s: MapSnapshot, k: nat, j: nat)
    requires k <= j <= |s.children|
    ensures RenderUpTo(s, k) <= RenderUpTo(s, j)
    decreases j
  {
    if k < j {
      RenderUpToPrefix(s, k, j - 1);
      assert RenderUpTo(s, j) == RenderUpTo(s, j - 1) + RenderChild(s, j - 1);
    }
  }

  /** One output line of the reference: how many tabs, and which path. */
  datatype OutLine = OutLine(indent: nat, path: Path)

  /** The text of a list of lines. */
  function Text(ls: seq<OutLine>): string {
    if ls == [] then "" else Text(ls[..|ls| - 1]) + LineText(ls[|ls| - 1].indent, ls[|ls| - 1].path)
  }

  lemma {:induction false} TextAppend(a: seq<OutLine>, b: seq<OutLine>)
    ensures Text(a + b) == Text(a) + Text(b)
    decreases |b|
  {
    if b == [] {
      assert a + b == a;
    } else {
      var b', last := b[..|b| - 1], b[|b| - 1];
      assert (a + b)[..|a + b| - 1] == a + b';
      assert (a + b)[|a + b| - 1] == last;
      TextAppend(a, b');
      AppendAssoc(Text(a), Text(b'), LineText(last.indent, last.path));
    }
  }

  lemma TextSingle(l: OutLine)
    ensures Text([l]) == LineText(l.indent, l.path)
  {
    assert [l][..0] == [];
  }

  /** The number of nodes of a snapshot: itself, its files, and the nodes of its subdirectories. */
  function Size(s: MapSnapshot): nat
    decreases s, |s.children| + 1
  {
    1 + SizeUpTo(s, |s.children|)
  }

  function SizeUpTo(s: MapSnapshot, k: nat): nat
    requires k <= |s.children|
    decreases s, k
  {
    if k == 0 then 0
    else SizeUpTo(s, k - 1) + (match s.children[k - 1] case Dir(c) => Size(c) case File(_) => 1)
  }

  /**
   * The reference order: the pre-order list of the nodes of `s`, each at the
   * tree level it occupies when `s` sits at `level`. The first line is the
   * root's, there is one line per node, and no line is less indented than the
   * root.
   */
  function Preorder(s: MapSnapshot, level: nat): (r: seq<OutLine>)
    ensures |r| == Size(s)
    ensures r[0] == OutLine(level, s.directory)
    ensures forall i :: 0 <= i < |r| ==> level <= r[i].indent
    decreases s, |s.children| + 1
  {
    [OutLine(level, s.directory)] + PreorderUpTo(s, level, |s.children|)
  }

  /** The lines of the first `k` children, each subtree right after the lines before it: all strictly deeper than the parent. */
  function PreorderUpTo(s: MapSnapshot, level: nat, k: nat): (r: seq<OutLine>)
    requires k <= |s.children|
    ensures |r| == SizeUpTo(s, k)
    ensures forall i :: 0 <= i < |r| ==> level < r[i].indent
    decreases s, k
  {
    if k == 0 then [] else PreorderUpTo(s, level, k - 1) + PreorderChild(s, level, k - 1)
  }

  /** The lines of child `k`: a subdirectory's subtree one level deeper, or the file's single line. */
  function PreorderChild(s: MapSnapshot, level: nat, k: nat): (r: seq<OutLine>)
    requires k < |s.children|
    ensures |r| == (match s.children[k] case Dir(c) => Size(c) case File(_) => 1)
    ensures forall i :: 0 <= i < |r| ==> level < r[i].indent
    decreases s, k
  {
    match s.children[k]
    case Dir(c) => Preorder(c, level + 1)
    case File(p) => [OutLine(level + 1, p)]
  }

  lemma {:induction false} PreorderUpToPrefix(s: MapSnapshot, level: nat, k: nat, j: nat)
    requires k <= j <= |s.children|
    ensures PreorderUpTo(s, level, k) <= PreorderUpTo(s, level, j)
    decreases j
  {
    if k < j {
      PreorderUpToPrefix(s, level, k, j - 1);
      PrefixTrans(PreorderUpTo(s, level, k), PreorderUpTo(s, level, j - 1), PreorderUpTo(s, level, j));
    }
  }

  /**
   * Pre-order layout: the lines of child `k` (its whole subtree, for a
   * directory) come right after the root's line and the lines of the
   * children before it.
   */
  lemma PreorderLayout(s: MapSnapshot, level: nat, k: nat)
    requires k < |s.children|
    ensures 1 + SizeUpTo(s, k + 1) <= |Preorder(s, level)|
    ensures Preorder(s, level)[1 + SizeUpTo(s, k) .. 1 + SizeUpTo(s, k + 1)] == PreorderChild(s, level, k)
  {
    var root, before, child := [OutLine(level, s.directory)], PreorderUpTo(s, level, k), PreorderChild(s, level, k);
    PreorderUpToPrefix(s, level, k + 1, |s.children|);
    PrefixExtend(root, before + child, PreorderUpTo(s, level, |s.children|));
    AppendAssoc(root, before, child);
    SliceAfterFront(Preorder(s, level), root + before, child);
  }

  /**
   * Pre-order, indentation by tree level: for a snapshot whose nested
   * depths follow the tree, the printed text is the reference's lines, in
   * order, each indented by its node's level.
   */
  lemma {:induction false} RenderIsPreorder(s: MapSnapshot)
    requires NestedDepths(s)
    ensures Render(s) == Text(Preorder(s, s.depth))
    decreases s, |s.children| + 1
  {
    var head := OutLine(s.depth, s.directory);
    RenderUpToIsPreorder(s, |s.children|);
    TextSingle(head);
    TextAppend([head], PreorderUpTo(s, s.depth, |s.children|));
  }

  lemma {:induction false} RenderUpToIsPreorder(s: MapSnapshot, k: nat)
    requires NestedDepths(s) && k <= |s.children|
    ensures RenderUpTo(s, k) == Text(PreorderUpTo(s, s.depth, k))
    decreases s, k
  {
    if k == 0 {
      assert Text([]) == "";
    } else {
      var front: seq<OutLine>, tail: seq<OutLine> := PreorderUpTo(s, s.depth, k - 1), PreorderChild(s, s.depth, k - 1);
      assert PreorderUpTo(s, s.depth, k) == front + tail;
      assert RenderUpTo(s, k) == RenderUpTo(s, k - 1) + RenderChild(s, k - 1);
      RenderUpToIsPreorder(s, k - 1);
      RenderChildIsPreorder(s, k - 1);
      TextAppend(front, tail);
    }
  }

  lemma {:induction false} RenderChildIsPreorder(s: MapSnapshot, k: nat)
    requires NestedDepths(s) && k < |s.children|
    ensures RenderChild(s, k) == Text(PreorderChild(s, s.depth, k))
    decreases s, k
  {
    match s.children[k]
    case Dir(c) =>
      assert s.children[k].snapshot == c;
      RenderIsPreorder(c);
    case File(p) =>
      TextSingle(OutLine(s.depth + 1, p));
  }

  /** Each nested snapshot is one level deeper than its parent, all the way down. */
  predicate NestedDepths(s: MapSnapshot)
    decreases s
  {
    forall k :: 0 <= k < |s.children| && s.children[k].Dir? ==>
      s.children[k].snapshot.depth == s.depth + 1 && NestedDepths(s.children[k].snapshot)
  }

  lemma {:induction false} WellFormedNested(s: MapSnapshot, maxDepth: Depth)
    requires WellFormed(s, maxDepth)
    ensures NestedDepths(s)
    decreases s
  {
    forall k | 0 <= k < |s.children| && s.children[k].Dir?
      ensures NestedDepths(s.children[k].snapshot)
    {
      WellFormedNested(s.children[k].snapshot, maxDepth);
    }
  }

  /** A subdirectory of a well-formed snapshot is well formed, one level deeper, and its parent is within the bound. */
  lemma WellFormedChild(s: MapSnapshot, maxDepth: Depth, k: nat)
    requires WellFormed(s, maxDepth) && k < |s.children| && s.children[k].Dir?
    ensures s.depth <= maxDepth
    ensures s.children[k].snapshot.depth == s.depth + 1 && WellFormed(s.children[k].snapshot, maxDepth)
  {
  }

  /** Every path in `s`, its own included, is free of newline characters. */
  predicate PathsPrintable(s: MapSnapshot)
    decreases s
  {
    && '\n' !in s.directory
    && forall k :: 0 <= k < |s.children| ==>
         if s.children[k].File? then '\n' !in s.children[k].path else PathsPrintable(s.children[k].snapshot)
  }

  /** How many times `c` occurs in `t`. */
  function Count(c: char, t: string): nat {
    if t == [] then 0 else Count(c, t[..|t| - 1]) + (if t[|t| - 1] == c then 1 else 0)
  }

  lemma {:induction false} CountAppend(c: char, a: string, b: string)
    ensures Count(c, a + b) == Count(c, a) + Count(c, b)
    decreases |b|
  {
    if b == [] {
      assert a + b == a;
    } else {
      var b' := b[..|b| - 1];
      assert (a + b)[..|a + b| - 1] == a + b';
      assert (a + b)[|a + b| - 1] == b[|b| - 1];
      CountAppend(c, a, b');
    }
  }

  lemma {:induction false} CountAbsent(c: char, t: string)
    requires c !in t
    ensures Count(c, t) == 0
    decreases |t|
  {
    if t != [] {
      assert t[|t| - 1] in t;
      assert forall i :: 0 <= i < |t| - 1 ==> t[..|t| - 1][i] == t[i];
      CountAbsent(c, t[..|t| - 1]);
    }
  }

  /** A line of a newline-free path holds exactly one newline, its last character. */
  lemma LineTextCount(indent: nat, p: Path)
    requires '\n' !in p
    ensures Count('\n', LineText(indent, p)) == 1
  {
    CountAbsent('\n', Tabs(indent));
    CountAbsent('\n', p);
    CountAppend('\n', Tabs(indent), p);
    CountAppend('\n', Tabs(indent) + p, "\n");
    assert "\n"[..0] == "";
  }

  /** One line per node: the printed text has as many newlines as the snapshot has nodes. */
  lemma {:induction false} RenderLineCount(s: MapSnapshot)
    requires PathsPrintable(s)
    ensures Count('\n', Render(s)) == Size(s)
    decreases s, |s.children| + 1
  {
    LineTextCount(s.depth, s.directory);
    RenderUpToLineCount(s, |s.children|);
    CountAppend('\n', LineText(s.depth, s.directory), RenderUpTo(s, |s.children|));
  }

  lemma {:induction false} RenderUpToLineCount(s: MapSnapshot, k: nat)
    requires PathsPrintable(s) && k <= |s.children|
    ensures Count('\n', RenderUpTo(s, k)) == SizeUpTo(s, k)
    decreases s, k
  {
    if k > 0 {
      RenderUpToLineCount(s, k - 1);
      CountAppend('\n', RenderUpTo(s, k - 1), RenderChild(s, k - 1));
      match s.children[k - 1]
      case Dir(c) =>
        RenderLineCount(c);
      case File(p) =>
        LineTextCount(s.depth + 1, p);
    }
  }

  /**
   * The output of a snapshot built with bound `maxDepth` never indents a line
   * by more than `maxDepth + 1` tabs.
   */
  lemma {:induction false} IndentBound(s: MapSnapshot, maxDepth: Depth)
    requires WellFormed(s, maxDepth) && s.depth <= maxDepth + 1
    ensures forall i :: 0 <= i < |Preorder(s, s.depth)| ==> Preorder(s, s.depth)[i].indent <= maxDepth + 1
    decreases s, |s.children| + 1
  {
    IndentBoundUpTo(s, maxDepth, |s.children|);
  }

  lemma {:induction false} IndentBoundUpTo(s: MapSnapshot, maxDepth: Depth, k: nat)
    requires WellFormed(s, maxDepth) && s.depth <= maxDepth + 1 && k <= |s.children|
    ensures forall i :: 0 <= i < |PreorderUpTo(s, s.depth, k)| ==> PreorderUpTo(s, s.depth, k)[i].indent <= maxDepth + 1
    decreases s, k
  {
    if k > 0 {
      IndentBoundUpTo(s, maxDepth, k - 1);
      IndentBoundChild(s, maxDepth, k - 1);
      var front: seq<OutLine>, tail: seq<OutLine> := PreorderUpTo(s, s.depth, k - 1), PreorderChild(s, s.depth, k - 1);
      forall i | 0 <= i < |front + tail| ensures (front + tail)[i].indent <= maxDepth + 1 {
        if i < |front| {
          assert (front + tail)[i] == front[i];
        } else {
          assert (front + tail)[i] == tail[i - |front|];
        }
      }
    }
  }

  lemma {:induction false} IndentBoundChild(s: MapSnapshot, maxDepth: Depth, k: nat)
    requires WellFormed(s, maxDepth) && k < |s.children|
    ensures forall i :: 0 <= i < |PreorderChild(s, s.depth, k)| ==> PreorderChild(s, s.depth, k)[i].indent <= maxDepth + 1
    decreases s, k
  {
    match s.children[k]
    case Dir(c) =>
      WellFormedChild(s, maxDepth, k);
      IndentBound(c, maxDepth);
    case File(p) =>
      assert s.depth <= maxDepth;
  }

  /** Snapshots built with `maxDepth < 255` print without `u8` overflow. */
  lemma {:induction false} WellFormedPrintSafe(s: MapSnapshot, maxDepth: Depth)
    requires maxDepth < 255 && WellFormed(s, maxDepth)
    ensures PrintSafe(s)
    decreases s
  {
    forall k | 0 <= k < |s.children| && s.children[k].Dir?
      ensures PrintSafe(s.children[k].snapshot)
    {
      WellFormedPrintSafe(s.children[k].snapshot, maxDepth);
    }
  }

  /**
   * What `main` prints for a successful `MapSnapshot::new(&dir, max_depth, 0)`:
   * printing cannot overflow, the text is the pre-order list of the nodes
   * with the root unindented, and no line has more than `maxDepth + 1` tabs.
   */
  lemma BuiltOutput(fs: FileSystem.Fs, dir: Path, maxDepth: Depth)
    requires maxDepth < 255 && Build(fs, dir, maxDepth, 0).Ok?
    ensures var s := Build(fs, dir, maxDepth, 0).value;
      && PrintSafe(s)
      && Render(s) == Text(Preorder(s, 0))
      && Preorder(s, 0)[0] == OutLine(0, dir)
      && forall i :: 0 <= i < |Preorder(s, 0)| ==> Preorder(s, 0)[i].indent <= maxDepth + 1
  {
    var s := Build(fs, dir, maxDepth, 0).value;
    BuildWellFormed(fs, dir, maxDepth, 0);
    WellFormedPrintSafe(s, maxDepth);
    WellFormedNested(s, maxDepth);
    RenderIsPreorder(s);
    IndentBound(s, maxDepth);
  }

  /**
   * The `impl Write` that `print` writes to: everything written so far, and a
   * capacity after which every write fails and writes nothing.
   */
  class Writer {
    var written: string
    const capacity: nat

    predicate Valid()
      reads this
    {
      |written| <= capacity
    }

    constructor (capacity: nat)
      ensures Valid() && written == "" && this.capacity == capacity
    {
      written := "";
      this.capacity := capacity;
    }

    /** One `write!`: all of `t`, or an error and nothing. */
    method Write(t: string) returns (r: Result<()>)
      requires Valid()
      modifies this
      ensures Valid()
      ensures r.Ok? <==> |old(written)| + |t| <= capacity
      ensures r.Err? ==> r.error == WriteFailed
      ensures written == if r.Ok? then old(written) + t else old(written)
    {
      if |written| + |t| <= capacity {
        written := written + t;
        r := Ok(());
      } else {
        r := Err(WriteFailed);
      }
    }
  }

  /** `indent` single-tab writes and then the `writeln!` of the path, stopping at the first failed write. */
  method WriteLine(w: Writer, indent: nat, p: Path) returns (r: Result<()>)
    requires w.Valid()
    modifies w
    ensures w.Valid()
    ensures r.Ok? <==> |old(w.written)| + |LineText(indent, p)| <= w.capacity
    ensures r.Err? ==> r.error == WriteFailed
    ensures r.Ok? ==> w.written == old(w.written) + LineText(indent, p)
    ensures old(w.written) <= w.written <= old(w.written) + LineText(indent, p)
  {
    for i := 0 to indent
      invariant w.Valid()
      invariant w.written == old(w.written) + Tabs(i)
    {
      r := w.Write("\t");
      if r.Err? {
        assert old(w.written) + Tabs(i) <= old(w.written) + LineText(indent, p) by {
          assert LineText(indent, p) == Tabs(i) + (Tabs(indent)[i..] + p + "\n");
        }
        return;
      }
    }
    r := w.Write(p + "\n");
    assert LineText(indent, p) == Tabs(indent) + (p + "\n");
  }

  /** `MapSnapshot::print`: the directory's own line, then every child in order, stopping at the first failed write. */
  method Print(s: MapSnapshot, w: Writer) returns (r: Result<()>)
    requires w.Valid() && PrintSafe(s)
    modifies w
    ensures w.Valid()
    ensures r.Ok? <==> |old(w.written)| + |Render(s)| <= w.capacity
    ensures r.Err? ==> r.error == WriteFailed
    ensures r.Ok? ==> w.written == old(w.written) + Render(s)
    ensures old(w.written) <= w.written <= old(w.written) + Render(s)
    decreases s, |s.children| + 1
  {
    ghost var start := w.written;
    r := WriteLine(w, s.depth, s.directory);
    ghost var out := start + LineText(s.depth, s.directory);
    ghost var all := RenderUpTo(s, |s.children|);
    AppendAssoc(start, LineText(s.depth, s.directory), all);
    assert start + Render(s) == out + all;
    if r.Err? {
      PrefixTrans(w.written, out, out + all);
      return;
    }
    for k := 0 to |s.children|
      invariant w.Valid() && r.Ok?
      invariant w.written == out + RenderUpTo(s, k)
    {
      ghost var before := w.written;
      r := PrintChild(s, k, w);
      AppendAssoc(out, RenderUpTo(s, k), RenderChild(s, k));
      assert before + RenderChild(s, k) == out + RenderUpTo(s, k + 1);
      if r.Err? {
        RenderUpToPrefix(s, k + 1, |s.children|);
        PrefixExtend(out, RenderUpTo(s, k + 1), all);
        PrefixTrans(w.written, out + RenderUpTo(s, k + 1), out + all);
        PrefixTrans(start, out, before);
        PrefixTrans(start, before, w.written);
        return;
      }
    }
  }

  /** One iteration of the `for child in &self.children` loop of `print`. */
  method PrintChild(s: MapSnapshot, k: nat, w: Writer) returns (r: Result<()>)
    requires w.Valid() && PrintSafe(s) && k < |s.children|
    modifies w
    ensures w.Valid()
    ensures r.Ok? <==> |old(w.written)| + |RenderChild(s, k)| <= w.capacity
    ensures r.Err? ==> r.error == WriteFailed
    ensures r.Ok? ==> w.written == old(w.written) + RenderChild(s, k)
    ensures old(w.written) <= w.written <= old(w.written) + RenderChild(s, k)
    decreases s, k
  {
    match s.children[k]
    case Dir(c) =>
      r := Print(c, w);
    case File(p) =>
      var indent: Depth := s.depth + 1;
      r := WriteLine(w, indent, p);
  }
}
