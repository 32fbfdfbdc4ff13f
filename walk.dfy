/**
  The walk shared by the extractor and the detector: a recursive `visit` that
  first applies a per-node matcher (`own`) and then, through `forEachChild`,
  visits each child in order; and a driver that runs it over each file in the
  order supplied and concatenates the results. The matcher is a parameter, so
  the structural facts are proved once for both.
*/
module Walk {
  import opened Syntax
  import opened Seqs

  /** The own results of a sequence of nodes, each node's in turn. */
  function Over<T>(own: (Node, string) -> seq<T>, ns: seq<Node>, file: string): seq<T>
    decreases |ns|
  {
    if ns == [] then []
    else Over(own, ns[..|ns| - 1], file) + own(ns[|ns| - 1], file)
  }

  lemma {:induction false} OverAppend<T>(own: (Node, string) -> seq<T>, a: seq<Node>, b: seq<Node>, file: string)
    ensures Over(own, a + b, file) == Over(own, a, file) + Over(own, b, file)
    decreases |b|
  {
    if b == [] {
      assert a + b == a;
    } else {
      var b', last := b[..|b| - 1], b[|b| - 1];
      assert (a + b)[..|a + b| - 1] == a + b';
      assert (a + b)[|a + b| - 1] == last;
      OverAppend(own, a, b', file);
    }
  }

  lemma OverSingle<T>(own: (Node, string) -> seq<T>, n: Node, file: string)
    ensures Over(own, [n], file) == own(n, file)
  {
    assert [n][..0] == [];
  }

  /** What `visit(n)` appends: the node's own results, then the results of each
      child's subtree in turn. */
  function Collect<T>(own: (Node, string) -> seq<T>, n: Node, file: string): seq<T>
    decreases Size(n), 0
  {
    ChildrenSize(n);
    own(n, file) + CollectForest(own, Children(n), file)
  }

  /** `forEachChild(n, visit)` over sibling subtrees, left to right. */
  function CollectForest<T>(own: (Node, string) -> seq<T>, cs: seq<Node>, file: string): seq<T>
    decreases ForestSize(cs), 1
  {
    if cs == [] then []
    else
      ForestSizeBound(cs, |cs| - 1);
      CollectForest(own, cs[..|cs| - 1], file) + Collect(own, cs[|cs| - 1], file)
  }

  /** One step of `visit`: the node's own results, then its children's. */
  lemma CollectUnfold<T>(own: (Node, string) -> seq<T>, n: Node, file: string)
    ensures Collect(own, n, file) == own(n, file) + CollectForest(own, Children(n), file)
  {
  }

  /** All children visited: the exit of the `forEachChild` loop. */
  lemma CollectForestWhole<T>(own: (Node, string) -> seq<T>, cs: seq<Node>, file: string)
    ensures CollectForest(own, cs[..|cs|], file) == CollectForest(own, cs, file)
  {
    assert cs[..|cs|] == cs;
  }

  /** One more child visited: the step of the `forEachChild` loop. */
  lemma CollectForestSnoc<T>(own: (Node, string) -> seq<T>, cs: seq<Node>, i: nat, file: string)
    requires i < |cs|
    ensures CollectForest(own, cs[..i + 1], file) == CollectForest(own, cs[..i], file) + Collect(own, cs[i], file)
  {
    assert cs[..i + 1][..i] == cs[..i];
  }

  /** One child, as an element access without an argument or a wrapper node
      has it. */
  lemma CollectForestSingle<T>(own: (Node, string) -> seq<T>, x: Node, file: string)
    ensures CollectForest(own, [x], file) == Collect(own, x, file)
  {
    assert [x][..0] == [];
  }

  /** Two children, as a property access, a binary expression or an element
      access with an argument have them. */
  lemma CollectForestPair<T>(own: (Node, string) -> seq<T>, x: Node, y: Node, file: string)
    ensures CollectForest(own, [x, y], file) == Collect(own, x, file) + Collect(own, y, file)
  {
    assert [x, y][..1] == [x] && [x][..0] == [];
    assert CollectForest(own, [x], file) == Collect(own, x, file);
  }

  /** A node without children contributes its own results only. */
  lemma CollectLeaf<T>(own: (Node, string) -> seq<T>, n: Node, file: string)
    requires Children(n) == []
    ensures Collect(own, n, file) == own(n, file)
  {
  }

  lemma {:induction false} CollectForestIsPreOrder<T>(own: (Node, string) -> seq<T>, cs: seq<Node>, file: string)
    ensures CollectForest(own, cs, file) == Over(own, PreOrderForest(cs), file)
    decreases ForestSize(cs), 1
  {
    if cs != [] {
      ForestSizeBound(cs, |cs| - 1);
      CollectForestIsPreOrder(own, cs[..|cs| - 1], file);
      CollectIsPreOrder(own, cs[|cs| - 1], file);
      OverAppend(own, PreOrderForest(cs[..|cs| - 1]), PreOrder(cs[|cs| - 1]), file);
    }
  }

  /** The walk is a pre-order walk: it produces exactly the own results of the
      nodes of `PreOrder(n)` (the node first, then each child's subtree left to
      right), each in turn. */
  lemma {:induction false} CollectIsPreOrder<T>(own: (Node, string) -> seq<T>, n: Node, file: string)
    ensures Collect(own, n, file) == Over(own, PreOrder(n), file)
    decreases Size(n), 0
  {
    PreOrderIsNodeThenChildren(n);
    ChildrenSize(n);
    OverAppend(own, [n], PreOrderForest(Children(n)), file);
    OverSingle(own, n, file);
    CollectForestIsPreOrder(own, Children(n), file);
  }

  /** Soundness: every result comes from the own results of some node of the
      sequence. */
  lemma {:induction false} OverProvenance<T>(own: (Node, string) -> seq<T>, ns: seq<Node>, file: string, x: T)
    requires x in Over(own, ns, file)
    ensures exists k :: 0 <= k < |ns| && x in own(ns[k], file)
    decreases |ns|
  {
    var init := ns[..|ns| - 1];
    if x in Over(own, init, file) {
      OverProvenance(own, init, file, x);
      var k :| 0 <= k < |init| && x in own(init[k], file);
      assert ns[k] == init[k];
    }
  }

  /** Completeness: the own results of every node of the sequence are among the
      results. */
  lemma {:induction false} OverComplete<T>(own: (Node, string) -> seq<T>, ns: seq<Node>, file: string, k: nat, x: T)
    requires k < |ns| && x in own(ns[k], file)
    ensures x in Over(own, ns, file)
    decreases |ns|
  {
    if k < |ns| - 1 {
      OverComplete(own, ns[..|ns| - 1], file, k, x);
    }
  }

  /** The driver: each file's walk from its root, concatenated in file order. */
  function PerFile<T>(own: (Node, string) -> seq<T>, files: seq<ParsedFile>): seq<T>
    decreases |files|
  {
    if files == [] then []
    else
      var last := files[|files| - 1];
      PerFile(own, files[..|files| - 1]) + Collect(own, last.sourceFile, last.filePath)
  }

  /** All files processed: the exit of the driver's loop. */
  lemma PerFileWhole<T>(own: (Node, string) -> seq<T>, files: seq<ParsedFile>)
    ensures PerFile(own, files[..|files|]) == PerFile(own, files)
  {
    assert files[..|files|] == files;
  }

  /** One more file processed: the step of the driver's loop. */
  lemma PerFileSnoc<T>(own: (Node, string) -> seq<T>, files: seq<ParsedFile>, i: nat)
    requires i < |files|
    ensures PerFile(own, files[..i + 1]) == PerFile(own, files[..i]) + Collect(own, files[i].sourceFile, files[i].filePath)
  {
    assert files[..i + 1][..i] == files[..i];
  }

  /** The result over several batches of files is the concatenation of the
      results over each batch, in the order supplied. */
  lemma {:induction false} PerFileAppend<T>(own: (Node, string) -> seq<T>, a: seq<ParsedFile>, b: seq<ParsedFile>)
    ensures PerFile(own, a + b) == PerFile(own, a) + PerFile(own, b)
    decreases |b|
  {
    if b == [] {
      assert a + b == a;
    } else {
      var b', last := b[..|b| - 1], b[|b| - 1];
      assert (a + b)[..|a + b| - 1] == a + b';
      assert (a + b)[|a + b| - 1] == last;
      PerFileAppend(own, a, b');
      var tail := Collect(own, last.sourceFile, last.filePath);
      calc {
        PerFile(own, a + b);
        PerFile(own, a + b') + tail;
        PerFile(own, a) + PerFile(own, b') + tail;
        PerFile(own, a) + (PerFile(own, b') + tail);
        PerFile(own, a) + PerFile(own, b);
      }
    }
  }

  /** Every result of a run comes from the walk of one of the supplied files. */
  lemma {:induction false} PerFileProvenance<T>(own: (Node, string) -> seq<T>, files: seq<ParsedFile>, x: T)
    requires x in PerFile(own, files)
    ensures exists i :: 0 <= i < |files| && x in Collect(own, files[i].sourceFile, files[i].filePath)
    decreases |files|
  {
    var init := files[..|files| - 1];
    if x in PerFile(own, init) {
      PerFileProvenance(own, init, x);
      var i :| 0 <= i < |init| && x in Collect(own, init[i].sourceFile, init[i].filePath);
      assert files[i] == init[i];
    }
  }
}
