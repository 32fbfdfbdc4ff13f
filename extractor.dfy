/**
  The reference extractor: a pre-order walk over each file's tree that records
  every `process.env.NAME` and `process.env['NAME']` read.
*/
module Extractor {
  import opened Syntax
  import opened Types
  import opened Walk
  import opened Seqs

  /** The dotted matcher: a property access whose receiver is `process.env`.
      The node's parent is never consulted, so an assignment target matches too. */
  predicate IsDottedRead(n: Node) {
    n.PropAccess? && IsProcessEnv(n.expr)
  }

  /** The indexed matcher: an element access on `process.env` whose index is a
      string literal. Identifier, template and computed keys do not match. */
  predicate IsIndexedRead(n: Node) {
    n.ElemAccess? && IsProcessEnv(n.expr) && n.arg.Some? && IsStringLiteral(n.arg.value)
  }

  /** The recorded name of a dotted read: the member identifier's text (for any
      other member node, its source text). */
  function DottedName(n: Node): string
    requires n.PropAccess?
  {
    if n.name.Identifier? then n.name.text else n.name.src
  }

  /** A reference at the start of node `n`, converted to 1-based line and column. */
  function ReferenceAt(n: Node, name: string, file: string): (r: EnvReference)
    ensures r.name == name && r.file == file
    ensures r.line == n.start.line + 1 >= 1 && r.column == n.start.character + 1 >= 1
  {
    EnvReference(name, file, n.start.line + 1, n.start.character + 1)
  }

  /** What visiting one node appends before it descends: the two matchers in
      turn. A node is never both a property access and an element access, so it
      contributes at most one reference, and exactly one when a matcher fires. */
  function OwnReferences(n: Node, file: string): (r: seq<EnvReference>)
    ensures |r| <= 1
    ensures |r| == 1 <==> IsDottedRead(n) || IsIndexedRead(n)
    ensures IsDottedRead(n) ==> r == [ReferenceAt(n, DottedName(n), file)]
    ensures IsIndexedRead(n) ==> r == [ReferenceAt(n, n.arg.value.text, file)]
  {
    (if IsDottedRead(n) then [ReferenceAt(n, DottedName(n), file)] else [])
    + (if IsIndexedRead(n) then [ReferenceAt(n, n.arg.value.text, file)] else [])
  }

  /** What `visit(n)` appends for the subtree rooted at `n`, in pre-order. */
  function FileReferences(n: Node, file: string): seq<EnvReference> {
    Collect(OwnReferences, n, file)
  }

  /** `extractEnvReferences`: the per-file results, concatenated in file order. */
  function AllReferences(files: seq<ParsedFile>): seq<EnvReference> {
    PerFile(OwnReferences, files)
  }

  /** The 1-based position and the file of a reference recorded in `file`. */
  predicate PlacedIn(r: EnvReference, file: string) {
    r.file == file && r.line >= 1 && r.column >= 1
  }

  /** The result over several batches of files is the concatenation of the
      results over each batch, in the order supplied. */
  lemma AllReferencesAppend(a: seq<ParsedFile>, b: seq<ParsedFile>)
    ensures AllReferences(a + b) == AllReferences(a) + AllReferences(b)
  {
    PerFileAppend(OwnReferences, a, b);
  }

  /** Soundness: every reference recorded for a file is the one reference of a
      node of the walk on which a matcher fires; the walk reaches nodes in
      pre-order. */
  lemma ReferenceProvenance(n: Node, file: string, r: EnvReference)
    requires r in FileReferences(n, file)
    ensures exists k :: (0 <= k < |PreOrder(n)| &&
      (IsDottedRead(PreOrder(n)[k]) || IsIndexedRead(PreOrder(n)[k])) && OwnReferences(PreOrder(n)[k], file) == [r])
  {
    CollectIsPreOrder(OwnReferences, n, file);
    OverProvenance(OwnReferences, PreOrder(n), file, r);
  }

  /** Completeness: every node of the tree on which a matcher fires has its
      reference recorded. */
  lemma ReferenceComplete(n: Node, file: string, k: nat)
    requires k < |PreOrder(n)| && (IsDottedRead(PreOrder(n)[k]) || IsIndexedRead(PreOrder(n)[k]))
    ensures OwnReferences(PreOrder(n)[k], file)[0] in FileReferences(n, file)
  {
    CollectIsPreOrder(OwnReferences, n, file);
    OverComplete(OwnReferences, PreOrder(n), file, k, OwnReferences(PreOrder(n)[k], file)[0]);
  }

  /** Every reference found in a file carries that file's path and a 1-based
      position. */
  lemma ReferencePlaced(n: Node, file: string, r: EnvReference)
    requires r in FileReferences(n, file)
    ensures PlacedIn(r, file)
  {
    ReferenceProvenance(n, file, r);
  }

  /** Every reference of a run names one of the supplied files and has a 1-based
      position. */
  lemma AllReferencesPlaced(files: seq<ParsedFile>, r: EnvReference)
    requires r in AllReferences(files)
    ensures exists i :: 0 <= i < |files| && PlacedIn(r, files[i].filePath)
  {
    PerFileProvenance(OwnReferences, files, r);
    var i :| 0 <= i < |files| && r in FileReferences(files[i].sourceFile, files[i].filePath);
    ReferencePlaced(files[i].sourceFile, files[i].filePath, r);
  }

  /** `process.env` on its own is not a read. */
  lemma BareProcessEnvRecordsNothing(n: Node, file: string)
    requires IsProcessEnv(n)
    ensures FileReferences(n, file) == []
  {
    CollectForestPair(OwnReferences, n.expr, n.name, file);
  }

  /** `process.env.A.B` records only `A`: the outer access's receiver is not
      `process.env`, the inner one is. */
  lemma ChainedMemberRecordsInnerOnly(n: Node, file: string)
    requires n.PropAccess? && IsDottedRead(n.expr) && n.name.Identifier?
    requires n.expr.name.Identifier?
    ensures FileReferences(n, file) == [ReferenceAt(n.expr, n.expr.name.text, file)]
  {
    CollectForestPair(OwnReferences, n.expr, n.name, file);
    CollectForestPair(OwnReferences, n.expr.expr, n.expr.name, file);
    BareProcessEnvRecordsNothing(n.expr.expr, file);
  }

  /** `x.process.env.A`, with `x` any identifier (`process` included), records
      nothing: no receiver in it is the bare `process.env`. */
  lemma QualifiedProcessEnvRecordsNothing(n: Node, file: string)
    requires n.PropAccess? && n.name.Identifier?
    requires n.expr.PropAccess? && n.expr.name.Identifier? && n.expr.name.text == "env"
    requires n.expr.expr.PropAccess? && n.expr.expr.name.Identifier? && n.expr.expr.name.text == "process"
    requires n.expr.expr.expr.Identifier?
    ensures FileReferences(n, file) == []
  {
    var env, proc, x := n.expr, n.expr.expr, n.expr.expr.expr;
    CollectForestPair(OwnReferences, env, n.name, file);
    CollectForestPair(OwnReferences, proc, env.name, file);
    CollectForestPair(OwnReferences, x, proc.name, file);
  }

  /** An element access whose index is absent or not a string literal records
      nothing of its own. */
  lemma NonLiteralKeyIgnored(n: Node, file: string)
    requires n.ElemAccess? && (n.arg.None? || !n.arg.value.StringLit?)
    ensures OwnReferences(n, file) == []
  {
  }

  /** The state of one `extractFromFile` call: the file's path and the array the
      `visit` closure pushes to. */
  class ReferenceCollector {
    const file: string
    var references: seq<EnvReference>

    constructor (file: string)
      ensures this.file == file && references == []
    {
      this.file := file;
      references := [];
    }

    /** `visit`: test the node against both matchers, then visit its children. */
    method Visit(node: Node)
      modifies this
      ensures references == old(references) + FileReferences(node, file)
      decreases Size(node), 0
    {
      ghost var before := references;
      if IsDottedRead(node) {
        references := references + [ReferenceAt(node, DottedName(node), file)];
      }
      if IsIndexedRead(node) {
        references := references + [ReferenceAt(node, node.arg.value.text, file)];
      }
      assert references == before + OwnReferences(node, file);
      ChildrenSize(node);
      VisitEach(Children(node));
      CollectUnfold(OwnReferences, node, file);
      AppendAssoc(before, OwnReferences(node, file), CollectForest(OwnReferences, Children(node), file));
    }

    /** `ts.forEachChild(node, visit)`: visit each child in turn. */
    method VisitEach(children: seq<Node>)
      modifies this
      ensures references == old(references) + CollectForest(OwnReferences, children, file)
      decreases ForestSize(children), 1
    {
      for i := 0 to |children|
        invariant references == old(references) + CollectForest(OwnReferences, children[..i], file)
      {
        ForestSizeBound(children, i);
        ghost var done := CollectForest(OwnReferences, children[..i], file);
        Visit(children[i]);
        CollectForestSnoc(OwnReferences, children, i, file);
        AppendAssoc(old(references), done, FileReferences(children[i], file));
      }
      CollectForestWhole(OwnReferences, children, file);
    }
  }

  /** `extractFromFile`. */
  method ExtractFromFile(sourceFile: Node, filePath: string) returns (references: seq<EnvReference>)
    ensures references == FileReferences(sourceFile, filePath)
  {
    var collector := new ReferenceCollector(filePath);
    collector.Visit(sourceFile);
    references := collector.references;
  }

  /** `extractEnvReferences`: every file's references, files in the order given. */
  method ExtractEnvReferences(parsedFiles: seq<ParsedFile>) returns (references: seq<EnvReference>)
    ensures references == AllReferences(parsedFiles)
  {
    references := [];
    for i := 0 to |parsedFiles|
      invariant references == AllReferences(parsedFiles[..i])
    {
      var fileReferences := ExtractFromFile(parsedFiles[i].sourceFile, parsedFiles[i].filePath);
      PerFileSnoc(OwnReferences, parsedFiles, i);
      references := references + fileReferences;
    }
    PerFileWhole(OwnReferences, parsedFiles);
  }
}
