/**
  The risky-pattern detector: a pre-order walk over each file's tree that
  reports assignments to `process.env.NODE_ENV` and `||` fallbacks from an
  environment read to a literal.
*/
module Detector {
  import opened Syntax
  import opened Types
  import opened Decimal
  import opened Lines
  import opened Walk
  import opened Seqs

  const NodeEnv: string := "NODE_ENV"
  const OverrideKind: string := "NODE_ENV_OVERRIDE"
  const OverrideDescription: string := "NODE_ENV is being overridden"
  const FallbackKind: string := "HARDCODED_FALLBACK"
  const FallbackPrefix: string := "Hardcoded fallback value detected: "

  /** The override matcher: a plain `=` whose target is the property access
      `process.env.NODE_ENV`. Compound assignments, other names and the
      element-access form `process.env['NODE_ENV']` do not match. */
  predicate IsOverride(n: Node) {
    && n.Binary? && n.op == Equals
    && n.left.PropAccess? && IsProcessEnv(n.left.expr)
    && n.left.name.Identifier? && n.left.name.text == NodeEnv
  }

  /** The left operand test of the fallback matcher (the `isProcessEnv` flag):
      `process.env.X`, or an element access on `process.env` with any index. */
  predicate IsProcessEnvOperand(left: Node) {
    (left.PropAccess? || left.ElemAccess?) && IsProcessEnv(left.expr)
  }

  /** The right operand test of the fallback matcher, as written: a string
      literal, a numeric literal, or a literal expression that is also a
      `true`/`false` keyword. */
  predicate IsFallbackLiteral(right: Node) {
    || IsStringLiteral(right)
    || IsNumericLiteral(right)
    || (IsLiteralExpression(right) && (right.TrueKw? || right.FalseKw?))
  }

  /** The fallback matcher: `||` with an environment read on the left and a
      literal on the right. */
  predicate IsFallback(n: Node) {
    n.Binary? && n.op == BarBar && IsProcessEnvOperand(n.left) && IsFallbackLiteral(n.right)
  }

  /** `${file}:${line}:${column}`. */
  function Location(file: string, line: nat, column: nat): string {
    file + ":" + NatToString(line) + ":" + NatToString(column)
  }

  /** A pattern at the start of node `n`, converted to 1-based line and column. */
  function PatternAt(n: Node, kind: string, description: string, file: string): (p: RiskyPattern)
    ensures p.kind == kind && p.description == description && p.file == file
    ensures p.line == n.start.line + 1 >= 1 && p.column == n.start.character + 1 >= 1
    ensures p.location == Location(file, p.line, p.column)
  {
    var line, column := n.start.line + 1, n.start.character + 1;
    RiskyPattern(kind, description, Location(file, line, column), file, line, column)
  }

  /** The override entry: its description is fixed, whatever is assigned. */
  function OverrideAt(n: Node, file: string): RiskyPattern {
    PatternAt(n, OverrideKind, OverrideDescription, file)
  }

  /** The fallback entry: its description quotes the right operand's source text. */
  function FallbackAt(n: Node, file: string): RiskyPattern
    requires n.Binary?
  {
    PatternAt(n, FallbackKind, FallbackPrefix + n.right.src, file)
  }

  /** What visiting one node appends before it descends: the two matchers in
      turn. A binary node has one operator, so at most one of them fires. */
  function OwnPatterns(n: Node, file: string): (r: seq<RiskyPattern>)
    ensures |r| <= 1
    ensures |r| == 1 <==> IsOverride(n) || IsFallback(n)
    ensures IsOverride(n) ==> r == [OverrideAt(n, file)]
    ensures IsFallback(n) ==> r == [FallbackAt(n, file)]
  {
    (if IsOverride(n) then [OverrideAt(n, file)] else [])
    + (if IsFallback(n) then [FallbackAt(n, file)] else [])
  }

  /** What `visit(n)` appends for the subtree rooted at `n`, in pre-order. */
  function FilePatterns(n: Node, file: string): seq<RiskyPattern> {
    Collect(OwnPatterns, n, file)
  }

  /** `detectRiskyPatterns`: the per-file results, concatenated in file order. */
  function AllPatterns(files: seq<ParsedFile>): seq<RiskyPattern> {
    PerFile(OwnPatterns, files)
  }

  /** The 1-based position, the file and the location text of a pattern
      found in `file`. */
  predicate PlacedIn(p: RiskyPattern, file: string) {
    p.file == file && p.line >= 1 && p.column >= 1 && p.location == Location(file, p.line, p.column)
  }

  /** The two kinds of entry, each with its own description. */
  predicate WellFormedKind(p: RiskyPattern) {
    || (p.kind == OverrideKind && p.description == OverrideDescription)
    || (p.kind == FallbackKind && StartsWith(p.description, FallbackPrefix))
  }

  /** The result over several batches of files is the concatenation of the
      results over each batch, in the order supplied. */
  lemma AllPatternsAppend(a: seq<ParsedFile>, b: seq<ParsedFile>)
    ensures AllPatterns(a + b) == AllPatterns(a) + AllPatterns(b)
  {
    PerFileAppend(OwnPatterns, a, b);
  }

  /** Soundness: every pattern reported for a file is the one pattern of a node
      of the walk on which a matcher fires; the walk reaches nodes in pre-order. */
  lemma PatternProvenance(n: Node, file: string, p: RiskyPattern)
    requires p in FilePatterns(n, file)
    ensures exists k :: (0 <= k < |PreOrder(n)| &&
      (IsOverride(PreOrder(n)[k]) || IsFallback(PreOrder(n)[k])) && OwnPatterns(PreOrder(n)[k], file) == [p])
  {
    CollectIsPreOrder(OwnPatterns, n, file);
    OverProvenance(OwnPatterns, PreOrder(n), file, p);
  }

  /** Completeness: every node of the tree on which a matcher fires has its
      pattern reported. */
  lemma PatternComplete(n: Node, file: string, k: nat)
    requires k < |PreOrder(n)| && (IsOverride(PreOrder(n)[k]) || IsFallback(PreOrder(n)[k]))
    ensures OwnPatterns(PreOrder(n)[k], file)[0] in FilePatterns(n, file)
  {
    CollectIsPreOrder(OwnPatterns, n, file);
    OverComplete(OwnPatterns, PreOrder(n), file, k, OwnPatterns(PreOrder(n)[k], file)[0]);
  }

  /** Every pattern found in a file carries that file's path, a 1-based
      position and the location text built from the three, and is of one of
      the two kinds. */
  lemma PatternPlaced(n: Node, file: string, p: RiskyPattern)
    requires p in FilePatterns(n, file)
    ensures PlacedIn(p, file) && WellFormedKind(p)
  {
    PatternProvenance(n, file, p);
    var k :| 0 <= k < |PreOrder(n)| && (IsOverride(PreOrder(n)[k]) || IsFallback(PreOrder(n)[k]))
      && OwnPatterns(PreOrder(n)[k], file) == [p];
    var m := PreOrder(n)[k];
    if IsFallback(m) {
      assert (FallbackPrefix + m.right.src)[..|FallbackPrefix|] == FallbackPrefix;
    }
  }

  /** Every pattern of a run names one of the supplied files. */
  lemma AllPatternsPlaced(files: seq<ParsedFile>, p: RiskyPattern)
    requires p in AllPatterns(files)
    ensures exists i :: 0 <= i < |files| && PlacedIn(p, files[i].filePath) && WellFormedKind(p)
  {
    PerFileProvenance(OwnPatterns, files, p);
    var i :| 0 <= i < |files| && p in FilePatterns(files[i].sourceFile, files[i].filePath);
    PatternPlaced(files[i].sourceFile, files[i].filePath, p);
  }

  /** The location text splits back into the path and the two numbers, as long
      as the path has no colon. */
  lemma LocationRoundTrip(file: string, line: nat, column: nat)
    requires ':' !in file
    ensures Split(Location(file, line, column), ':') == [file, NatToString(line), NatToString(column)]
    ensures DecimalValue(NatToString(line)) == line && DecimalValue(NatToString(column)) == column
  {
    var l, c := NatToString(line), NatToString(column);
    assert ':' !in l by { assert forall i :: 0 <= i < |l| ==> IsDigit(l[i]); }
    assert ':' !in c by { assert forall i :: 0 <= i < |c| ==> IsDigit(c[i]); }
    var parts := [file, l, c];
    assert parts[1..] == [l, c] && [l, c][1..] == [c];
    assert Join(parts, ':') == file + ":" + l + ":" + c;
    SplitJoin(parts, ':');
    DecimalRoundTrip(line);
    DecimalRoundTrip(column);
  }

  /** The boolean disjunct of the fallback test is dead: `true` and `false` are
      not literal expressions, so `process.env.X || false` reports nothing. */
  lemma BooleanFallbackNeverReported(n: Node, file: string)
    requires n.Binary? && n.op == BarBar && (n.right.TrueKw? || n.right.FalseKw?)
    ensures OwnPatterns(n, file) == []
  {
  }

  /** The fallback right operand test accepts exactly string and numeric
      literals: identifiers, calls, templates, prefixed numbers such as `-1`
      (a prefix expression) and keywords are refused. */
  lemma FallbackLiteralKinds(right: Node)
    ensures IsFallbackLiteral(right) <==> right.StringLit? || right.NumLit?
  {
  }

  /** The state of one `detectInFile` call: the file's path and the array the
      `visit` closure pushes to. */
  class PatternCollector {
    const file: string
    var patterns: seq<RiskyPattern>

    constructor (file: string)
      ensures this.file == file && patterns == []
    {
      this.file := file;
      patterns := [];
    }

    /** `visit`: test the node against both matchers, then visit its children. */
    method Visit(node: Node)
      modifies this
      ensures patterns == old(patterns) + FilePatterns(node, file)
      decreases Size(node), 0
    {
      ghost var before := patterns;
      if node.Binary? && node.op == Equals {
        var left := node.left;
        if left.PropAccess? {
          if IsProcessEnv(left.expr) && left.name.Identifier? && left.name.text == NodeEnv {
            patterns := patterns + [OverrideAt(node, file)];
          }
        }
      }
      if node.Binary? && node.op == BarBar {
        var left := node.left;
        var isProcessEnv := false;
        if left.PropAccess? {
          if IsProcessEnv(left.expr) {
            isProcessEnv := true;
          }
        } else if left.ElemAccess? {
          if IsProcessEnv(left.expr) {
            isProcessEnv := true;
          }
        }
        if isProcessEnv {
          var right := node.right;
          if IsFallbackLiteral(right) {
            patterns := patterns + [FallbackAt(node, file)];
          }
        }
      }
      assert patterns == before + OwnPatterns(node, file);
      ChildrenSize(node);
      VisitEach(Children(node));
      CollectUnfold(OwnPatterns, node, file);
      AppendAssoc(before, OwnPatterns(node, file), CollectForest(OwnPatterns, Children(node), file));
    }

    /** `ts.forEachChild(node, visit)`: visit each child in turn. */
    method VisitEach(children: seq<Node>)
      modifies this
      ensures patterns == old(patterns) + CollectForest(OwnPatterns, children, file)
      decreases ForestSize(children), 1
    {
      for i := 0 to |children|
        invariant patterns == old(patterns) + CollectForest(OwnPatterns, children[..i], file)
      {
        ForestSizeBound(children, i);
        ghost var done := CollectForest(OwnPatterns, children[..i], file);
        Visit(children[i]);
        CollectForestSnoc(OwnPatterns, children, i, file);
        AppendAssoc(old(patterns), done, FilePatterns(children[i], file));
      }
      CollectForestWhole(OwnPatterns, children, file);
    }
  }

  /** `detectInFile`. */
  method DetectInFile(sourceFile: Node, filePath: string) returns (patterns: seq<RiskyPattern>)
    ensures patterns == FilePatterns(sourceFile, filePath)
  {
    var collector := new PatternCollector(filePath);
    collector.Visit(sourceFile);
    patterns := collector.patterns;
  }

  /** `detectRiskyPatterns`: every file's patterns, files in the order given. */
  method DetectRiskyPatterns(parsedFiles: seq<ParsedFile>) returns (patterns: seq<RiskyPattern>)
    ensures patterns == AllPatterns(parsedFiles)
  {
    patterns := [];
    for i := 0 to |parsedFiles|
      invariant patterns == AllPatterns(parsedFiles[..i])
    {
      var filePatterns := DetectInFile(parsedFiles[i].sourceFile, parsedFiles[i].filePath);
      PerFileSnoc(OwnPatterns, parsedFiles, i);
      patterns := patterns + filePatterns;
    }
    PerFileWhole(OwnPatterns, parsedFiles);
  }
}
