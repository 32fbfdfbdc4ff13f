/**
  The closed syntax tree that stands in for the TypeScript compiler's nodes.
  Each constructor is one node kind the engine distinguishes; every node carries
  the 0-based position of its first token (what `getStart` and
  `getLineAndCharacterOfPosition` return) and its verbatim source text (what
  `getText` returns). The kind tests of the TypeScript library become
  discriminators and the predicates below.
*/
module Syntax {
  import opened Wrappers

  /** 0-based line and character of a node's first token. */
  datatype Pos = Pos(line: nat, character: nat)

  /** The operator token of a binary expression: `=`, `||`, or anything else
      (`+=`, `||=`, `==`, `&&`, ...). */
  datatype Op = Equals | BarBar | OtherOp

  datatype Node =
    | Identifier(text: string, start: Pos, src: string)
      /** `expr.name`; `name` is an identifier (or, in class bodies, a private name). */
    | PropAccess(expr: Node, name: Node, start: Pos, src: string)
      /** `expr[arg]`; the argument is absent only in a recovered, malformed tree. */
    | ElemAccess(expr: Node, arg: Option<Node>, start: Pos, src: string)
      /** A quoted string literal; `text` is its unescaped value. */
    | StringLit(text: string, start: Pos, src: string)
    | NumLit(start: Pos, src: string)
      /** The remaining literal tokens: bigint, regular expression, template without substitutions. */
    | OtherLit(start: Pos, src: string)
    | TrueKw(start: Pos, src: string)
    | FalseKw(start: Pos, src: string)
    | Binary(left: Node, op: Op, right: Node, start: Pos, src: string)
      /** Every other node kind, with its children in `forEachChild` order. */
    | Other(children: seq<Node>, start: Pos, src: string)

  /** One file handed to the engine: its tree and its path. */
  datatype ParsedFile = ParsedFile(sourceFile: Node, filePath: string)

  /** `ts.isStringLiteral`. */
  predicate IsStringLiteral(n: Node) { n.StringLit? }

  /** `ts.isNumericLiteral`. */
  predicate IsNumericLiteral(n: Node) { n.NumLit? }

  /** `ts.isLiteralExpression`: a kind-range test over the literal tokens
      (numeric, bigint, string, regular expression, template without substitutions).
      The `true` and `false` keywords are outside that range. */
  predicate IsLiteralExpression(n: Node) { n.StringLit? || n.NumLit? || n.OtherLit? }

  /** The receiver shape both matchers look for: `process.env`, that is a property
      access whose object is the identifier `process` and whose member is the
      identifier `env`. */
  predicate IsProcessEnv(e: Node) {
    && e.PropAccess?
    && e.expr.Identifier? && e.expr.text == "process"
    && e.name.Identifier? && e.name.text == "env"
  }

  /** The children of a node in the order `forEachChild` visits them. Operator
      tokens are not modelled as children: a token has no children and matches
      nothing. */
  function Children(n: Node): seq<Node> {
    match n
    case PropAccess(e, nm, _, _) => [e, nm]
    case ElemAccess(e, arg, _, _) => (match arg case Some(a) => [e, a] case None => [e])
    case Binary(l, _, r, _, _) => [l, r]
    case Other(cs, _, _) => cs
    case _ => []
  }

  /** The number of nodes in a tree: the measure a walk over children decreases. */
  function Size(n: Node): nat
    decreases n
  {
    1 + match n
      case PropAccess(e, nm, _, _) => Size(e) + Size(nm)
      case ElemAccess(e, arg, _, _) => Size(e) + (match arg case Some(a) => Size(a) case None => 0)
      case Binary(l, _, r, _, _) => Size(l) + Size(r)
      case Other(cs, _, _) => ForestSize(cs)
      case _ => 0
  }

  function ForestSize(cs: seq<Node>): nat
    decreases cs
  {
    if cs == [] then 0 else ForestSize(cs[..|cs| - 1]) + Size(cs[|cs| - 1])
  }

  lemma {:induction false} ForestSizeBound(cs: seq<Node>, i: nat)
    requires i < |cs|
    ensures Size(cs[i]) <= ForestSize(cs)
    decreases |cs|
  {
    if i < |cs| - 1 {
      ForestSizeBound(cs[..|cs| - 1], i);
    }
  }

  lemma ForestSizePair(x: Node, y: Node)
    ensures ForestSize([x, y]) == Size(x) + Size(y)
  {
    assert [x, y][..1] == [x] && [x][..0] == [];
    assert ForestSize([x]) == Size(x);
  }

  /** The children together are all of the tree but its root. */
  lemma ChildrenSize(n: Node)
    ensures ForestSize(Children(n)) == Size(n) - 1
  {
    match n
    case PropAccess(e, nm, _, _) => ForestSizePair(e, nm);
    case ElemAccess(e, arg, _, _) =>
      match arg {
        case Some(a) => ForestSizePair(e, a);
        case None => assert [e][..0] == [];
      }
    case Binary(l, _, r, _, _) => ForestSizePair(l, r);
    case _ =>
  }

  /** The nodes of a tree in the order the recursive `visit` reaches them:
      a node first, then each child's subtree, left to right. */
  function PreOrder(n: Node): (r: seq<Node>)
    ensures |r| >= 1 && r[0] == n
    decreases n
  {
    [n] + match n
      case PropAccess(e, nm, _, _) => PreOrder(e) + PreOrder(nm)
      case ElemAccess(e, arg, _, _) => PreOrder(e) + (match arg case Some(a) => PreOrder(a) case None => [])
      case Binary(l, _, r, _, _) => PreOrder(l) + PreOrder(r)
      case Other(cs, _, _) => PreOrderForest(cs)
      case _ => []
  }

  /** The pre-order sequences of several sibling trees, concatenated left to right. */
  function PreOrderForest(cs: seq<Node>): seq<Node>
    decreases cs
  {
    if cs == [] then [] else PreOrderForest(cs[..|cs| - 1]) + PreOrder(cs[|cs| - 1])
  }

  lemma {:induction false} PreOrderForestAppend(a: seq<Node>, b: seq<Node>)
    ensures PreOrderForest(a + b) == PreOrderForest(a) + PreOrderForest(b)
    decreases |b|
  {
    if b == [] {
      assert a + b == a;
    } else {
      var b', last := b[..|b| - 1], b[|b| - 1];
      assert (a + b)[..|a + b| - 1] == a + b';
      assert (a + b)[|a + b| - 1] == last;
      PreOrderForestAppend(a, b');
      assert PreOrderForest(a + b) == PreOrderForest(a + b') + PreOrder(last);
      assert PreOrderForest(b) == PreOrderForest(b') + PreOrder(last);
    }
  }

  lemma PreOrderForestPair(x: Node, y: Node)
    ensures PreOrderForest([x, y]) == PreOrder(x) + PreOrder(y)
  {
    assert [x, y][..1] == [x] && [x][..0] == [];
    assert PreOrderForest([x]) == PreOrder(x);
  }

  /** Pre-order in the generic sense: the walk lists a node before its
      descendants, and the subtrees of `Children(n)` one after another, in order. */
  lemma PreOrderIsNodeThenChildren(n: Node)
    ensures PreOrder(n) == [n] + PreOrderForest(Children(n))
  {
    match n
    case PropAccess(e, nm, _, _) =>
      assert Children(n) == [e, nm];
      PreOrderForestPair(e, nm);
    case ElemAccess(e, arg, _, _) =>
      match arg {
        case Some(a) =>
          assert Children(n) == [e, a];
          PreOrderForestPair(e, a);
        case None =>
          assert Children(n) == [e];
          assert [e][..0] == [];
          assert PreOrderForest([e]) == [] + PreOrder(e) == PreOrder(e);
          assert PreOrder(n) == [n] + (PreOrder(e) + []);
          assert PreOrder(e) + [] == PreOrder(e);
      }
    case Binary(l, _, r, _, _) =>
      assert Children(n) == [l, r];
      PreOrderForestPair(l, r);
    case Other(cs, _, _) =>
    case _ =>
      assert Children(n) == [];
      assert PreOrder(n) == [n] + [];
  }
}
