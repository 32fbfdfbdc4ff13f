/**
  The repository's sample source file, tests/fixtures/sample-code.ts, as a
  tree built by hand, and what the engine reports for it:

    const apiKey = process.env.API_KEY;
    const dbUrl = process.env['DATABASE_URL'];
    const nodeEnv = process.env.NODE_ENV || 'development';
    process.env.NODE_ENV = 'production';
    const port = process.env.PORT || 3000;
    const debug = process.env.DEBUG || false;

  Positions are the 0-based line and character of each node's first token in
  that file (its comments and blank lines included). The closing `export`
  list holds no environment read and is left out. The source text of the
  statement and declaration wrappers is left empty, since neither walk reads
  it.
*/
module Fixture {
  import opened Wrappers
  import opened Syntax
  import opened Types
  import opened Walk
  import opened Extractor
  import opened Detector
  import opened Analyzer
  import opened StringOrder
  import opened Cli

  /** `process.env` starting at `(line, ch)`. */
  function ProcessEnvAt(line: nat, ch: nat): Node {
    PropAccess(Identifier("process", Pos(line, ch), "process"), Identifier("env", Pos(line, ch + 8), "env"),
      Pos(line, ch), "process.env")
  }

  /** `process.env.NAME` starting at `(line, ch)`. */
  function DottedAt(name: string, line: nat, ch: nat): Node {
    PropAccess(ProcessEnvAt(line, ch), Identifier(name, Pos(line, ch + 12), name), Pos(line, ch), "process.env." + name)
  }

  /** `process.env['NAME']` starting at `(line, ch)`. */
  function IndexedAt(name: string, line: nat, ch: nat): Node {
    ElemAccess(ProcessEnvAt(line, ch), Some(StringLit(name, Pos(line, ch + 12), "'" + name + "'")),
      Pos(line, ch), "process.env['" + name + "']")
  }

  /** The declaration `name = init` of a `const` statement on `line`. */
  function DeclarationAt(name: string, init: Node, line: nat): Node {
    Other([Identifier(name, Pos(line, 6), name), init], Pos(line, 6), "")
  }

  /** `const name = init;` on `line`: the statement, its declaration list and
      the declaration. */
  function ConstAt(name: string, init: Node, line: nat): Node {
    Other([Other([DeclarationAt(name, init, line)], Pos(line, 0), "")], Pos(line, 0), "")
  }

  const NodeEnvFallback: Node :=
    Binary(DottedAt("NODE_ENV", 4, 16), BarBar, StringLit("development", Pos(4, 40), "'development'"),
      Pos(4, 16), "")

  const NodeEnvAssignment: Node :=
    Binary(DottedAt("NODE_ENV", 7, 0), Equals, StringLit("production", Pos(7, 23), "'production'"),
      Pos(7, 0), "")

  const PortFallback: Node :=
    Binary(DottedAt("PORT", 10, 13), BarBar, NumLit(Pos(10, 33), "3000"), Pos(10, 13), "")

  const DebugFallback: Node :=
    Binary(DottedAt("DEBUG", 11, 14), BarBar, FalseKw(Pos(11, 35), "false"), Pos(11, 14), "")

  const ApiKeyStatement: Node := ConstAt("apiKey", DottedAt("API_KEY", 2, 15), 2)
  const DatabaseUrlStatement: Node := ConstAt("dbUrl", IndexedAt("DATABASE_URL", 3, 14), 3)
  const NodeEnvStatement: Node := ConstAt("nodeEnv", NodeEnvFallback, 4)
  const AssignmentStatement: Node := Other([NodeEnvAssignment], Pos(7, 0), "")
  const PortStatement: Node := ConstAt("port", PortFallback, 10)
  const DebugStatement: Node := ConstAt("debug", DebugFallback, 11)

  const Statements: seq<Node> := [
    ApiKeyStatement, DatabaseUrlStatement, NodeEnvStatement, AssignmentStatement, PortStatement, DebugStatement
  ]

  const Sample: Node := Other(Statements, Pos(0, 0), "")

  /** A node with one child and no results of its own yields its child's. */
  lemma WrapperCollect<T>(own: (Node, string) -> seq<T>, n: Node, file: string)
    requires |Children(n)| == 1 && own(n, file) == []
    ensures Collect(own, n, file) == Collect(own, Children(n)[0], file)
  {
    CollectUnfold(own, n, file);
    assert Children(n) == [Children(n)[0]];
    CollectForestSingle(own, Children(n)[0], file);
  }

  /** A node with two children yields its own results, then each child's. */
  lemma PairCollect<T>(own: (Node, string) -> seq<T>, n: Node, file: string)
    requires |Children(n)| == 2
    ensures Collect(own, n, file) == own(n, file) + Collect(own, Children(n)[0], file) + Collect(own, Children(n)[1], file)
  {
    CollectUnfold(own, n, file);
    assert Children(n) == [Children(n)[0], Children(n)[1]];
    CollectForestPair(own, Children(n)[0], Children(n)[1], file);
  }

  /** A `process.env.NAME` read yields its own results only. */
  lemma DottedCollect<T>(own: (Node, string) -> seq<T>, name: string, line: nat, ch: nat, file: string)
    requires own(ProcessEnvAt(line, ch), file) == []
    requires own(Identifier("process", Pos(line, ch), "process"), file) == []
    requires own(Identifier("env", Pos(line, ch + 8), "env"), file) == []
    requires own(Identifier(name, Pos(line, ch + 12), name), file) == []
    ensures Collect(own, DottedAt(name, line, ch), file) == own(DottedAt(name, line, ch), file)
  {
    PairCollect(own, DottedAt(name, line, ch), file);
    PairCollect(own, ProcessEnvAt(line, ch), file);
    CollectLeaf(own, Identifier("process", Pos(line, ch), "process"), file);
    CollectLeaf(own, Identifier("env", Pos(line, ch + 8), "env"), file);
    CollectLeaf(own, Identifier(name, Pos(line, ch + 12), name), file);
  }

  /** A `const` statement yields what its initializer yields. */
  lemma ConstCollect<T>(own: (Node, string) -> seq<T>, name: string, init: Node, line: nat, file: string)
    requires own(ConstAt(name, init, line), file) == []
    requires own(Other([DeclarationAt(name, init, line)], Pos(line, 0), ""), file) == []
    requires own(DeclarationAt(name, init, line), file) == []
    requires own(Identifier(name, Pos(line, 6), name), file) == []
    ensures Collect(own, ConstAt(name, init, line), file) == Collect(own, init, file)
  {
    WrapperCollect(own, ConstAt(name, init, line), file);
    WrapperCollect(own, Other([DeclarationAt(name, init, line)], Pos(line, 0), ""), file);
    PairCollect(own, DeclarationAt(name, init, line), file);
    CollectLeaf(own, Identifier(name, Pos(line, 6), name), file);
  }

  /** A dotted read records one reference at its start and no pattern. */
  lemma DottedReport(name: string, line: nat, ch: nat, file: string)
    ensures FileReferences(DottedAt(name, line, ch), file) == [EnvReference(name, file, line + 1, ch + 1)]
    ensures FilePatterns(DottedAt(name, line, ch), file) == []
  {
    assert IsDottedRead(DottedAt(name, line, ch)) && !IsDottedRead(ProcessEnvAt(line, ch));
    DottedCollect(OwnReferences, name, line, ch, file);
    DottedCollect(OwnPatterns, name, line, ch, file);
  }

  /** A `const` statement reports what its initializer reports. */
  lemma ConstReport(name: string, init: Node, line: nat, file: string)
    ensures FileReferences(ConstAt(name, init, line), file) == FileReferences(init, file)
    ensures FilePatterns(ConstAt(name, init, line), file) == FilePatterns(init, file)
  {
    ConstCollect(OwnReferences, name, init, line, file);
    ConstCollect(OwnPatterns, name, init, line, file);
  }

  /** A `process.env['NAME']` read yields its own results only. */
  lemma IndexedCollect<T>(own: (Node, string) -> seq<T>, name: string, line: nat, ch: nat, file: string)
    requires own(ProcessEnvAt(line, ch), file) == []
    requires own(Identifier("process", Pos(line, ch), "process"), file) == []
    requires own(Identifier("env", Pos(line, ch + 8), "env"), file) == []
    requires own(StringLit(name, Pos(line, ch + 12), "'" + name + "'"), file) == []
    ensures Collect(own, IndexedAt(name, line, ch), file) == own(IndexedAt(name, line, ch), file)
  {
    var key := StringLit(name, Pos(line, ch + 12), "'" + name + "'");
    assert Children(IndexedAt(name, line, ch)) == [ProcessEnvAt(line, ch), key];
    PairCollect(own, IndexedAt(name, line, ch), file);
    PairCollect(own, ProcessEnvAt(line, ch), file);
    CollectLeaf(own, Identifier("process", Pos(line, ch), "process"), file);
    CollectLeaf(own, Identifier("env", Pos(line, ch + 8), "env"), file);
    CollectLeaf(own, key, file);
  }

  /** An indexed read with a string key records one reference at its start
      and no pattern. */
  lemma IndexedReport(name: string, line: nat, ch: nat, file: string)
    ensures FileReferences(IndexedAt(name, line, ch), file) == [EnvReference(name, file, line + 1, ch + 1)]
    ensures FilePatterns(IndexedAt(name, line, ch), file) == []
  {
    IndexedCollect(OwnReferences, name, line, ch, file);
    IndexedCollect(OwnPatterns, name, line, ch, file);
  }

  /** `process.env.NAME op right` with a literal on the right: the read's
      reference, and the binary node's own pattern, if any. */
  lemma BinaryReport(name: string, line: nat, ch: nat, op: Op, right: Node, file: string)
    requires right.StringLit? || right.NumLit? || right.FalseKw?
    ensures var n := Binary(DottedAt(name, line, ch), op, right, Pos(line, ch), "");
      && FileReferences(n, file) == [EnvReference(name, file, line + 1, ch + 1)]
      && FilePatterns(n, file) == OwnPatterns(n, file)
  {
    var n := Binary(DottedAt(name, line, ch), op, right, Pos(line, ch), "");
    DottedReport(name, line, ch, file);
    assert Children(n) == [DottedAt(name, line, ch), right];
    assert OwnReferences(n, file) == [] && OwnReferences(right, file) == [] && OwnPatterns(right, file) == [];
    PairCollect(OwnReferences, n, file);
    PairCollect(OwnPatterns, n, file);
    CollectLeaf(OwnReferences, right, file);
    CollectLeaf(OwnPatterns, right, file);
  }

  /** `const decl = process.env.NAME op right;` with a literal on the right. */
  lemma BinaryStatementReport(decl: string, name: string, line: nat, ch: nat, op: Op, right: Node, file: string)
    requires right.StringLit? || right.NumLit? || right.FalseKw?
    ensures var n := Binary(DottedAt(name, line, ch), op, right, Pos(line, ch), "");
      && FileReferences(ConstAt(decl, n, line), file) == [EnvReference(name, file, line + 1, ch + 1)]
      && FilePatterns(ConstAt(decl, n, line), file) == OwnPatterns(n, file)
  {
    BinaryReport(name, line, ch, op, right, file);
    ConstReport(decl, Binary(DottedAt(name, line, ch), op, right, Pos(line, ch), ""), line, file);
  }

  /** `const apiKey = process.env.API_KEY;`: one reference, no pattern. */
  lemma ApiKeyReport(file: string)
    ensures FileReferences(ApiKeyStatement, file) == [EnvReference("API_KEY", file, 3, 16)]
    ensures FilePatterns(ApiKeyStatement, file) == []
  {
    DottedReport("API_KEY", 2, 15, file);
    ConstReport("apiKey", DottedAt("API_KEY", 2, 15), 2, file);
  }

  /** `const dbUrl = process.env['DATABASE_URL'];`: one reference, no pattern. */
  lemma DatabaseUrlReport(file: string)
    ensures FileReferences(DatabaseUrlStatement, file) == [EnvReference("DATABASE_URL", file, 4, 15)]
    ensures FilePatterns(DatabaseUrlStatement, file) == []
  {
    IndexedReport("DATABASE_URL", 3, 14, file);
    ConstReport("dbUrl", IndexedAt("DATABASE_URL", 3, 14), 3, file);
  }

  /** `const nodeEnv = process.env.NODE_ENV || 'development';`: the read and a
      fallback. */
  lemma NodeEnvFallbackReport(file: string)
    ensures FileReferences(NodeEnvStatement, file) == [EnvReference("NODE_ENV", file, 5, 17)]
    ensures FilePatterns(NodeEnvStatement, file) == [FallbackAt(NodeEnvFallback, file)]
  {
    BinaryStatementReport("nodeEnv", "NODE_ENV", 4, 16, BarBar, StringLit("development", Pos(4, 40), "'development'"), file);
    assert IsFallback(NodeEnvFallback) && !IsOverride(NodeEnvFallback);
  }

  /** `process.env.NAME op right;` as a statement of its own on `line`. */
  lemma ExpressionStatementReport(name: string, line: nat, ch: nat, op: Op, right: Node, file: string)
    requires right.StringLit? || right.NumLit? || right.FalseKw?
    ensures var n := Binary(DottedAt(name, line, ch), op, right, Pos(line, ch), "");
      && FileReferences(Other([n], Pos(line, ch), ""), file) == [EnvReference(name, file, line + 1, ch + 1)]
      && FilePatterns(Other([n], Pos(line, ch), ""), file) == OwnPatterns(n, file)
  {
    var n := Binary(DottedAt(name, line, ch), op, right, Pos(line, ch), "");
    BinaryReport(name, line, ch, op, right, file);
    WrapperCollect(OwnReferences, Other([n], Pos(line, ch), ""), file);
    WrapperCollect(OwnPatterns, Other([n], Pos(line, ch), ""), file);
  }

  /** `process.env.NODE_ENV = 'production';`: the assignment target is recorded
      as a read, and the override is reported. */
  lemma NodeEnvAssignmentReport(file: string)
    ensures FileReferences(AssignmentStatement, file) == [EnvReference("NODE_ENV", file, 8, 1)]
    ensures FilePatterns(AssignmentStatement, file) == [OverrideAt(NodeEnvAssignment, file)]
  {
    ExpressionStatementReport("NODE_ENV", 7, 0, Equals, StringLit("production", Pos(7, 23), "'production'"), file);
    assert IsOverride(NodeEnvAssignment) && !IsFallback(NodeEnvAssignment);
  }

  /** `const port = process.env.PORT || 3000;`: the read and a fallback. */
  lemma PortFallbackReport(file: string)
    ensures FileReferences(PortStatement, file) == [EnvReference("PORT", file, 11, 14)]
    ensures FilePatterns(PortStatement, file) == [FallbackAt(PortFallback, file)]
  {
    BinaryStatementReport("port", "PORT", 10, 13, BarBar, NumLit(Pos(10, 33), "3000"), file);
    assert IsFallback(PortFallback) && !IsOverride(PortFallback);
  }

  /** `const debug = process.env.DEBUG || false;`: the read, and no pattern,
      since `false` is not a literal expression. */
  lemma DebugFallbackReport(file: string)
    ensures FileReferences(DebugStatement, file) == [EnvReference("DEBUG", file, 12, 15)]
    ensures FilePatterns(DebugStatement, file) == []
  {
    BinaryStatementReport("debug", "DEBUG", 11, 14, BarBar, FalseKw(Pos(11, 35), "false"), file);
    assert !IsFallback(DebugFallback) && !IsOverride(DebugFallback);
  }

  /** The six references, in pre-order: `NODE_ENV` twice, once for the read
      and once for the assignment target. */
  function SampleReferences(file: string): seq<EnvReference> {
    [ EnvReference("API_KEY", file, 3, 16),
      EnvReference("DATABASE_URL", file, 4, 15),
      EnvReference("NODE_ENV", file, 5, 17),
      EnvReference("NODE_ENV", file, 8, 1),
      EnvReference("PORT", file, 11, 14),
      EnvReference("DEBUG", file, 12, 15) ]
  }

  /** The three patterns: two fallbacks and the override; `|| false` is not
      among them. */
  function SamplePatterns(file: string): seq<RiskyPattern> {
    [FallbackAt(NodeEnvFallback, file), OverrideAt(NodeEnvAssignment, file), FallbackAt(PortFallback, file)]
  }

  /** One more sibling at the end. */
  lemma CollectForestLast<T>(own: (Node, string) -> seq<T>, cs: seq<Node>, x: Node, file: string)
    ensures CollectForest(own, cs + [x], file) == CollectForest(own, cs, file) + Collect(own, x, file)
  {
    assert (cs + [x])[..|cs|] == cs;
  }

  /** Six siblings, each in turn. */
  lemma CollectForestSix<T>(own: (Node, string) -> seq<T>, a: Node, b: Node, c: Node, d: Node, e: Node, f: Node, file: string)
    ensures CollectForest(own, [a, b, c, d, e, f], file) ==
      Collect(own, a, file) + Collect(own, b, file) + Collect(own, c, file)
      + Collect(own, d, file) + Collect(own, e, file) + Collect(own, f, file)
  {
    CollectForestSingle(own, a, file);
    CollectForestLast(own, [a], b, file);
    assert [a] + [b] == [a, b];
    CollectForestLast(own, [a, b], c, file);
    assert [a, b] + [c] == [a, b, c];
    CollectForestLast(own, [a, b, c], d, file);
    assert [a, b, c] + [d] == [a, b, c, d];
    CollectForestLast(own, [a, b, c, d], e, file);
    assert [a, b, c, d] + [e] == [a, b, c, d, e];
    CollectForestLast(own, [a, b, c, d, e], f, file);
    assert [a, b, c, d, e] + [f] == [a, b, c, d, e, f];
  }

  /** A node of six children with no results of its own yields theirs in turn. */
  lemma SixCollect<T>(own: (Node, string) -> seq<T>, a: Node, b: Node, c: Node, d: Node, e: Node, f: Node, file: string)
    requires own(Other([a, b, c, d, e, f], Pos(0, 0), ""), file) == []
    ensures Collect(own, Other([a, b, c, d, e, f], Pos(0, 0), ""), file) ==
      Collect(own, a, file) + Collect(own, b, file) + Collect(own, c, file)
      + Collect(own, d, file) + Collect(own, e, file) + Collect(own, f, file)
  {
    CollectUnfold(own, Other([a, b, c, d, e, f], Pos(0, 0), ""), file);
    CollectForestSix(own, a, b, c, d, e, f, file);
  }

  /** Six one-element results in a row. */
  lemma ConcatSingletons<T>(s1: seq<T>, s2: seq<T>, s3: seq<T>, s4: seq<T>, s5: seq<T>, s6: seq<T>,
      a: T, b: T, c: T, d: T, e: T, f: T)
    requires s1 == [a] && s2 == [b] && s3 == [c] && s4 == [d] && s5 == [e] && s6 == [f]
    ensures s1 + s2 + s3 + s4 + s5 + s6 == [a, b, c, d, e, f]
  {
  }

  /** Six results of which the third, fourth and fifth hold one element each. */
  lemma ConcatMiddle<T>(s1: seq<T>, s2: seq<T>, s3: seq<T>, s4: seq<T>, s5: seq<T>, s6: seq<T>,
      a: T, b: T, c: T)
    requires s1 == [] && s2 == [] && s3 == [a] && s4 == [b] && s5 == [c] && s6 == []
    ensures s1 + s2 + s3 + s4 + s5 + s6 == [a, b, c]
  {
  }

  /** The walk of the whole file, statement by statement. */
  lemma SampleReport(file: string)
    ensures FileReferences(Sample, file) == SampleReferences(file)
    ensures FilePatterns(Sample, file) == SamplePatterns(file)
  {
    assert Sample == Other([ApiKeyStatement, DatabaseUrlStatement, NodeEnvStatement,
      AssignmentStatement, PortStatement, DebugStatement], Pos(0, 0), "");
    SixCollect(OwnReferences, ApiKeyStatement, DatabaseUrlStatement, NodeEnvStatement,
      AssignmentStatement, PortStatement, DebugStatement, file);
    SixCollect(OwnPatterns, ApiKeyStatement, DatabaseUrlStatement, NodeEnvStatement,
      AssignmentStatement, PortStatement, DebugStatement, file);
    ApiKeyReport(file);
    DatabaseUrlReport(file);
    NodeEnvFallbackReport(file);
    NodeEnvAssignmentReport(file);
    PortFallbackReport(file);
    DebugFallbackReport(file);
    ConcatSingletons(FileReferences(ApiKeyStatement, file), FileReferences(DatabaseUrlStatement, file),
      FileReferences(NodeEnvStatement, file), FileReferences(AssignmentStatement, file),
      FileReferences(PortStatement, file), FileReferences(DebugStatement, file),
      EnvReference("API_KEY", file, 3, 16), EnvReference("DATABASE_URL", file, 4, 15),
      EnvReference("NODE_ENV", file, 5, 17), EnvReference("NODE_ENV", file, 8, 1),
      EnvReference("PORT", file, 11, 14), EnvReference("DEBUG", file, 12, 15));
    ConcatMiddle(FilePatterns(ApiKeyStatement, file), FilePatterns(DatabaseUrlStatement, file),
      FilePatterns(NodeEnvStatement, file), FilePatterns(AssignmentStatement, file),
      FilePatterns(PortStatement, file), FilePatterns(DebugStatement, file),
      FallbackAt(NodeEnvFallback, file), OverrideAt(NodeEnvAssignment, file), FallbackAt(PortFallback, file));
  }

  /** The names the sample's references carry. */
  lemma SampleNames(file: string)
    ensures Names(SampleReferences(file)) == {"API_KEY", "DATABASE_URL", "NODE_ENV", "PORT", "DEBUG"}
  {
    var refs := SampleReferences(file);
    assert refs[0].name == "API_KEY" && refs[1].name == "DATABASE_URL" && refs[2].name == "NODE_ENV";
    assert refs[3].name == "NODE_ENV" && refs[4].name == "PORT" && refs[5].name == "DEBUG";
  }

  /** Four names, each strictly before the next, are ascending and distinct. */
  lemma AscendingFour(a: string, b: string, c: string, d: string)
    requires StrLe(a, b) && StrLe(b, c) && StrLe(c, d) && a != b && b != c && c != d
    ensures Sorted([a, b, c, d]) && Distinct([a, b, c, d])
  {
    StrLeTransitive(a, b, c);
    StrLeTransitive(b, c, d);
    StrLeTransitive(a, c, d);
    assert a != c by { if a == c { StrLeAntisymmetric(a, b); } }
    assert b != d by { if b == d { StrLeAntisymmetric(b, c); } }
    assert a != d by { if a == d { StrLeTransitive(b, c, d); StrLeAntisymmetric(a, b); } }
  }

  /** `missing` when exactly four names, in ascending order, are referenced
      and not available. */
  lemma MissingFour(references: seq<EnvReference>, available: seq<string>, a: string, b: string, c: string, d: string)
    requires StrLe(a, b) && StrLe(b, c) && StrLe(c, d) && a != b && b != c && c != d
    requires Names(references) - {""} - SetOf(available) == {a, b, c, d}
    ensures Missing(references, available) == [a, b, c, d]
  {
    AscendingFour(a, b, c, d);
    MissingCharacterized(references, available);
    forall x ensures x in Missing(references, available) <==> x in [a, b, c, d] {
      assert x in Names(references) - {""} - SetOf(available) <==> Referenced(references, x) && x !in available;
    }
    SortedDistinctEqual(Missing(references, available), [a, b, c, d]);
  }

  /** With only `API_KEY` and `EXTRA_VAR` defined, the other four names the
      sample reads are missing, once each and in ascending order. */
  lemma SampleMissing(file: string)
    ensures Missing(SampleReferences(file), ["API_KEY", "EXTRA_VAR"]) == ["DATABASE_URL", "DEBUG", "NODE_ENV", "PORT"]
  {
    SampleNames(file);
    assert SetOf(["API_KEY", "EXTRA_VAR"]) == {"API_KEY", "EXTRA_VAR"};
    MissingFour(SampleReferences(file), ["API_KEY", "EXTRA_VAR"], "DATABASE_URL", "DEBUG", "NODE_ENV", "PORT");
  }

  /** With only `API_KEY` and `EXTRA_VAR` defined, `EXTRA_VAR` is the one
      unused name. */
  lemma SampleUnused(file: string)
    ensures Unused(SampleReferences(file), ["API_KEY", "EXTRA_VAR"]) == ["EXTRA_VAR"]
  {
    var refs := SampleReferences(file);
    var available := ["API_KEY", "EXTRA_VAR"];
    var referenced := SetOf(ReferencedNames(refs));
    SampleNames(file);
    assert "API_KEY" in referenced && "EXTRA_VAR" !in referenced;
    assert available[..1] == ["API_KEY"] && ["API_KEY"][..0] == [];
    assert Keep(available, referenced) == ["EXTRA_VAR"];
    var sorted := SortStrings(["EXTRA_VAR"]);
    assert |multiset(sorted)| == 1 && "EXTRA_VAR" in multiset(sorted);
    assert sorted == [sorted[0]] && sorted[0] == "EXTRA_VAR";
  }

  /** A run over the sample file alone with `API_KEY` and `EXTRA_VAR`
      defined: six references, four missing names, one unused name and three
      risky patterns. */
  lemma SampleAnalysis(file: string)
    ensures Analysis([ParsedFile(Sample, file)], ["API_KEY", "EXTRA_VAR"]) ==
      AnalysisResult(SampleReferences(file), ["DATABASE_URL", "DEBUG", "NODE_ENV", "PORT"], ["EXTRA_VAR"], SamplePatterns(file))
  {
    var files := [ParsedFile(Sample, file)];
    PerFileSnoc(OwnReferences, files, 0);
    PerFileSnoc(OwnPatterns, files, 0);
    PerFileWhole(OwnReferences, files);
    PerFileWhole(OwnPatterns, files);
    assert files[..0] == [];
    SampleReport(file);
    assert AllReferences(files) == SampleReferences(file);
    assert AllPatterns(files) == SamplePatterns(file);
    SampleMissing(file);
    SampleUnused(file);
  }
}
