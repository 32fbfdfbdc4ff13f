# envwatch, modelled in Dafny

envwatch is a command-line tool. It compares the environment variables a
TypeScript/JavaScript code base reads with the variables the current
environment defines. It scans the source files and parses each one into a
syntax tree. It walks every tree to collect the `process.env` reads and to
flag risky patterns. Then it computes which referenced names are missing and
which defined names are unused, and prints a report.

This project models the engine between parsing and printing:

- **Syntax** (`syntax.dfy`): a closed datatype for the tree nodes the walks
  inspect. Each node carries its 0-based start position and source text.
  It also gives the child order `ts.forEachChild` visits and the pre-order
  of a tree.
- **Extractor** (`extractor.dfy`): the `visit` closure of `extractFromFile`
  is the class `ReferenceCollector`. Its recursive `Visit` appends to a
  `references` field and is proved equal to a pre-order specification
  (`FileReferences`). `extractEnvReferences` is a loop over the files.
- **Detector** (`detector.dfy`): the same structure for the override and
  fallback matchers (`PatternCollector`, `FilePatterns`, `detectRiskyPatterns`).
- **Walk** (`walk.dfy`): the pre-order walk and the per-file driver, shared
  by both walks, with the node's own contribution as a function parameter.
- **Analyzer** (`analyzer.dfy`): `analyzeEnvVars`, with its two filtering
  loops and the final sorts. `isCIEnvironment` reads an environment passed in
  as a map.
- **StringOrder** (`ordering.dfy`): the order `Array.prototype.sort` uses
  without a comparator, and a sort function that is ascending and a
  permutation of its input.
- **CIFormatter** and **DefaultFormatter** (`ci_format.dfy`,
  `default_format.dfy`): each formatter's line-pushing method, proved equal to
  a report function, with lemmas on that report's layout. Whether the run is
  a CI run is a parameter of the default formatter.
- **Cli** (`cli.dfy`): `runAnalysis` as the composition of the stages.
- **Fixture** (`fixture.dfy`): the repository's sample source file as a
  hand-built tree, with the references, patterns and analysis the engine
  produces for it.
- Support modules: `Decimal` (number printing and reading back), `Lines`
  (join and split), `Seqs`, `Wrappers`, `Types`.

The model follows the code as written. Four consequences of it are easy to
miss:

- The dotted-read matcher never looks at the node's parent, so it also fires
  on the target of an assignment. The sample file therefore yields six
  references, with `NODE_ENV` twice.
- The fallback test has a disjunct for the `true` and `false` keywords
  (src/detector.ts:93-95), which shows that boolean fallbacks were meant to be
  reported. That disjunct never holds, because it also requires
  `ts.isLiteralExpression`, and the two keywords are not literal expressions.
  So `process.env.DEBUG || false` is not reported, and the sample yields three
  risky patterns.
- `unused` is built by a loop over the environment list itself
  (src/analyzer.ts:23-27), so a name listed twice there is listed twice in
  `unused`.
- The CI `Referenced:` line always says "variables", even for a count of one,
  while the missing and unused count lines choose between singular and plural
  (src/formatters/ci.ts:14, 17, 25).

## Model

| member | source | states |
|---|---|---|
| Extractor.IsDottedRead | src/extractor.ts:24-32 | the dotted matcher: a property access whose receiver is the identifier `process` accessed by the identifier `env` |
| Extractor.IsIndexedRead | src/extractor.ts:48-57 | the indexed matcher: an element access on `process.env` whose index is present and a string literal |
| Extractor.DottedName | src/extractor.ts:33 | the recorded name of a dotted read: the member identifier's text, otherwise the member's source text |
| Extractor.OwnReferences | src/extractor.ts:24-71 | a node contributes at most one reference; exactly one when the dotted or the indexed matcher fires, named by the member identifier or by the string key |
| Extractor.ReferenceAt | src/extractor.ts:34-43 | a reference carries the file path, the name, and the node's start converted to a 1-based line and column |
| Extractor.ReferenceCollector.constructor | src/extractor.ts:20 | a collector starts empty, for the given file |
| Extractor.ReferenceCollector.Visit | src/extractor.ts:22-74 | visiting a node appends exactly the references of its subtree in pre-order, and nothing else |
| Extractor.ReferenceCollector.VisitEach | src/extractor.ts:73 | visiting the children in turn appends each child's references, left to right |
| Extractor.ExtractFromFile | src/extractor.ts:16-78 | the result is the file's references in pre-order |
| Extractor.ExtractEnvReferences | src/extractor.ts:5-14 | the result is every file's references, concatenated in file order |
| Extractor.AllReferencesAppend | src/extractor.ts:8-11 | the result over two batches of files is the concatenation of the two results |
| Extractor.ReferenceProvenance | src/extractor.ts:22-74 | soundness: every recorded reference comes from a node of the tree on which one matcher fires |
| Extractor.ReferenceComplete | src/extractor.ts:22-74 | completeness: every node on which a matcher fires has its reference recorded |
| Extractor.ReferencePlaced | src/extractor.ts:38-43 | every reference of a file carries that file's path and a line and column of at least 1 |
| Extractor.AllReferencesPlaced | src/extractor.ts:5-14 | every reference of a run names one of the supplied files |
| Extractor.BareProcessEnvRecordsNothing | src/extractor.ts:24-32 | `process.env` alone records nothing |
| Extractor.ChainedMemberRecordsInnerOnly | src/extractor.ts:24-33 | `process.env.A.B` records `A` only |
| Extractor.QualifiedProcessEnvRecordsNothing | src/extractor.ts:26-31 | `x.process.env.A` records nothing for any identifier `x`, `process` included |
| Extractor.NonLiteralKeyIgnored | src/extractor.ts:56-57 | an element access whose key is missing or not a string literal records nothing |
| Detector.IsOverride | src/detector.ts:24-39 | the override matcher: a plain `=` whose target is the property access `process.env.NODE_ENV` |
| Detector.IsProcessEnvOperand | src/detector.ts:61-86 | the `isProcessEnv` flag: a property or element access whose receiver is `process.env` |
| Detector.IsFallbackLiteral | src/detector.ts:90-96 | the right-operand test as written, with its boolean-keyword disjunct; `FallbackLiteralKinds` proves what it accepts |
| Detector.IsFallback | src/detector.ts:57-96 | the fallback matcher: `||` with the `isProcessEnv` flag set and the right-operand test passing |
| Detector.Location | src/detector.ts:47 | the location text `file:line:column`; `LocationRoundTrip` proves it reads back |
| Detector.OverrideAt | src/detector.ts:44-51 | the override entry, with its fixed kind and description at the node's start |
| Detector.FallbackAt | src/detector.ts:101-108 | the fallback entry, whose description is the fixed prefix followed by the right operand's source text |
| Detector.PatternAt | src/detector.ts:40-51 | a pattern carries its kind, its description, the file, a 1-based position and the location text built from them |
| Detector.OwnPatterns | src/detector.ts:24-111 | a node contributes at most one pattern; exactly one when the override or the fallback matcher fires, of that kind |
| Detector.PatternCollector.constructor | src/detector.ts:20 | a collector starts empty, for the given file |
| Detector.PatternCollector.Visit | src/detector.ts:22-114 | visiting a node appends exactly the patterns of its subtree in pre-order, and nothing else |
| Detector.PatternCollector.VisitEach | src/detector.ts:113 | visiting the children in turn appends each child's patterns, left to right |
| Detector.DetectInFile | src/detector.ts:16-118 | the result is the file's patterns in pre-order |
| Detector.DetectRiskyPatterns | src/detector.ts:5-14 | the result is every file's patterns, concatenated in file order |
| Detector.AllPatternsAppend | src/detector.ts:8-11 | the result over two batches of files is the concatenation of the two results |
| Detector.PatternProvenance | src/detector.ts:22-114 | soundness: every reported pattern comes from a node of the tree on which one matcher fires |
| Detector.PatternComplete | src/detector.ts:22-114 | completeness: every node on which a matcher fires has its pattern reported |
| Detector.PatternPlaced | src/detector.ts:44-51 | every pattern of a file carries the file's path, a 1-based position and matching location text; it is an override with the fixed description or a fallback whose description starts with the fixed prefix |
| Detector.AllPatternsPlaced | src/detector.ts:5-14 | every pattern of a run names one of the supplied files and is of one of the two kinds |
| Detector.LocationRoundTrip | src/detector.ts:47 | for a path without a colon, the location text splits back into the path, the line and the column, and the numbers read back |
| Detector.BooleanFallbackNeverReported | src/detector.ts:90-96 | a fallback to `true` or `false` reports nothing |
| Detector.FallbackLiteralKinds | src/detector.ts:90-96 | the right-operand test accepts exactly string and numeric literals |
| Syntax.IsLiteralExpression | src/detector.ts:93 | `ts.isLiteralExpression`: numeric, bigint, string, regular-expression and plain template literals, and not the `true` and `false` keywords |
| Analyzer.SetOf | src/analyzer.ts:10 | the set holds exactly the elements of the list |
| Analyzer.NonEmptyNames | src/analyzer.ts:8 | the list holds exactly the non-empty names the references carry |
| Analyzer.FirstOccurrences | src/analyzer.ts:7-9 | the iteration order of a `Set`: no repeats, and the same elements as the input |
| Analyzer.Keep | src/analyzer.ts:16-27 | a filtering loop keeps exactly the elements outside the excluded set |
| Analyzer.KeepCounts | src/analyzer.ts:23-27 | filtering keeps every copy of a kept element and drops every copy of an excluded one |
| Analyzer.KeepDistinct | src/analyzer.ts:16-20 | filtering a list without repeats gives a list without repeats |
| Analyzer.MissingCharacterized | src/analyzer.ts:16-20 | `missing` is sorted and has no repeats; a name is in it exactly when it is referenced, non-empty and not available |
| Analyzer.UnusedCharacterized | src/analyzer.ts:23-27 | `unused` is sorted; a name is in it exactly when it is available and not referenced, with as many copies as `available` has |
| Analyzer.UnusedDistinct | src/analyzer.ts:23-31 | `unused` has no repeats when `available` has none |
| Analyzer.UnusedKeepsRepeats | src/analyzer.ts:23-27 | an unreferenced name listed two or more times in `available` occurs in `unused` just as often, so `unused` then has repeats |
| Analyzer.MissingUnusedDisjoint | src/analyzer.ts:16-27 | no missing name is available, no unused name is referenced, and an available empty name is always unused |
| Analyzer.MissingDependsOnNamesOnly | src/analyzer.ts:7-20 | `missing` depends only on the set of referenced names |
| Analyzer.MissingDependsOnAvailableSetOnly | src/analyzer.ts:10-20 | `missing` depends only on the set of available names, so reordering or repeating them changes nothing |
| Analyzer.UnusedOrderIndependent | src/analyzer.ts:7-31 | `unused` is unchanged when the references are replaced by any with the same names and `available` by any permutation of it |
| Analyzer.PermutedReferencesSameNames | src/analyzer.ts:7-9 | reordering the references does not change their names |
| Analyzer.NoReferences | tests/unit/analyzer.test.ts:33-41 | with no references nothing is missing and every available name is unused |
| Analyzer.AnalyzeEnvVars | src/analyzer.ts:3-33 | the two loops and the two sorts give the sorted, repeat-free missing names and the sorted unused names, each membership in both directions |
| Analyzer.Missing | src/analyzer.ts:7-30 | the missing names: the loop over the referenced-name set keeping names not available, then sorted; its meaning is stated by `MissingCharacterized` |
| Analyzer.Unused | src/analyzer.ts:7-31 | the unused names: the loop over `available` keeping names not referenced, then sorted; its meaning is stated by `UnusedCharacterized` |
| Analyzer.IsCIEnvironment | src/analyzer.ts:35-48 | the CI test on an environment passed as a map: `CI` equal to `"true"` or `"1"`, or a truthy provider variable; characterized by `CIEnvironmentCharacterized` |
| Analyzer.CIEnvironmentCharacterized | src/analyzer.ts:35-48 | a CI run is one where `CI` is `"true"` or `"1"`, or some provider variable is set to a non-empty value, and no other |
| StringOrder.StrLeReflexive | src/analyzer.ts:30-31 | the sort order is reflexive |
| StringOrder.StrLeAntisymmetric | src/analyzer.ts:30-31 | the sort order is antisymmetric |
| StringOrder.StrLeTransitive | src/analyzer.ts:30-31 | the sort order is transitive |
| StringOrder.StrLeTotal | src/analyzer.ts:30-31 | any two strings are comparable |
| StringOrder.Insert | src/analyzer.ts:30-31 | inserting into an ascending list gives an ascending list with one more copy of the element |
| StringOrder.SortStrings | src/analyzer.ts:30-31 | `sort()` returns an ascending permutation of its input |
| StringOrder.SortDistinct | src/analyzer.ts:30 | sorting a list without repeats gives a list without repeats |
| StringOrder.SortedPermutationsEqual | src/analyzer.ts:30-31 | two ascending permutations of each other are equal, so the sorted result does not depend on the input's order |
| StringOrder.SortedDistinctEqual | src/analyzer.ts:30 | two ascending repeat-free lists with the same elements are equal |
| CIFormatter.NameLines | src/formatters/ci.ts:18-20 | one `  - name` line per name, in order |
| CIFormatter.PatternLines | src/formatters/ci.ts:34-37 | two lines per pattern, kind then location, in order |
| CIFormatter.CIReport | src/formatters/ci.ts:5-45 | the lines the formatter pushes: header, the three conditional sections, then the verdict; its layout is stated by the lemmas below |
| CIFormatter.CIReportLength | src/formatters/ci.ts:4-48 | the report has 3 header lines, `n + 2` lines per non-empty name section, `2r + 2` lines for `r > 0` patterns, and the verdict |
| CIFormatter.CIReportHeader | src/formatters/ci.ts:11-14 | the title, a blank line, then the referenced count, whose number reads back as that count |
| CIFormatter.NameSectionContents | src/formatters/ci.ts:16-22 | a section is its count line, one line per name in order, and a blank line |
| CIFormatter.CountLinePlural | src/formatters/ci.ts:17 | the count line ends in "variables" exactly when the count exceeds one |
| CIFormatter.MissingSectionPlaced | src/formatters/ci.ts:16-22 | the missing section follows the header exactly when a name is missing; otherwise the next line belongs to the next non-empty section or is the verdict |
| CIFormatter.UnusedSectionPlaced | src/formatters/ci.ts:24-30 | the unused section follows exactly when a name is unused; otherwise the risky count or the verdict comes next |
| CIFormatter.RiskySectionPlaced | src/formatters/ci.ts:32-39 | the risky count, each pattern's two lines in order and a blank line precede the verdict exactly when there is a pattern |
| CIFormatter.CIReportVerdict | src/formatters/ci.ts:41-45 | the last line is "No issues detected." exactly when no list is non-empty, and the review action otherwise |
| CIFormatter.ReferencedCountOnlyInHeader | src/formatters/ci.ts:14 | two results that differ only in their references give reports that differ at most in the third line |
| CIFormatter.CIReportSingleLines | src/formatters/ci.ts:4-48 | when no kind, description, location or name holds a line break, no line of the report does |
| CIFormatter.CIReportRoundTrip | src/formatters/ci.ts:47 | splitting the joined report at newlines gives back its lines |
| CIFormatter.PushNameSection | src/formatters/ci.ts:16-22 | the pushes append exactly the name section |
| CIFormatter.PushRiskySection | src/formatters/ci.ts:32-39 | the pushes append exactly the risky section |
| CIFormatter.FormatCI | src/formatters/ci.ts:4-48 | the output is the report's lines joined with newlines |
| DefaultFormatter.PatternLines | src/formatters/default.ts:32-34 | one `  - description (location)` line per pattern, in order |
| DefaultFormatter.DefaultReport | src/formatters/default.ts:5-41 | the lines the formatter pushes: header, the conditional bullets and pattern lines, the blank line and the recommendation; its layout is stated by the lemmas below |
| DefaultFormatter.DefaultReportLength | src/formatters/default.ts:4-44 | 3 header lines, one bullet per non-empty count, one line per pattern, a blank line, and the recommendation when something needs attention |
| DefaultFormatter.DefaultReportHeader | src/formatters/default.ts:11-14 | the title, a blank line, then the referenced bullet, whose number reads back as the count |
| DefaultFormatter.MissingBulletPlaced | src/formatters/default.ts:16-24 | the line after the header is the missing bullet exactly when a name is missing |
| DefaultFormatter.UnusedBulletPlaced | src/formatters/default.ts:26-28 | the unused bullet comes next exactly when a name is unused |
| DefaultFormatter.RiskyPartPlaced | src/formatters/default.ts:30-37 | the risky bullet and each pattern's line, in order, precede the blank line exactly when there is a pattern |
| DefaultFormatter.DefaultReportEnding | src/formatters/default.ts:37-41 | the summary ends with the blank line and "Review recommended" exactly when something needs attention, and with the blank line alone otherwise |
| DefaultFormatter.RiskyBulletPlural | src/formatters/default.ts:31 | the risky bullet says "patterns" exactly when there is more than one |
| DefaultFormatter.MissingBulletInCI | src/formatters/default.ts:16-24 | the missing bullet ends in " in CI" exactly in a CI run |
| DefaultFormatter.CIOnlyChangesMissingBullet | src/formatters/default.ts:16-24 | a CI run and a local run give summaries that differ at most in the missing bullet |
| DefaultFormatter.OnlyCountsMatter | src/formatters/default.ts:4-44 | no name is printed: the same counts and the same patterns give the same summary |
| DefaultFormatter.DefaultReportSingleLines | src/formatters/default.ts:4-44 | when no description or location holds a line break, no line of the summary does |
| DefaultFormatter.DefaultReportRoundTrip | src/formatters/default.ts:43 | splitting the joined summary at newlines gives back its lines |
| DefaultFormatter.FormatDefault | src/formatters/default.ts:4-44 | the output is the summary's lines joined with newlines, the missing bullet chosen by the CI flag |
| Cli.AnalysisCharacterized | src/cli.ts:14-29 | a run's missing and unused lists are the sorted names with the stated memberships; every reference and pattern names one of the parsed files, and every pattern is of one of the two kinds |
| Cli.RunAnalysis | src/cli.ts:14-29 | the result is the references, the missing and unused names, and the patterns of the parsed files |
| Fixture.ApiKeyReport | tests/fixtures/sample-code.ts:3 | `process.env.API_KEY` is recorded at line 3, column 16, with no pattern |
| Fixture.DatabaseUrlReport | tests/fixtures/sample-code.ts:4 | `process.env['DATABASE_URL']` is recorded at line 4, column 15, with no pattern |
| Fixture.NodeEnvFallbackReport | tests/fixtures/sample-code.ts:5 | `NODE_ENV` is recorded at line 5, column 17, and its default `'development'` is a fallback |
| Fixture.NodeEnvAssignmentReport | tests/fixtures/sample-code.ts:8 | the assignment target `NODE_ENV` is recorded at line 8, column 1, and the assignment is an override |
| Fixture.PortFallbackReport | tests/fixtures/sample-code.ts:11 | `PORT` is recorded at line 11, column 14, and its default `3000` is a fallback |
| Fixture.DebugFallbackReport | tests/fixtures/sample-code.ts:12 | `DEBUG` is recorded at line 12, column 15, and its default `false` is not reported |
| Fixture.SampleReport | tests/fixtures/sample-code.ts:3-12 | the whole file gives six references in source order, `NODE_ENV` twice, and three patterns: two fallbacks and the override |
| Fixture.MissingFour | src/analyzer.ts:16-31 | when exactly four ascending names are referenced and not available, `missing` is those four in order |
| Fixture.SampleMissing | tests/fixtures/sample-code.ts:3-12 | with `API_KEY` and `EXTRA_VAR` defined, the missing names are `DATABASE_URL`, `DEBUG`, `NODE_ENV` and `PORT` |
| Fixture.SampleUnused | tests/fixtures/sample-code.ts:3-12 | with `API_KEY` and `EXTRA_VAR` defined, the one unused name is `EXTRA_VAR` |
| Fixture.SampleAnalysis | tests/fixtures/sample-code.ts:3-12 | a run over the sample file alone gives six references, four missing names, one unused name and three patterns |
| Decimal.NatToString | src/formatters/ci.ts:14 | a count prints as at least one decimal digit, with no leading zero |
| Decimal.DecimalRoundTrip | src/formatters/ci.ts:14 | a printed count reads back as the same number |
| Decimal.NatToStringInjective | src/formatters/ci.ts:14 | different counts print differently |
| Lines.Join | src/formatters/ci.ts:47 | `join('\n')`: the parts with one separator between neighbours; a single part is returned as it is; `SplitJoin` proves it is undone by splitting |
| Lines.Split | src/formatters/ci.ts:47 | splitting gives at least one part, and no part holds the separator |
| Lines.SplitJoin | src/formatters/ci.ts:47 | splitting joined parts that hold no separator gives back the parts |
| Walk.CollectIsPreOrder | src/extractor.ts:22-74 | the recursive walk visits the nodes in pre-order, `ts.forEachChild` order between siblings |
| Walk.PerFileAppend | src/extractor.ts:8-11 | the per-file driver over two batches is the concatenation of the two |
| Walk.PerFileProvenance | src/detector.ts:8-11 | every result of the driver comes from one of the files |
| Syntax.PreOrderIsNodeThenChildren | src/extractor.ts:73 | a tree's pre-order is the node, then each child's pre-order in turn |

## Left out

- Scanning the file system, reading files and parsing them into trees
  (src/scanner.ts and src/parser.ts) are not part of this model. The parsed
  trees are inputs.
- The TypeScript compiler's predicates (`isPropertyAccessExpression`,
  `isLiteralExpression` and the others), `getStart` and `getText` are not
  modelled as code. They become the node constructors and the `start` and
  `src` fields each node carries. Node kinds the walks do not look at are one
  constructor, `Other`, with their children.
- `Array.prototype.sort` is a library routine. It is modelled as a sort
  function with its two facts: the result is ascending and a permutation. The
  order compares characters as whole code points, while JavaScript compares
  UTF-16 code units; the two differ only for characters outside the Basic
  Multilingual Plane.
- The JSON formatter (src/formatters/json.ts), option handling, output mode
  selection, printing and the exit code in src/cli.ts are not part of this
  model.
- `Object.keys(process.env)` and the environment `isCIEnvironment` reads are
  inputs. The default formatter takes the CI flag as a parameter instead of
  reading the environment.
- The `type` field of a risky pattern is called `kind`, because `type` is a
  Dafny keyword.
- The sample file's closing `export` list holds no environment read and is
  not in the hand-built tree. The statement and declaration wrapper nodes
  and the `Binary` nodes carry empty source text, since neither walk reads it.
