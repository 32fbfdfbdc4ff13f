/** The records the engine produces and the renderers consume. */
module Types {

  /** One syntactic read of an environment variable; `line` and `column` are 1-based. */
  datatype EnvReference = EnvReference(name: string, file: string, line: nat, column: nat)

  /** One risky shape found in the code. The source calls the first field `type`;
      `location` is `file:line:column`, derived from the other three. */
  datatype RiskyPattern = RiskyPattern(
    kind: string,
    description: string,
    location: string,
    file: string,
    line: nat,
    column: nat)

  /** The engine's product for one run. */
  datatype AnalysisResult = AnalysisResult(
    referenced: seq<EnvReference>,
    missing: seq<string>,
    unused: seq<string>,
    risky: seq<RiskyPattern>)
}
