/**
  One run of the engine: references and risky patterns from the parsed files,
  then the comparison with the names the environment defines. Scanning the
  file system, parsing and reading the environment happen before this point;
  their results are the inputs.
*/
module Cli {
  import opened Syntax
  import opened Types
  import opened Extractor
  import opened Detector
  import opened Analyzer
  import opened StringOrder

  /** The result of a run over `parsedFiles` with the environment defining
      `availableEnvVars`. */
  function Analysis(parsedFiles: seq<ParsedFile>, availableEnvVars: seq<string>): AnalysisResult {
    var references := AllReferences(parsedFiles);
    AnalysisResult(
      references,
      Missing(references, availableEnvVars),
      Unused(references, availableEnvVars),
      AllPatterns(parsedFiles))
  }

  /** Every field of a run's result is what its stage promises: the references
      and patterns of all files, the missing names that are referenced and not
      defined, the unused names that are defined and not referenced. */
  lemma AnalysisCharacterized(parsedFiles: seq<ParsedFile>, availableEnvVars: seq<string>, x: string)
    ensures var result := Analysis(parsedFiles, availableEnvVars);
      && Sorted(result.missing) && Distinct(result.missing) && Sorted(result.unused)
      && (x in result.missing <==> Referenced(result.referenced, x) && x !in availableEnvVars)
      && (x in result.unused <==> x in availableEnvVars && !Referenced(result.referenced, x))
      && (forall r :: r in result.referenced ==> exists i :: 0 <= i < |parsedFiles| && Extractor.PlacedIn(r, parsedFiles[i].filePath))
      && (forall p :: p in result.risky ==> exists i :: 0 <= i < |parsedFiles| && Detector.PlacedIn(p, parsedFiles[i].filePath) && WellFormedKind(p))
  {
    var result := Analysis(parsedFiles, availableEnvVars);
    MissingCharacterized(result.referenced, availableEnvVars);
    UnusedCharacterized(result.referenced, availableEnvVars, x);
    forall r | r in result.referenced
      ensures exists i :: 0 <= i < |parsedFiles| && Extractor.PlacedIn(r, parsedFiles[i].filePath)
    {
      AllReferencesPlaced(parsedFiles, r);
    }
    forall p | p in result.risky
      ensures exists i :: 0 <= i < |parsedFiles| && Detector.PlacedIn(p, parsedFiles[i].filePath) && WellFormedKind(p)
    {
      AllPatternsPlaced(parsedFiles, p);
    }
  }

  /** `runAnalysis`, from the parsed files and the names in the environment. */
  method RunAnalysis(parsedFiles: seq<ParsedFile>, availableEnvVars: seq<string>) returns (result: AnalysisResult)
    ensures result == Analysis(parsedFiles, availableEnvVars)
  {
    var references := ExtractEnvReferences(parsedFiles);
    var riskyPatterns := DetectRiskyPatterns(parsedFiles);
    var missing, unused := AnalyzeEnvVars(references, availableEnvVars);
    result := AnalysisResult(references, missing, unused, riskyPatterns);
  }
}
