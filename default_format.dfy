/**
  The human-readable summary: a title, one bullet per non-empty count, the
  risky patterns listed under their bullet, a blank line and, when anything
  needs attention, a closing recommendation. Only counts are printed, never
  the names themselves. Whether the run is a CI run is an input here.
*/
module DefaultFormatter {
  import opened Types
  import opened Decimal
  import opened Lines
  import opened Seqs

  const Title: string := "\U{1F331} Environment Variable Summary"
  const Bullet: string := "\U{2022} "
  const Warning: string := "\U{26A0}\U{FE0F}  "
  const Review: string := "Review recommended"

  /** `• ${referencedCount} env vars referenced in code`. */
  function ReferencedBullet(n: nat): string {
    Bullet + NatToString(n) + " env vars referenced in code"
  }

  /** `• ${missingCount} missing in CI` in a CI run, `• ${missingCount} missing`
      otherwise. */
  function MissingBullet(n: nat, isCI: bool): string {
    Bullet + NatToString(n) + (if isCI then " missing in CI" else " missing")
  }

  /** `• ${unusedCount} unused env vars detected`. */
  function UnusedBullet(n: nat): string {
    Bullet + NatToString(n) + " unused env vars detected"
  }

  /** `• ⚠️  ${riskyCount} risky pattern(s) detected`. */
  function RiskyBullet(n: nat): string {
    Bullet + Warning + NatToString(n) + " risky pattern" + (if n > 1 then "s" else "") + " detected"
  }

  /** `  - ${pattern.description} (${pattern.location})`. */
  function PatternLine(p: RiskyPattern): string {
    "  - " + p.description + " (" + p.location + ")"
  }

  /** One line per pattern, in order. */
  function PatternLines(ps: seq<RiskyPattern>): (r: seq<string>)
    ensures |r| == |ps|
    ensures forall k :: 0 <= k < |ps| ==> r[k] == PatternLine(ps[k])
    decreases |ps|
  {
    if ps == [] then []
    else PatternLines(ps[..|ps| - 1]) + [PatternLine(ps[|ps| - 1])]
  }

  lemma PatternLinesSnoc(ps: seq<RiskyPattern>, i: nat)
    requires i < |ps|
    ensures PatternLines(ps[..i + 1]) == PatternLines(ps[..i]) + [PatternLine(ps[i])]
  {
    assert ps[..i + 1][..i] == ps[..i];
  }

  /** The missing bullet, when a name is missing. */
  function MissingPart(result: AnalysisResult, isCI: bool): seq<string> {
    if |result.missing| > 0 then [MissingBullet(|result.missing|, isCI)] else []
  }

  /** The unused bullet, when a name is unused. */
  function UnusedPart(result: AnalysisResult): seq<string> {
    if |result.unused| > 0 then [UnusedBullet(|result.unused|)] else []
  }

  /** The risky bullet and one line per pattern, when there is a pattern. */
  function RiskyPart(ps: seq<RiskyPattern>): seq<string> {
    if |ps| > 0 then [RiskyBullet(|ps|)] + PatternLines(ps) else []
  }

  /** Something needs attention. */
  predicate HasIssues(result: AnalysisResult) {
    |result.missing| > 0 || |result.unused| > 0 || |result.risky| > 0
  }

  /** The closing recommendation, when something needs attention. */
  function ReviewPart(result: AnalysisResult): seq<string> {
    if HasIssues(result) then [Review] else []
  }

  /** The summary's lines, part by part. */
  function DefaultReport(result: AnalysisResult, isCI: bool): seq<string> {
    [Title, "", ReferencedBullet(|result.referenced|)]
    + MissingPart(result, isCI)
    + UnusedPart(result)
    + RiskyPart(result.risky)
    + [""]
    + ReviewPart(result)
  }

  function Indicator(b: bool): nat {
    if b then 1 else 0
  }

  /** The summary has the three header lines, a bullet per non-empty count,
      a line per pattern, the blank line and the recommendation when something
      needs attention. */
  lemma DefaultReportLength(result: AnalysisResult, isCI: bool)
    ensures |DefaultReport(result, isCI)| ==
      4 + Indicator(|result.missing| > 0) + Indicator(|result.unused| > 0)
      + (if |result.risky| > 0 then |result.risky| + 1 else 0) + Indicator(HasIssues(result))
  {
  }

  /** The first three lines: the title, a blank line and the referenced count,
      whose number reads back as the count of references. */
  lemma DefaultReportHeader(result: AnalysisResult, isCI: bool)
    ensures DefaultReport(result, isCI)[0] == Title && DefaultReport(result, isCI)[1] == ""
    ensures DefaultReport(result, isCI)[2] == ReferencedBullet(|result.referenced|)
    ensures DecimalValue(NatToString(|result.referenced|)) == |result.referenced|
  {
    DecimalRoundTrip(|result.referenced|);
  }

  /** The parts after the three header lines. */
  lemma DefaultReportParts(result: AnalysisResult, isCI: bool)
    ensures DefaultReport(result, isCI) ==
      [Title, "", ReferencedBullet(|result.referenced|)]
      + (MissingPart(result, isCI) + (UnusedPart(result) + (RiskyPart(result.risky) + ([""] + ReviewPart(result)))))
  {
    var h := [Title, "", ReferencedBullet(|result.referenced|)];
    var m, u, k, e := MissingPart(result, isCI), UnusedPart(result), RiskyPart(result.risky), ReviewPart(result);
    AppendAssoc(h + m + u + k, [""], e);
    AppendAssoc(h + m + u, k, [""] + e);
    AppendAssoc(h + m, u, k + ([""] + e));
    AppendAssoc(h, m, u + (k + ([""] + e)));
  }

  /** The line after the header is the missing bullet exactly when a name is
      missing, and otherwise the first of the parts that follow. */
  lemma MissingBulletPlaced(result: AnalysisResult, isCI: bool)
    ensures |result.missing| > 0 ==> DefaultReport(result, isCI)[3] == MissingBullet(|result.missing|, isCI)
    ensures |result.missing| == 0 ==>
      DefaultReport(result, isCI)[3] == (if |result.unused| > 0 then UnusedBullet(|result.unused|)
                                         else if |result.risky| > 0 then RiskyBullet(|result.risky|)
                                         else "")
  {
    DefaultReportParts(result, isCI);
  }

  /** The unused bullet comes right after the missing bullet (or the header)
      exactly when a name is unused. */
  lemma UnusedBulletPlaced(result: AnalysisResult, isCI: bool)
    ensures var at := 3 + Indicator(|result.missing| > 0);
      && (|result.unused| > 0 ==> DefaultReport(result, isCI)[at] == UnusedBullet(|result.unused|))
      && (|result.unused| == 0 ==>
            DefaultReport(result, isCI)[at] == (if |result.risky| > 0 then RiskyBullet(|result.risky|) else ""))
  {
    var front := [Title, "", ReferencedBullet(|result.referenced|)] + MissingPart(result, isCI);
    var rest := UnusedPart(result) + (RiskyPart(result.risky) + ([""] + ReviewPart(result)));
    DefaultReportParts(result, isCI);
    AppendAssoc([Title, "", ReferencedBullet(|result.referenced|)], MissingPart(result, isCI), rest);
    assert |front| == 3 + Indicator(|result.missing| > 0);
    assert DefaultReport(result, isCI) == front + rest;
  }

  /** The risky bullet and each pattern's line, in order, come right before
      the blank line exactly when there is a pattern. */
  lemma RiskyPartPlaced(result: AnalysisResult, isCI: bool)
    ensures var at := 3 + Indicator(|result.missing| > 0) + Indicator(|result.unused| > 0);
      && (|result.risky| > 0 ==>
            && DefaultReport(result, isCI)[at] == RiskyBullet(|result.risky|)
            && DefaultReport(result, isCI)[at + 1..at + 1 + |result.risky|] == PatternLines(result.risky)
            && DefaultReport(result, isCI)[at + 1 + |result.risky|] == "")
      && (|result.risky| == 0 ==> DefaultReport(result, isCI)[at] == "")
  {
    var front := [Title, "", ReferencedBullet(|result.referenced|)] + MissingPart(result, isCI) + UnusedPart(result);
    var k := RiskyPart(result.risky);
    var rest := [""] + ReviewPart(result);
    var at := 3 + Indicator(|result.missing| > 0) + Indicator(|result.unused| > 0);
    AppendAssoc(front + k, [""], ReviewPart(result));
    assert DefaultReport(result, isCI) == front + k + rest;
    assert |front| == at;
    if |result.risky| > 0 {
      var body := PatternLines(result.risky);
      assert k == [RiskyBullet(|result.risky|)] + body;
      assert DefaultReport(result, isCI)[at + 1..at + 1 + |body|] == body;
    }
  }

  /** The summary ends with the blank line and the recommendation when
      something needs attention, and with the blank line alone otherwise. */
  lemma DefaultReportEnding(result: AnalysisResult, isCI: bool)
    ensures var lines := DefaultReport(result, isCI);
      && (HasIssues(result) ==> lines[|lines| - 2] == "" && lines[|lines| - 1] == Review)
      && (!HasIssues(result) ==> lines[|lines| - 1] == "")
      && (lines[|lines| - 1] == Review <==> HasIssues(result))
  {
  }

  /** The risky bullet is plural (`patterns detected`) exactly when there is
      more than one pattern. */
  lemma RiskyBulletPlural(n: nat)
    ensures EndsWith(RiskyBullet(n), "s detected") <==> n > 1
  {
    var noun := Bullet + Warning + NatToString(n) + " risky pattern";
    var w := noun + (if n > 1 then "s" else "");
    var line := w + " detected";
    assert line == RiskyBullet(n);
    assert line[|line| - 10..] == [w[|w| - 1]] + " detected";
    if n > 1 {
      assert w[|w| - 1] == 's';
      assert line[|line| - 10..] == "s detected";
    } else {
      assert w == noun;
      assert w[|w| - 1] == " risky pattern"[13] == 'n';
      assert line[|line| - 10] != "s detected"[0];
    }
  }

  /** The missing bullet mentions CI exactly in a CI run. */
  lemma MissingBulletInCI(n: nat, isCI: bool)
    ensures EndsWith(MissingBullet(n, isCI), " in CI") <==> isCI
  {
    var head := Bullet + NatToString(n);
    if isCI {
      EndsWithAppend(head, " missing in CI", " in CI");
    } else {
      EndsWithAppend(head, " missing", " in CI");
      assert " missing"[|" missing"| - 6..] == "issing";
    }
  }

  /** Whether the run is a CI run changes the missing bullet only: the rest of
      the summary is the same either way. */
  lemma CIOnlyChangesMissingBullet(result: AnalysisResult)
    ensures |DefaultReport(result, true)| == |DefaultReport(result, false)|
    ensures forall k :: 0 <= k < |DefaultReport(result, true)| && (k != 3 || |result.missing| == 0) ==>
      DefaultReport(result, true)[k] == DefaultReport(result, false)[k]
  {
    var h := [Title, "", ReferencedBullet(|result.referenced|)];
    var rest := UnusedPart(result) + (RiskyPart(result.risky) + ([""] + ReviewPart(result)));
    DefaultReportParts(result, true);
    DefaultReportParts(result, false);
    AppendAssoc(h, MissingPart(result, true), rest);
    AppendAssoc(h, MissingPart(result, false), rest);
  }

  /** No name is printed: two results with the same counts and the same
      patterns give the same summary, whatever the names. */
  lemma OnlyCountsMatter(r1: AnalysisResult, r2: AnalysisResult, isCI: bool)
    requires |r1.referenced| == |r2.referenced| && |r1.missing| == |r2.missing| && |r1.unused| == |r2.unused|
    requires r1.risky == r2.risky
    ensures DefaultReport(r1, isCI) == DefaultReport(r2, isCI)
  {
  }

  /** No line breaks inside any description or location. */
  predicate SingleLineFields(result: AnalysisResult) {
    forall k :: 0 <= k < |result.risky| ==>
      '\n' !in result.risky[k].description && '\n' !in result.risky[k].location
  }

  /** A count followed by a fixed text holds no line break. */
  lemma CountedNoNewline(prefix: string, n: nat, suffix: string)
    requires '\n' !in prefix && '\n' !in suffix
    ensures '\n' !in prefix + NatToString(n) + suffix
  {
    DigitsNoNewline(NatToString(n));
  }

  lemma HeaderSingleLines(result: AnalysisResult)
    ensures NoSeparator([Title, "", ReferencedBullet(|result.referenced|)], '\n')
  {
    assert '\n' !in Title;
    CountedNoNewline(Bullet, |result.referenced|, " env vars referenced in code");
  }

  lemma BulletsSingleLines(result: AnalysisResult, isCI: bool)
    ensures NoSeparator(MissingPart(result, isCI), '\n') && NoSeparator(UnusedPart(result), '\n')
  {
    if |result.missing| > 0 {
      CountedNoNewline(Bullet, |result.missing|, if isCI then " missing in CI" else " missing");
    }
    if |result.unused| > 0 {
      CountedNoNewline(Bullet, |result.unused|, " unused env vars detected");
    }
  }

  lemma RiskySingleLines(result: AnalysisResult)
    requires SingleLineFields(result)
    ensures NoSeparator(RiskyPart(result.risky), '\n')
  {
    var n := |result.risky|;
    if n > 0 {
      assert '\n' !in Bullet + Warning;
      CountedNoNewline(Bullet + Warning, n, " risky pattern" + (if n > 1 then "s" else "") + " detected");
      assert RiskyBullet(n) == Bullet + Warning + NatToString(n) + (" risky pattern" + (if n > 1 then "s" else "") + " detected");
      var body := PatternLines(result.risky);
      forall k | 0 <= k < |body| ensures '\n' !in body[k] {
        assert body[k] == "  - " + result.risky[k].description + " (" + result.risky[k].location + ")";
      }
      NoSeparatorAppend([RiskyBullet(n)], body, '\n');
    }
  }

  lemma DefaultReportSingleLines(result: AnalysisResult, isCI: bool)
    requires SingleLineFields(result)
    ensures NoSeparator(DefaultReport(result, isCI), '\n')
  {
    var h := [Title, "", ReferencedBullet(|result.referenced|)];
    HeaderSingleLines(result);
    BulletsSingleLines(result, isCI);
    RiskySingleLines(result);
    assert '\n' !in Review;
    NoSeparatorAppend(h, MissingPart(result, isCI), '\n');
    NoSeparatorAppend(h + MissingPart(result, isCI), UnusedPart(result), '\n');
    NoSeparatorAppend(h + MissingPart(result, isCI) + UnusedPart(result), RiskyPart(result.risky), '\n');
    NoSeparatorAppend(h + MissingPart(result, isCI) + UnusedPart(result) + RiskyPart(result.risky), [""], '\n');
    NoSeparatorAppend(h + MissingPart(result, isCI) + UnusedPart(result) + RiskyPart(result.risky) + [""], ReviewPart(result), '\n');
  }

  /** When no description or location holds a line break, splitting the
      output at line breaks gives back the summary's lines. */
  lemma DefaultReportRoundTrip(result: AnalysisResult, isCI: bool)
    requires SingleLineFields(result)
    ensures Split(Join(DefaultReport(result, isCI), '\n'), '\n') == DefaultReport(result, isCI)
  {
    DefaultReportSingleLines(result, isCI);
    SplitJoin(DefaultReport(result, isCI), '\n');
  }

  /** `formatDefault`, with the CI check supplied by the caller. */
  method FormatDefault(result: AnalysisResult, isCI: bool) returns (output: string)
    ensures output == Join(DefaultReport(result, isCI), '\n')
  {
    var lines: seq<string> := [];
    var referencedCount := |result.referenced|;
    var missingCount := |result.missing|;
    var unusedCount := |result.unused|;
    var riskyCount := |result.risky|;

    lines := lines + [Title];
    lines := lines + [""];
    lines := lines + [Bullet + NatToString(referencedCount) + " env vars referenced in code"];
    ghost var header := lines;
    assert header == [Title, "", ReferencedBullet(|result.referenced|)];

    if isCI {
      if missingCount > 0 {
        lines := lines + [Bullet + NatToString(missingCount) + " missing in CI"];
      }
    } else {
      if missingCount > 0 {
        lines := lines + [Bullet + NatToString(missingCount) + " missing"];
      }
    }
    assert lines == header + MissingPart(result, isCI);
    ghost var withMissing := lines;

    if unusedCount > 0 {
      lines := lines + [Bullet + NatToString(unusedCount) + " unused env vars detected"];
    }
    assert lines == withMissing + UnusedPart(result);
    ghost var withUnused := lines;

    if riskyCount > 0 {
      lines := lines + [Bullet + Warning + NatToString(riskyCount) + " risky pattern" + (if riskyCount > 1 then "s" else "") + " detected"];
      ghost var heading := lines;
      for i := 0 to |result.risky|
        invariant lines == heading + PatternLines(result.risky[..i])
      {
        var pattern := result.risky[i];
        lines := lines + ["  - " + pattern.description + " (" + pattern.location + ")"];
        PatternLinesSnoc(result.risky, i);
        AppendAssoc(heading, PatternLines(result.risky[..i]), [PatternLine(pattern)]);
      }
      TakeAll(result.risky);
      AppendAssoc(withUnused, [RiskyBullet(riskyCount)], PatternLines(result.risky));
    }
    assert lines == withUnused + RiskyPart(result.risky);

    lines := lines + [""];

    if missingCount > 0 || unusedCount > 0 || riskyCount > 0 {
      lines := lines + [Review];
    }
    assert lines == withUnused + RiskyPart(result.risky) + [""] + ReviewPart(result);
    output := Join(lines, '\n');
  }
}
