/**
  The plain-text report for CI logs: a fixed header, one section per
  non-empty list, and a closing verdict, one line each, joined with newlines.
*/
module CIFormatter {
  import opened Types
  import opened Decimal
  import opened Lines
  import opened Seqs

  const Title: string := "=== Envwatch Analysis ==="
  const NoIssues: string := "No issues detected."
  /** Written in two parts: the verifier checks each short literal for a
      newline directly, which it does not do for the whole. */
  const ReviewAction: string := "Action: Review environment" + " variable configuration"

  /** `Referenced: ${referencedCount} environment variables`; never singular. */
  function ReferencedLine(n: nat): string {
    "Referenced: " + NatToString(n) + " environment variables"
  }

  /** The header of a name section: `Missing: 2 environment variables`,
      `Unused: 1 environment variable`. */
  function CountLine(section: string, n: nat): string {
    section + ": " + NatToString(n) + " environment variable" + (if n > 1 then "s" else "")
  }

  /** `  - ${name}`. */
  function NameLine(name: string): string {
    "  - " + name
  }

  /** One line per name, in order. */
  function NameLines(names: seq<string>): (r: seq<string>)
    ensures |r| == |names|
    ensures forall k :: 0 <= k < |names| ==> r[k] == NameLine(names[k])
    decreases |names|
  {
    if names == [] then []
    else NameLines(names[..|names| - 1]) + [NameLine(names[|names| - 1])]
  }

  lemma NameLinesSnoc(names: seq<string>, i: nat)
    requires i < |names|
    ensures NameLines(names[..i + 1]) == NameLines(names[..i]) + [NameLine(names[i])]
  {
    assert names[..i + 1][..i] == names[..i];
  }

  /** A name section: nothing for an empty list, otherwise the count line, the
      names and a blank line. */
  function NameSection(section: string, names: seq<string>): seq<string> {
    if |names| == 0 then [] else [CountLine(section, |names|)] + NameLines(names) + [""]
  }

  /** `Risky Patterns: ${riskyCount}`. */
  function RiskyHeader(n: nat): string {
    "Risky Patterns: " + NatToString(n)
  }

  /** `  [${pattern.type}] ${pattern.description}`. */
  function KindLine(p: RiskyPattern): string {
    "  [" + p.kind + "] " + p.description
  }

  /** `    Location: ${pattern.location}`. */
  function LocationLine(p: RiskyPattern): string {
    "    Location: " + p.location
  }

  /** Two lines per pattern, in order. */
  function PatternLines(ps: seq<RiskyPattern>): (r: seq<string>)
    ensures |r| == 2 * |ps|
    ensures forall k :: 0 <= k < |ps| ==> r[2 * k] == KindLine(ps[k]) && r[2 * k + 1] == LocationLine(ps[k])
    decreases |ps|
  {
    if ps == [] then []
    else
      var init, last := ps[..|ps| - 1], ps[|ps| - 1];
      PatternLines(init) + [KindLine(last), LocationLine(last)]
  }

  lemma PatternLinesSnoc(ps: seq<RiskyPattern>, i: nat)
    requires i < |ps|
    ensures PatternLines(ps[..i + 1]) == PatternLines(ps[..i]) + [KindLine(ps[i]), LocationLine(ps[i])]
  {
    assert ps[..i + 1][..i] == ps[..i];
  }

  /** The risky section: nothing for no patterns, otherwise the count, two
      lines per pattern and a blank line. */
  function RiskySection(ps: seq<RiskyPattern>): seq<string> {
    if |ps| == 0 then [] else [RiskyHeader(|ps|)] + PatternLines(ps) + [""]
  }

  /** The closing line. */
  function Verdict(result: AnalysisResult): string {
    if |result.missing| == 0 && |result.unused| == 0 && |result.risky| == 0 then NoIssues else ReviewAction
  }

  /** The report's lines, section by section. */
  function CIReport(result: AnalysisResult): seq<string> {
    [Title, "", ReferencedLine(|result.referenced|)]
    + NameSection("Missing", result.missing)
    + NameSection("Unused", result.unused)
    + RiskySection(result.risky)
    + [Verdict(result)]
  }

  /** The length of a section: a non-empty list of `n` names takes `n + 2` lines. */
  function SectionLength(n: nat): nat {
    if n > 0 then n + 2 else 0
  }

  /** The report has the three header lines, `m + 2` lines for `m > 0` missing
      names, `u + 2` for `u > 0` unused names, `2r + 2` for `r > 0` patterns and
      the closing line. */
  lemma CIReportLength(result: AnalysisResult)
    ensures |CIReport(result)| == 4 + SectionLength(|result.missing|) + SectionLength(|result.unused|)
      + (if |result.risky| > 0 then 2 * |result.risky| + 2 else 0)
  {
  }

  /** The first three lines: the title, a blank line and the referenced count,
      whose number reads back as the count of references. */
  lemma CIReportHeader(result: AnalysisResult)
    ensures CIReport(result)[0] == Title && CIReport(result)[1] == ""
    ensures CIReport(result)[2] == ReferencedLine(|result.referenced|)
    ensures DecimalValue(NatToString(|result.referenced|)) == |result.referenced|
  {
    DecimalRoundTrip(|result.referenced|);
  }

  /** A section's lines: the count line, one line per name in order, a blank
      line. */
  lemma NameSectionContents(section: string, names: seq<string>)
    requires |names| > 0
    ensures |NameSection(section, names)| == |names| + 2
    ensures NameSection(section, names)[0] == CountLine(section, |names|)
    ensures forall k :: 0 <= k < |names| ==> NameSection(section, names)[k + 1] == NameLine(names[k])
    ensures NameSection(section, names)[|names| + 1] == ""
  {
  }

  /** The count line is plural exactly when there is more than one name. */
  lemma CountLinePlural(section: string, n: nat)
    ensures EndsWith(CountLine(section, n), "variables") <==> n > 1
  {
    var head := section + ": " + NatToString(n);
    if n > 1 {
      assert CountLine(section, n) == head + " environment variables";
      EndsWithAppend(head, " environment variables", "variables");
    } else {
      assert CountLine(section, n) == head + " environment variable";
      EndsWithAppend(head, " environment variable", "variables");
      assert " environment variable"[|" environment variable"| - 9..] == " variable";
    }
  }

  /** The missing section follows the header exactly when some name is
      missing; otherwise the next line is the first of the sections that
      follow, or the verdict. */
  lemma MissingSectionPlaced(result: AnalysisResult)
    ensures |result.missing| > 0 ==> CIReport(result)[3..3 + |result.missing| + 2] == NameSection("Missing", result.missing)
    ensures |result.missing| == 0 ==>
      CIReport(result)[3] == (if |result.unused| > 0 then CountLine("Unused", |result.unused|)
                              else if |result.risky| > 0 then RiskyHeader(|result.risky|)
                              else Verdict(result))
  {
    var m := NameSection("Missing", result.missing);
    var rest := NameSection("Unused", result.unused) + RiskySection(result.risky) + [Verdict(result)];
    assert CIReport(result) == [Title, "", ReferencedLine(|result.referenced|)] + m + rest by {
      AppendAssoc([Title, "", ReferencedLine(|result.referenced|)] + m, NameSection("Unused", result.unused), RiskySection(result.risky));
      AppendAssoc([Title, "", ReferencedLine(|result.referenced|)] + m, NameSection("Unused", result.unused) + RiskySection(result.risky), [Verdict(result)]);
    }
    if |result.missing| > 0 {
      assert CIReport(result)[3..3 + |m|] == m;
    }
  }

  /** The unused section comes right after the missing section exactly when
      some name is unused. */
  lemma UnusedSectionPlaced(result: AnalysisResult)
    ensures var at := 3 + SectionLength(|result.missing|);
      && (|result.unused| > 0 ==> CIReport(result)[at..at + |result.unused| + 2] == NameSection("Unused", result.unused))
      && (|result.unused| == 0 ==>
            CIReport(result)[at] == (if |result.risky| > 0 then RiskyHeader(|result.risky|) else Verdict(result)))
  {
    var front := [Title, "", ReferencedLine(|result.referenced|)] + NameSection("Missing", result.missing);
    var u := NameSection("Unused", result.unused);
    var rest := RiskySection(result.risky) + [Verdict(result)];
    assert CIReport(result) == front + u + rest by {
      AppendAssoc(front + u, RiskySection(result.risky), [Verdict(result)]);
    }
    var at := 3 + SectionLength(|result.missing|);
    assert |front| == at;
    if |result.unused| > 0 {
      assert CIReport(result)[at..at + |u|] == u;
    }
  }

  /** The risky section comes right before the verdict exactly when there is
      a pattern: its count, then each pattern's two lines in order, then a
      blank line. */
  lemma RiskySectionPlaced(result: AnalysisResult)
    ensures var at := 3 + SectionLength(|result.missing|) + SectionLength(|result.unused|);
      && (|result.risky| > 0 ==>
            && CIReport(result)[at] == RiskyHeader(|result.risky|)
            && CIReport(result)[at + 1..at + 1 + 2 * |result.risky|] == PatternLines(result.risky)
            && CIReport(result)[at + 1 + 2 * |result.risky|] == "")
      && (|result.risky| == 0 ==> CIReport(result)[at] == Verdict(result))
  {
    var front := [Title, "", ReferencedLine(|result.referenced|)] + NameSection("Missing", result.missing)
      + NameSection("Unused", result.unused);
    var r := RiskySection(result.risky);
    var at := 3 + SectionLength(|result.missing|) + SectionLength(|result.unused|);
    assert CIReport(result) == front + r + [Verdict(result)];
    assert |front| == at;
    if |result.risky| > 0 {
      var body := PatternLines(result.risky);
      assert r == [RiskyHeader(|result.risky|)] + body + [""];
      assert CIReport(result)[at + 1..at + 1 + |body|] == body;
    }
  }

  /** The last line is `No issues detected.` exactly when no name is missing or
      unused and no pattern was found, and the review action otherwise. */
  lemma CIReportVerdict(result: AnalysisResult)
    ensures var lines := CIReport(result);
      && (lines[|lines| - 1] == NoIssues <==> |result.missing| == 0 && |result.unused| == 0 && |result.risky| == 0)
      && (lines[|lines| - 1] != NoIssues ==> lines[|lines| - 1] == ReviewAction)
  {
  }

  /** Two sequences that differ only in one element of a common prefix length. */
  lemma SameTailDiffers<T>(p1: seq<T>, p2: seq<T>, m: seq<T>, j: nat)
    requires |p1| == |p2| && j < |p1|
    requires forall k :: 0 <= k < |p1| && k != j ==> p1[k] == p2[k]
    ensures |p1 + m| == |p2 + m|
    ensures forall k :: 0 <= k < |p1 + m| && k != j ==> (p1 + m)[k] == (p2 + m)[k]
  {
  }

  /** The number of references affects only the third line. */
  lemma ReferencedCountOnlyInHeader(r1: AnalysisResult, r2: AnalysisResult)
    requires r1.missing == r2.missing && r1.unused == r2.unused && r1.risky == r2.risky
    ensures |CIReport(r1)| == |CIReport(r2)|
    ensures forall k :: 0 <= k < |CIReport(r1)| && k != 2 ==> CIReport(r1)[k] == CIReport(r2)[k]
  {
    var tail := NameSection("Missing", r1.missing) + NameSection("Unused", r1.unused) + RiskySection(r1.risky);
    var h1 := [Title, "", ReferencedLine(|r1.referenced|)];
    var h2 := [Title, "", ReferencedLine(|r2.referenced|)];
    assert Verdict(r1) == Verdict(r2);
    assert CIReport(r1) == h1 + NameSection("Missing", r1.missing) + NameSection("Unused", r1.unused) + RiskySection(r1.risky) + [Verdict(r1)];
    AppendAssoc(h1, NameSection("Missing", r1.missing), NameSection("Unused", r1.unused));
    AppendAssoc(h1, NameSection("Missing", r1.missing) + NameSection("Unused", r1.unused), RiskySection(r1.risky));
    AppendAssoc(h1, tail, [Verdict(r1)]);
    AppendAssoc(h2, NameSection("Missing", r1.missing), NameSection("Unused", r1.unused));
    AppendAssoc(h2, NameSection("Missing", r1.missing) + NameSection("Unused", r1.unused), RiskySection(r1.risky));
    AppendAssoc(h2, tail, [Verdict(r1)]);
    SameTailDiffers(h1, h2, tail + [Verdict(r1)], 2);
  }

  /** No line breaks inside any name, kind, description or location. */
  predicate SingleLineFields(result: AnalysisResult) {
    && (forall k :: 0 <= k < |result.missing| ==> '\n' !in result.missing[k])
    && (forall k :: 0 <= k < |result.unused| ==> '\n' !in result.unused[k])
    && (forall k :: 0 <= k < |result.risky| ==>
          '\n' !in result.risky[k].kind && '\n' !in result.risky[k].description && '\n' !in result.risky[k].location)
  }

  lemma NameSectionSingleLines(section: string, names: seq<string>)
    requires '\n' !in section && forall k :: 0 <= k < |names| ==> '\n' !in names[k]
    ensures NoSeparator(NameSection(section, names), '\n')
  {
    if |names| > 0 {
      DigitsNoNewline(NatToString(|names|));
      var lines := NameSection(section, names);
      forall k | 0 <= k < |lines| ensures '\n' !in lines[k] {
        if 0 < k <= |names| { assert lines[k] == "  - " + names[k - 1]; }
      }
    }
  }

  lemma RiskySectionSingleLines(ps: seq<RiskyPattern>)
    requires forall k :: 0 <= k < |ps| ==> '\n' !in ps[k].kind && '\n' !in ps[k].description && '\n' !in ps[k].location
    ensures NoSeparator(RiskySection(ps), '\n')
  {
    if |ps| > 0 {
      DigitsNoNewline(NatToString(|ps|));
      var body := PatternLines(ps);
      forall k | 0 <= k < |body| ensures '\n' !in body[k] {
        var p := ps[k / 2];
        if k % 2 == 0 {
          assert body[2 * (k / 2)] == KindLine(p);
        } else {
          assert body[2 * (k / 2) + 1] == LocationLine(p);
        }
      }
      var lines := RiskySection(ps);
      forall k | 0 <= k < |lines| ensures '\n' !in lines[k] {
        if 0 < k <= |body| { assert lines[k] == body[k - 1]; }
      }
    }
  }

  lemma HeaderSingleLines(n: nat)
    ensures NoSeparator([Title, "", ReferencedLine(n)], '\n')
  {
    DigitsNoNewline(NatToString(n));
    var header := [Title, "", ReferencedLine(n)];
    forall k | 0 <= k < 3 ensures '\n' !in header[k] {
    }
  }

  lemma VerdictSingleLine(result: AnalysisResult)
    ensures NoSeparator([Verdict(result)], '\n')
  {
    assert '\n' !in NoIssues;
  }

  lemma CIReportSingleLines(result: AnalysisResult)
    requires SingleLineFields(result)
    ensures NoSeparator(CIReport(result), '\n')
  {
    var header := [Title, "", ReferencedLine(|result.referenced|)];
    var m, u, r := NameSection("Missing", result.missing), NameSection("Unused", result.unused), RiskySection(result.risky);
    HeaderSingleLines(|result.referenced|);
    NameSectionSingleLines("Missing", result.missing);
    NameSectionSingleLines("Unused", result.unused);
    RiskySectionSingleLines(result.risky);
    NoSeparatorAppend(header, m, '\n');
    NoSeparatorAppend(header + m, u, '\n');
    NoSeparatorAppend(header + m + u, r, '\n');
    VerdictSingleLine(result);
    NoSeparatorAppend(header + m + u + r, [Verdict(result)], '\n');
  }

  /** Splitting the output at newlines gives back the report's lines when no
      field holds a newline. */
  lemma CIReportRoundTrip(result: AnalysisResult)
    requires SingleLineFields(result)
    ensures Split(Join(CIReport(result), '\n'), '\n') == CIReport(result)
  {
    CIReportSingleLines(result);
    SplitJoin(CIReport(result), '\n');
  }

  /** The block `formatCI` runs for the missing names and again for the
      unused names: the count line, a `  - name` line per name, a blank line,
      all only when there is a name. */
  method PushNameSection(lines: seq<string>, section: string, names: seq<string>) returns (out: seq<string>)
    ensures out == lines + NameSection(section, names)
  {
    out := lines;
    var count := |names|;
    if count > 0 {
      out := out + [section + ": " + NatToString(count) + " environment variable" + (if count > 1 then "s" else "")];
      ghost var heading := out;
      for i := 0 to |names|
        invariant out == heading + NameLines(names[..i])
      {
        out := out + ["  - " + names[i]];
        NameLinesSnoc(names, i);
        AppendAssoc(heading, NameLines(names[..i]), [NameLine(names[i])]);
      }
      TakeAll(names);
      out := out + [""];
      AppendAssoc(lines, [CountLine(section, count)], NameLines(names));
      AppendAssoc(lines, [CountLine(section, count)] + NameLines(names), [""]);
    }
  }

  /** The risky block of `formatCI`: the count, two lines per pattern, a blank
      line, all only when there is a pattern. */
  method PushRiskySection(lines: seq<string>, risky: seq<RiskyPattern>) returns (out: seq<string>)
    ensures out == lines + RiskySection(risky)
  {
    out := lines;
    var count := |risky|;
    if count > 0 {
      out := out + ["Risky Patterns: " + NatToString(count)];
      ghost var heading := out;
      for i := 0 to |risky|
        invariant out == heading + PatternLines(risky[..i])
      {
        var pattern := risky[i];
        ghost var prev := out;
        out := out + ["  [" + pattern.kind + "] " + pattern.description];
        out := out + ["    Location: " + pattern.location];
        SnocTwice(prev, KindLine(pattern), LocationLine(pattern));
        PatternLinesSnoc(risky, i);
        AppendAssoc(heading, PatternLines(risky[..i]), [KindLine(pattern), LocationLine(pattern)]);
      }
      TakeAll(risky);
      out := out + [""];
      AppendAssoc(lines, [RiskyHeader(count)], PatternLines(risky));
      AppendAssoc(lines, [RiskyHeader(count)] + PatternLines(risky), [""]);
    }
  }

  /** `formatCI`. */
  method FormatCI(result: AnalysisResult) returns (output: string)
    ensures output == Join(CIReport(result), '\n')
  {
    var lines: seq<string> := [];
    var referencedCount := |result.referenced|;
    var missingCount := |result.missing|;
    var unusedCount := |result.unused|;
    var riskyCount := |result.risky|;

    lines := lines + [Title];
    lines := lines + [""];
    lines := lines + ["Referenced: " + NatToString(referencedCount) + " environment variables"];
    assert lines == [Title, "", ReferencedLine(|result.referenced|)];
    lines := PushNameSection(lines, "Missing", result.missing);
    lines := PushNameSection(lines, "Unused", result.unused);
    lines := PushRiskySection(lines, result.risky);
    if missingCount == 0 && unusedCount == 0 && riskyCount == 0 {
      lines := lines + [NoIssues];
    } else {
      lines := lines + [ReviewAction];
    }
    output := Join(lines, '\n');
  }
}
