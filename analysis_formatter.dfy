/** The plain-text rendering of an analysis result used for the clipboard and
    the PDF export: five header blocks and one block per pattern, all joined
    by a blank line. */
module AnalysisFormatter {
  import opened Wrappers
  import opened Text
  import opened Types

  /** The box mark of an item. */
  function Mark(status: bool): string {
    if status then "x" else " "
  }

  /** One checklist entry: `    - [x] name` or `    - [ ] name`. */
  function ItemLine(name: string, status: bool): string {
    "    - [" + Mark(status) + "] " + name
  }

  function ItemLines(checklist: ChecklistItem): (r: seq<string>)
    ensures |r| == |checklist|
    ensures forall e :: 0 <= e < |checklist| ==> r[e] == ItemLine(checklist[e].0, checklist[e].1)
  {
    if checklist == [] then []
    else [ItemLine(checklist[0].0, checklist[0].1)] + ItemLines(checklist[1..])
  }

  /** The line introducing the checklist at zero-based position `k`. */
  function ChecklistHeading(k: nat): string {
    "  Checklist " + NatToString(k + 1) + ":"
  }

  function ChecklistText(k: nat, checklist: ChecklistItem): string {
    ChecklistHeading(k) + "\n" + Join(ItemLines(checklist), "\n")
  }

  /** The checklist texts of `checklists`, numbered from position `from`. */
  function ChecklistTexts(checklists: seq<ChecklistItem>, from: nat): (r: seq<string>)
    ensures |r| == |checklists|
    ensures forall k :: 0 <= k < |checklists| ==> r[k] == ChecklistText(from + k, checklists[k])
  {
    if checklists == [] then []
    else [ChecklistText(from, checklists[0])] + ChecklistTexts(checklists[1..], from + 1)
  }

  /** The first line of the block of the pattern at zero-based position `index`. */
  function TitleLine(index: nat, title: string): string {
    NatToString(index + 1) + ". " + title
  }

  function FeedbackLine(feedback: string): string {
    "Feedback: " + feedback
  }

  function PatternText(index: nat, p: Pattern): string {
    Join([TitleLine(index, p.title), FeedbackLine(p.feedback), Join(ChecklistTexts(p.checklists, 0), "\n")], "\n")
  }

  /** The pattern blocks of `patterns`, numbered from position `from`. */
  function PatternTexts(patterns: seq<Pattern>, from: nat): (r: seq<string>)
    ensures |r| == |patterns|
    ensures forall i :: 0 <= i < |patterns| ==> r[i] == PatternText(from + i, patterns[i])
  {
    if patterns == [] then []
    else [PatternText(from, patterns[0])] + PatternTexts(patterns[1..], from + 1)
  }

  const ResultHeading: string := "Resultado da Análise"
  const TranscriptLabel: string := "ID da Transcrição: "
  const OrganizationLabel: string := "Organização: "
  const PilotLabel: string := "Piloto: "

  /** The five header blocks; the last one is empty. */
  function Header(result: AnalysisResult): seq<string> {
    [ ResultHeading,
      TranscriptLabel + result.transcriptId,
      OrganizationLabel + result.organizationId,
      PilotLabel + result.pilotId,
      "" ]
  }

  /** `formatAnalysisResult`: the text opens with the heading and a blank
      line, and it names the transcript, the organization and the pilot. */
  function FormatAnalysisResult(result: AnalysisResult): (text: string)
    ensures |text| >= |ResultHeading| + 2 && text[..|ResultHeading| + 2] == ResultHeading + "\n\n"
    ensures IsInfix(TranscriptLabel + result.transcriptId, text)
    ensures IsInfix(OrganizationLabel + result.organizationId, text)
    ensures IsInfix(PilotLabel + result.pilotId, text)
  {
    var blocks := Header(result) + PatternTexts(result.patterns, 0);
    var sep := "\n\n";
    assert blocks[0] == ResultHeading;
    JoinHasPart(blocks, sep, 1);
    JoinHasPart(blocks, sep, 2);
    JoinHasPart(blocks, sep, 3);
    assert Join(blocks, sep) == ResultHeading + sep + Join(blocks[1..], sep);
    Join(blocks, sep)
  }

  // ---------------------------------------------------------------------
  // The text, block by block

  /** The header text, as one string: the four header lines separated by
      blank lines, and the empty fifth block after one more blank line. */
  function HeaderText(result: AnalysisResult): string {
    ResultHeading + "\n\n" + (TranscriptLabel + result.transcriptId
      + "\n\n" + (OrganizationLabel + result.organizationId
      + "\n\n" + (PilotLabel + result.pilotId + "\n\n" + "")))
  }

  lemma HeaderJoin(result: AnalysisResult)
    ensures Join(Header(result), "\n\n") == HeaderText(result)
  {
    var h := Header(result);
    var sep := "\n\n";
    assert Join(h[4..], sep) == "";
    assert Join(h[3..], sep) == h[3] + sep + Join(h[4..], sep);
    assert Join(h[2..], sep) == h[2] + sep + Join(h[3..], sep);
    assert Join(h[1..], sep) == h[1] + sep + Join(h[2..], sep);
    assert Join(h, sep) == h[0] + sep + Join(h[1..], sep);
  }

  /** The output is the header text, then, when there are patterns, a blank
      line and the pattern blocks in order, separated by blank lines. */
  lemma FormatBlocks(result: AnalysisResult)
    ensures FormatAnalysisResult(result)
         == HeaderText(result)
            + (if result.patterns == [] then ""
               else "\n\n" + Join(PatternTexts(result.patterns, 0), "\n\n"))
  {
    HeaderJoin(result);
    var p := PatternTexts(result.patterns, 0);
    if p == [] {
      assert Header(result) + p == Header(result);
    } else {
      JoinConcat(Header(result), p, "\n\n");
    }
  }

  /** With no patterns the output is exactly the five header blocks. */
  lemma FormatWithoutPatterns(result: AnalysisResult)
    requires result.patterns == []
    ensures FormatAnalysisResult(result)
         == ResultHeading + "\n\n" + TranscriptLabel + result.transcriptId
            + "\n\n" + OrganizationLabel + result.organizationId
            + "\n\n" + PilotLabel + result.pilotId + "\n\n"
  {
    FormatBlocks(result);
    FlattenHeader(ResultHeading, TranscriptLabel, result.transcriptId, OrganizationLabel,
                  result.organizationId, PilotLabel, result.pilotId, "\n\n");
  }

  /** The nested header text, written out left to right. */
  lemma FlattenHeader(a: string, b1: string, b2: string, c1: string, c2: string, d1: string, d2: string, sep: string)
    ensures a + sep + (b1 + b2 + sep + (c1 + c2 + sep + (d1 + d2 + sep + "")))
         == a + sep + b1 + b2 + sep + c1 + c2 + sep + d1 + d2 + sep
  {
    assert d1 + d2 + sep + "" == d1 + d2 + sep;
  }

  // ---------------------------------------------------------------------
  // The text, line by line

  /** No field of the result that is copied into the text holds a line feed. */
  predicate SingleLineFields(result: AnalysisResult) {
    && '\n' !in result.transcriptId && '\n' !in result.organizationId && '\n' !in result.pilotId
    && forall i :: 0 <= i < |result.patterns| ==> SingleLinePattern(result.patterns[i])
  }

  predicate SingleLinePattern(p: Pattern) {
    && '\n' !in p.title && '\n' !in p.feedback
    && forall k :: 0 <= k < |p.checklists| ==> SingleLineNames(p.checklists[k])
  }

  predicate SingleLineNames(checklist: ChecklistItem) {
    forall e :: 0 <= e < |checklist| ==> '\n' !in checklist[e].0
  }

  /** The lines of checklist `k`: its heading, then one line per item; an
      empty checklist leaves one empty line. */
  function ChecklistLines(k: nat, checklist: ChecklistItem): seq<string> {
    [ChecklistHeading(k)] + (if checklist == [] then [""] else ItemLines(checklist))
  }

  function ChecklistsLines(checklists: seq<ChecklistItem>, from: nat): seq<string> {
    if checklists == [] then []
    else ChecklistLines(from, checklists[0]) + ChecklistsLines(checklists[1..], from + 1)
  }

  /** The lines of the block of pattern `index`: title, feedback, then the
      checklists in order; without checklists, one empty line. */
  function PatternLines(index: nat, p: Pattern): seq<string> {
    [TitleLine(index, p.title), FeedbackLine(p.feedback)]
      + (if p.checklists == [] then [""] else ChecklistsLines(p.checklists, 0))
  }

  /** Each pattern block, preceded by the empty line that separates blocks. */
  function PatternSectionLines(patterns: seq<Pattern>, from: nat): seq<string> {
    if patterns == [] then []
    else [""] + PatternLines(from, patterns[0]) + PatternSectionLines(patterns[1..], from + 1)
  }

  /** The reference layout of the whole text, one entry per line. */
  function ExpectedLines(result: AnalysisResult): seq<string> {
    HeaderLayout(result) + PatternSectionLines(result.patterns, 0)
  }

  /** The header lines: the four header lines with an empty line after each,
      then the empty fifth block. */
  function HeaderLayout(result: AnalysisResult): seq<string> {
    [ ResultHeading, "",
      TranscriptLabel + result.transcriptId, "",
      OrganizationLabel + result.organizationId, "",
      PilotLabel + result.pilotId, "", "" ]
  }

  lemma NatToStringSingleLine(n: nat)
    ensures '\n' !in NatToString(n)
  {
    var s := NatToString(n);
    forall i | 0 <= i < |s| ensures s[i] != '\n' {
      assert IsDigit(s[i]);
    }
  }

  /** A blank-line separator contributes one empty line. */
  lemma LinesAcrossBlankLine(a: string, b: string)
    ensures Lines(a + "\n\n" + b) == Lines(a) + [""] + Lines(b)
  {
    assert a + "\n\n" + b == a + ['\n'] + ("" + ['\n'] + b);
    SplitAt(a, "" + ['\n'] + b, '\n');
    SplitAt("", b, '\n');
  }

  lemma LinesAcrossLineFeed(a: string, b: string)
    ensures Lines(a + "\n" + b) == Lines(a) + Lines(b)
  {
    assert a + "\n" + b == a + ['\n'] + b;
    SplitAt(a, b, '\n');
  }

  lemma {:induction false} LinesOfChecklist(k: nat, checklist: ChecklistItem)
    requires SingleLineNames(checklist)
    ensures Lines(ChecklistText(k, checklist)) == ChecklistLines(k, checklist)
  {
    NatToStringSingleLine(k + 1);
    var heading := ChecklistHeading(k);
    assert '\n' !in heading by {
      assert heading == "  Checklist " + NatToString(k + 1) + ":";
    }
    SplitOfSeparatorFree(heading, '\n');
    LinesAcrossLineFeed(heading, Join(ItemLines(checklist), "\n"));
    var items := ItemLines(checklist);
    if checklist == [] {
      assert Join(items, "\n") == "";
    } else {
      forall e | 0 <= e < |items| ensures '\n' !in items[e] {
        assert items[e] == "    - [" + Mark(checklist[e].1) + "] " + checklist[e].0;
      }
      SplitJoin(items, '\n');
    }
  }

  lemma {:induction false} LinesOfChecklists(checklists: seq<ChecklistItem>, from: nat)
    requires checklists != []
    requires forall k :: 0 <= k < |checklists| ==> SingleLineNames(checklists[k])
    ensures Lines(Join(ChecklistTexts(checklists, from), "\n")) == ChecklistsLines(checklists, from)
  {
    var texts := ChecklistTexts(checklists, from);
    LinesOfChecklist(from, checklists[0]);
    if |checklists| == 1 {
      assert ChecklistsLines(checklists[1..], from + 1) == [];
    } else {
      LinesOfChecklists(checklists[1..], from + 1);
      assert texts[1..] == ChecklistTexts(checklists[1..], from + 1);
      LinesAcrossLineFeed(texts[0], Join(texts[1..], "\n"));
    }
  }

  lemma TitleLineSingleLine(index: nat, title: string)
    requires '\n' !in title
    ensures Lines(TitleLine(index, title)) == [TitleLine(index, title)]
  {
    NatToStringSingleLine(index + 1);
    SplitOfSeparatorFree(TitleLine(index, title), '\n');
  }

  lemma FeedbackLineSingleLine(feedback: string)
    requires '\n' !in feedback
    ensures Lines(FeedbackLine(feedback)) == [FeedbackLine(feedback)]
  {
    SplitOfSeparatorFree(FeedbackLine(feedback), '\n');
  }

  /** A pattern block is its title line, its feedback line and its
      checklists, one line feed apart. */
  lemma PatternTextParts(index: nat, p: Pattern)
    ensures PatternText(index, p)
         == TitleLine(index, p.title) + "\n"
            + (FeedbackLine(p.feedback) + "\n" + Join(ChecklistTexts(p.checklists, 0), "\n"))
  {
    var parts := [TitleLine(index, p.title), FeedbackLine(p.feedback), Join(ChecklistTexts(p.checklists, 0), "\n")];
    assert parts[1..][1..] == [parts[2]];
    assert Join(parts[1..], "\n") == parts[1] + "\n" + Join([parts[2]], "\n");
  }

  lemma {:induction false} LinesOfPattern(index: nat, p: Pattern)
    requires SingleLinePattern(p)
    ensures Lines(PatternText(index, p)) == PatternLines(index, p)
  {
    var title := TitleLine(index, p.title);
    var feedback := FeedbackLine(p.feedback);
    var body := Join(ChecklistTexts(p.checklists, 0), "\n");
    TitleLineSingleLine(index, p.title);
    FeedbackLineSingleLine(p.feedback);
    PatternTextParts(index, p);
    LinesAcrossLineFeed(title, feedback + "\n" + body);
    LinesAcrossLineFeed(feedback, body);
    if p.checklists != [] {
      LinesOfChecklists(p.checklists, 0);
    } else {
      assert body == "";
    }
  }

  lemma {:induction false} LinesOfPatterns(patterns: seq<Pattern>, from: nat)
    requires patterns != []
    requires forall i :: 0 <= i < |patterns| ==> SingleLinePattern(patterns[i])
    ensures [""] + Lines(Join(PatternTexts(patterns, from), "\n\n")) == PatternSectionLines(patterns, from)
  {
    var texts := PatternTexts(patterns, from);
    LinesOfPattern(from, patterns[0]);
    if |patterns| == 1 {
      assert PatternSectionLines(patterns[1..], from + 1) == [];
    } else {
      LinesOfPatterns(patterns[1..], from + 1);
      assert texts[1..] == PatternTexts(patterns[1..], from + 1);
      LinesAcrossBlankLine(texts[0], Join(texts[1..], "\n\n"));
    }
  }

  lemma LabelsSingleLine()
    ensures '\n' !in ResultHeading && '\n' !in TranscriptLabel
    ensures '\n' !in OrganizationLabel && '\n' !in PilotLabel
  {
  }

  lemma SingleLineLabelled(prefix: string, value: string)
    requires '\n' !in prefix && '\n' !in value
    ensures Lines(prefix + value) == [prefix + value]
  {
    SplitOfSeparatorFree(prefix + value, '\n');
  }

  /** Four single-line blocks and a trailing empty one, joined by blank lines. */
  lemma {:induction false} LinesOfFourBlocks(l1: string, l2: string, l3: string, l4: string)
    requires '\n' !in l1 && '\n' !in l2 && '\n' !in l3 && '\n' !in l4
    ensures Lines(l1 + "\n\n" + (l2 + "\n\n" + (l3 + "\n\n" + (l4 + "\n\n" + ""))))
         == [l1, "", l2, "", l3, "", l4, "", ""]
  {
    var s4 := l4 + "\n\n" + "";
    var s3 := l3 + "\n\n" + s4;
    var s2 := l2 + "\n\n" + s3;
    SplitOfSeparatorFree(l1, '\n');
    SplitOfSeparatorFree(l2, '\n');
    SplitOfSeparatorFree(l3, '\n');
    SplitOfSeparatorFree(l4, '\n');
    LinesAcrossBlankLine(l4, "");
    LinesAcrossBlankLine(l3, s4);
    LinesAcrossBlankLine(l2, s3);
    LinesAcrossBlankLine(l1, s2);
  }

  lemma HeaderLines(result: AnalysisResult)
    requires '\n' !in result.transcriptId && '\n' !in result.organizationId && '\n' !in result.pilotId
    ensures Lines(HeaderText(result)) == HeaderLayout(result)
  {
    LabelsSingleLine();
    var l2 := TranscriptLabel + result.transcriptId;
    var l3 := OrganizationLabel + result.organizationId;
    var l4 := PilotLabel + result.pilotId;
    assert '\n' !in l2 && '\n' !in l3 && '\n' !in l4;
    LinesOfFourBlocks(ResultHeading, l2, l3, l4);
  }

  /** Read line by line, the output is exactly the reference layout: the
      header lines with blank lines between them, then for every pattern a
      blank line, its numbered title, its feedback and its numbered
      checklists with one `- [x]`/`- [ ]` line per item in entry order. */
  lemma LinesOfHeadAndBody(h: string, j: string, head: seq<string>, body: seq<string>)
    requires Lines(h) == head && [""] + Lines(j) == body
    ensures Lines(h + ("\n\n" + j)) == head + body
  {
    LinesAcrossBlankLine(h, j);
    assert h + ("\n\n" + j) == h + "\n\n" + j;
  }

  lemma {:induction false} FormatLines(result: AnalysisResult)
    requires SingleLineFields(result)
    ensures Lines(FormatAnalysisResult(result)) == ExpectedLines(result)
  {
    FormatBlocks(result);
    HeaderLines(result);
    if result.patterns != [] {
      LinesOfPatterns(result.patterns, 0);
      LinesOfHeadAndBody(HeaderText(result), Join(PatternTexts(result.patterns, 0), "\n\n"),
                         HeaderLayout(result), PatternSectionLines(result.patterns, 0));
    } else {
      assert HeaderText(result) + "" == HeaderText(result);
      assert ExpectedLines(result) == HeaderLayout(result) + [];
    }
  }

  // ---------------------------------------------------------------------
  // Everything the result carries is in the text

  lemma {:induction false} PatternMentions(index: nat, p: Pattern)
    ensures IsInfix(p.title, PatternText(index, p))
    ensures IsInfix(p.feedback, PatternText(index, p))
    ensures forall k, e :: 0 <= k < |p.checklists| && 0 <= e < |p.checklists[k]|
              ==> IsInfix(p.checklists[k][e].0, PatternText(index, p))
  {
    var parts := [TitleLine(index, p.title), FeedbackLine(p.feedback), Join(ChecklistTexts(p.checklists, 0), "\n")];
    var text := PatternText(index, p);
    JoinHasPart(parts, "\n", 0);
    JoinHasPart(parts, "\n", 1);
    JoinHasPart(parts, "\n", 2);
    InfixOfSuffix(NatToString(index + 1) + ". ", p.title);
    InfixTrans(p.title, parts[0], text);
    InfixOfSuffix("Feedback: ", p.feedback);
    InfixTrans(p.feedback, parts[1], text);
    var texts := ChecklistTexts(p.checklists, 0);
    forall k, e | 0 <= k < |p.checklists| && 0 <= e < |p.checklists[k]|
      ensures IsInfix(p.checklists[k][e].0, text)
    {
      var c := p.checklists[k];
      var items := ItemLines(c);
      InfixOfSuffix("    - [" + Mark(c[e].1) + "] ", c[e].0);
      JoinHasPart(items, "\n", e);
      InfixTrans(c[e].0, items[e], Join(items, "\n"));
      InfixOfSuffix(ChecklistHeading(k) + "\n", Join(items, "\n"));
      InfixTrans(c[e].0, Join(items, "\n"), texts[k]);
      JoinHasPart(texts, "\n", k);
      InfixTrans(c[e].0, texts[k], parts[2]);
      InfixTrans(c[e].0, parts[2], text);
    }
  }

  /** Every pattern title, feedback text and checklist item name of the
      result occurs in the output. */
  lemma FormatMentions(result: AnalysisResult, i: nat)
    requires i < |result.patterns|
    ensures var p := result.patterns[i];
      && IsInfix(p.title, FormatAnalysisResult(result))
      && IsInfix(p.feedback, FormatAnalysisResult(result))
      && forall k, e :: 0 <= k < |p.checklists| && 0 <= e < |p.checklists[k]|
           ==> IsInfix(p.checklists[k][e].0, FormatAnalysisResult(result))
  {
    var p := result.patterns[i];
    var blocks := Header(result) + PatternTexts(result.patterns, 0);
    var text := FormatAnalysisResult(result);
    PatternMentions(i, p);
    assert blocks[5 + i] == PatternText(i, p);
    JoinHasPart(blocks, "\n\n", 5 + i);
    InfixTrans(p.title, blocks[5 + i], text);
    InfixTrans(p.feedback, blocks[5 + i], text);
    forall k, e | 0 <= k < |p.checklists| && 0 <= e < |p.checklists[k]|
      ensures IsInfix(p.checklists[k][e].0, text)
    {
      InfixTrans(p.checklists[k][e].0, blocks[5 + i], text);
    }
  }

  // ---------------------------------------------------------------------
  // Reading the lines back

  /** Recovers the name and status of an item line. */
  function ParseItemLine(line: string): Option<(string, bool)> {
    if |line| >= 10 && line[..7] == "    - [" && line[8..10] == "] " && (line[7] == 'x' || line[7] == ' ')
    then Some((line[10..], line[7] == 'x'))
    else None
  }

  /** An item line gives back the item's name and status. */
  lemma ItemLineRoundTrip(name: string, status: bool)
    ensures ParseItemLine(ItemLine(name, status)) == Some((name, status))
  {
    var line := ItemLine(name, status);
    assert line[..7] == "    - [" && line[8..10] == "] " && line[10..] == name;
  }

  /** The number of leading decimal digits. */
  function LeadingDigits(s: string): (n: nat)
    ensures n <= |s| && AllDigits(s[..n])
    ensures n < |s| ==> !IsDigit(s[n])
  {
    if s != [] && IsDigit(s[0]) then
      var n := 1 + LeadingDigits(s[1..]);
      assert s[..n] == [s[0]] + s[1..][..n - 1];
      n
    else 0
  }

  lemma {:induction false} LeadingDigitsOfNumeral(digits: string, rest: string)
    requires AllDigits(digits)
    requires rest == [] || !IsDigit(rest[0])
    ensures LeadingDigits(digits + rest) == |digits|
  {
    if digits != [] {
      assert (digits + rest)[1..] == digits[1..] + rest;
      LeadingDigitsOfNumeral(digits[1..], rest);
    }
  }

  /** Splits `<n><punct>rest` into `n` and `rest`, for a punctuation
      string that does not start with a digit. */
  function ParseNumbered(line: string, punct: string): Option<(nat, string)> {
    var d := LeadingDigits(line);
    if 0 < d && d + |punct| <= |line| && line[d..d + |punct|] == punct
    then Some((DigitsValue(line[..d]), line[d + |punct|..]))
    else None
  }

  /** A run of digits, then the punctuation, then the rest, is read back
      as the digits' value and the rest. */
  lemma ParseNumberedAt(digits: string, punct: string, rest: string)
    requires digits != [] && AllDigits(digits)
    requires punct != [] && !IsDigit(punct[0])
    ensures ParseNumbered(digits + punct + rest, punct) == Some((DigitsValue(digits), rest))
  {
    var line := digits + punct + rest;
    ConcatAssoc(digits, punct, rest);
    LeadingDigitsOfNumeral(digits, punct + rest);
    assert line[..|digits|] == digits;
    assert line[|digits|..|digits| + |punct|] == punct;
    assert line[|digits| + |punct|..] == rest;
  }

  lemma NumberedRoundTrip(n: nat, punct: string, rest: string)
    requires punct != [] && !IsDigit(punct[0])
    ensures ParseNumbered(NatToString(n) + punct + rest, punct) == Some((n, rest))
  {
    ParseNumberedAt(NatToString(n), punct, rest);
    NatToStringRoundTrip(n);
  }

  /** A title line gives back the one-based pattern number and the title. */
  lemma TitleLineRoundTrip(index: nat, title: string)
    ensures ParseNumbered(TitleLine(index, title), ". ") == Some((index + 1, title))
  {
    NumberedRoundTrip(index + 1, ". ", title);
  }

  /** A checklist heading gives back the one-based checklist number. */
  lemma ChecklistHeadingRoundTrip(k: nat)
    ensures var line := ChecklistHeading(k);
      && |line| >= 12 && line[..12] == "  Checklist "
      && ParseNumbered(line[12..], ":") == Some((k + 1, ""))
  {
    var line := ChecklistHeading(k);
    assert line[12..] == NatToString(k + 1) + ":" + "";
    NumberedRoundTrip(k + 1, ":", "");
  }
}
