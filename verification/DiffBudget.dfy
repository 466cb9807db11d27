/** Fitting a diff into the prompt: lock files go first, then each section is cut down, then sections are
    taken in order while they fit. */
module DiffBudget {
  import opened Common
  import opened Text
  import opened DiffSections

  const DIFF_BUDGET := 100_000
  const MAX_LINES_PER_FILE := 50
  const MAX_LINE_LEN := 500
  const STAT_MAX_LINES := 200
  const MAX_SQUASH_COMMITS := 200

  const LINE_MARK := "... (line truncated)"

  // ---------------------------------------------------------------- lines

  // The last character boundary at or before `i`.
  function FloorCharBoundary(s: string, i: nat): (r: nat)
    requires i <= |s|
    ensures r <= i
  {
    if i == 0 || i == |s| || !IsContinuation(s[i]) then i else FloorCharBoundary(s, i - 1)
  }

  function TruncateLine(line: string): string {
    if |line| <= MAX_LINE_LEN then line else line[..FloorCharBoundary(line, MAX_LINE_LEN)] + LINE_MARK
  }

  lemma {:induction false} FloorIsLastBoundary(s: string, i: nat)
    requires i <= |s|
    ensures CharBoundary(s, FloorCharBoundary(s, i))
    ensures forall j :: FloorCharBoundary(s, i) < j <= i ==> !CharBoundary(s, j)
  {
    if i != 0 && i != |s| && IsContinuation(s[i]) {
      FloorIsLastBoundary(s, i - 1);
    }
  }

  // In well-formed text a boundary is never more than three bytes back.
  lemma {:induction false} BoundaryIsNear(s: string, i: nat) returns (j: nat)
    requires ValidUtf8(s) && i <= |s|
    ensures j <= i <= j + 3 && CharBoundary(s, j)
    decreases |s|
  {
    if s == "" {
      j := 0;
    } else {
      var n := CharLength(s);
      if i < n {
        j := 0;
      } else {
        var k := BoundaryIsNear(s[n..], i - n);
        j := k + n;
        CutAtBoundary(s, n);
        assert s[n..] == "" || !IsContinuation(s[n]) by {
          if s[n..] != "" {
            FirstByteIsNoContinuation(s[n..]);
          }
        }
      }
    }
  }

  // A long line is cut at a character boundary: well-formed text stays well-formed, at most three bytes
  // of the allowance go unused, and every whole character that fits is kept.
  lemma TruncatedLineIsWholeCharacters(line: string)
    requires ValidUtf8(line)
    ensures ValidUtf8(TruncateLine(line))
    ensures |line| <= MAX_LINE_LEN ==> TruncateLine(line) == line
    ensures |line| > MAX_LINE_LEN ==>
      var n := FloorCharBoundary(line, MAX_LINE_LEN);
      && MAX_LINE_LEN - 3 <= n <= MAX_LINE_LEN == 500
      && TruncateLine(line) == line[..n] + "... (line truncated)"
      && ValidUtf8(line[..n])
      && forall j :: n < j <= MAX_LINE_LEN ==> !ValidUtf8(line[..j]) || !ValidUtf8(line[j..])
  {
    if |line| > MAX_LINE_LEN {
      var n := FloorCharBoundary(line, MAX_LINE_LEN);
      LongestWholePrefix(line, MAX_LINE_LEN);
      LineMarkIsAscii();
      ValidConcat(line[..n], LINE_MARK);
    }
  }

  lemma LongestWholePrefix(line: string, i: nat)
    requires ValidUtf8(line) && i <= |line|
    ensures var n := FloorCharBoundary(line, i);
      && n <= i <= n + 3 && ValidUtf8(line[..n])
      && forall j :: n < j <= i ==> !ValidUtf8(line[..j]) || !ValidUtf8(line[j..])
  {
    FloorIsLastBoundary(line, i);
    var k := BoundaryIsNear(line, i);
    CutAtBoundary(line, FloorCharBoundary(line, i));
    forall j | FloorCharBoundary(line, i) < j <= i
      ensures !ValidUtf8(line[..j]) || !ValidUtf8(line[j..])
    {
      CutAtBoundary(line, j);
    }
  }

  lemma LineMarkIsAscii()
    ensures ValidUtf8(LINE_MARK)
  {
    assert forall c :: c in LINE_MARK ==> c as int < 0x80;
    forall i | 0 <= i < |LINE_MARK| ensures LINE_MARK[i] as int < 0x80 {
      assert LINE_MARK[i] in LINE_MARK;
    }
    AsciiIsValid(LINE_MARK);
  }

  // The cap on a line is not a bound on what is emitted for it: that exceeds it exactly for a line over
  // the cap, by the mark.
  lemma MarkedLineExceedsCap(line: string)
    requires ValidUtf8(line)
    ensures |TruncateLine(line)| > MAX_LINE_LEN <==> |line| > MAX_LINE_LEN
    ensures |TruncateLine(line)| <= MAX_LINE_LEN + |LINE_MARK|
  {
    TruncatedLineIsWholeCharacters(line);
  }

  // ---------------------------------------------------------------- one section

  // The index of the first hunk marker, or the number of lines when there is none.
  function FirstHunk(lines: seq<string>): (n: nat)
    ensures n <= |lines|
    ensures forall i :: 0 <= i < n ==> !("@@" <= lines[i])
    ensures n < |lines| ==> "@@" <= lines[n]
  {
    if lines == [] || "@@" <= lines[0] then 0 else 1 + FirstHunk(lines[1..])
  }

  function HeaderLines(lines: seq<string>): nat {
    if FirstHunk(lines) == |lines| then 1 else FirstHunk(lines) + 1
  }

  // How many lines of a section are kept.
  function KeptLines(lines: seq<string>, maxLines: nat): nat {
    if |lines| <= maxLines then |lines|
    else if HeaderLines(lines) > maxLines then HeaderLines(lines) else maxLines
  }

  function TruncatedLines(lines: seq<string>): (r: seq<string>)
    ensures |r| == |lines| && forall i :: 0 <= i < |lines| ==> r[i] == TruncateLine(lines[i])
  {
    if lines == [] then [] else [TruncateLine(lines[0])] + TruncatedLines(lines[1..])
  }

  function OmittedText(n: nat): string {
    "... (" + Decimal(n) + " lines omitted)"
  }

  function LinesOmitted(n: nat): string {
    if n > 0 then "\n" + OmittedText(n) + "\n" else ""
  }

  // A section cut down to `maxLines` lines or its header, whichever is longer.
  function Truncated(section: string, maxLines: nat): string
    ensures KeptLines(Lines(section), maxLines) <= |Lines(section)|
  {
    var lines := Lines(section);
    var kept := KeptLines(lines, maxLines);
    Concat(Terminated(TruncatedLines(lines)[..kept])) + LinesOmitted(|lines| - kept)
  }

  method EmitLines(lines: seq<string>, n: nat) returns (result: string)
    requires n <= |lines|
    ensures result == Concat(Terminated(TruncatedLines(lines)[..n]))
  {
    result := "";
    var i := 0;
    while i < n
      invariant i <= n && result == Concat(Terminated(TruncatedLines(lines)[..i]))
    {
      TerminatedGrows(TruncatedLines(lines), i);
      result := result + (TruncateLine(lines[i]) + "\n");
      i := i + 1;
    }
  }

  method TruncateDiffSection(section: string, maxLines: nat) returns (result: string)
    ensures result == Truncated(section, maxLines)
  {
    var lines := Lines(section);
    var totalLines := KeptLines(lines, maxLines);
    result := EmitLines(lines, totalLines);
    var omitted := |lines| - totalLines;
    if omitted > 0 {
      result := result + LinesOmitted(omitted);
    }
  }

  lemma TruncateLineIsOneLine(line: string)
    requires '\n' !in line
    ensures '\n' !in TruncateLine(line)
  {
    assert '\n' !in LINE_MARK;
  }

  // Cut at its newlines, the output is exactly the truncated image of each line of the longest kept
  // prefix, then (when lines were left out) a blank line and a mark with their exact number.
  lemma TruncatedKeepsAPrefix(section: string, maxLines: nat)
    ensures var lines := Lines(section);
      var kept := KeptLines(lines, maxLines);
      && kept <= |lines|
      && (|lines| <= maxLines ==> kept == |lines|)
      && (|lines| > maxLines ==>
            && (forall h :: 0 <= h < |lines| && "@@" <= lines[h] && (forall i :: 0 <= i < h ==> !("@@" <= lines[i])) ==>
                  kept == if h + 1 > maxLines then h + 1 else maxLines)
            && ((forall i :: 0 <= i < |lines| ==> !("@@" <= lines[i])) ==>
                  kept == if maxLines == 0 then 1 else maxLines))
      && SplitInclusive(Truncated(section, maxLines)) ==
           Terminated(TruncatedLines(lines)[..kept])
             + (if kept < |lines| then ["\n", "... (" + Decimal(|lines| - kept) + " lines omitted)" + "\n"] else [])
  {
    var lines := Lines(section);
    var kept := KeptLines(lines, maxLines);
    FirstHunkIsFirst(lines);
    LinesAreStrippedPieces(section);
    forall i | 0 <= i < |lines| ensures '\n' !in TruncatedLines(lines)[i] {
      TruncateLineIsOneLine(lines[i]);
    }
    TerminatedLinesAreCut(TruncatedLines(lines)[..kept], LinesOmitted(|lines| - kept));
    if kept < |lines| {
      OmittedTextIsOneLine(|lines| - kept);
      BlankThenText(OmittedText(|lines| - kept));
    }
  }

  lemma FirstHunkIsFirst(lines: seq<string>)
    ensures forall h :: 0 <= h < |lines| && "@@" <= lines[h] && (forall i :: 0 <= i < h ==> !("@@" <= lines[i])) ==>
      FirstHunk(lines) == h
    ensures (forall i :: 0 <= i < |lines| ==> !("@@" <= lines[i])) ==> FirstHunk(lines) == |lines|
  {
  }

  lemma OmittedTextIsOneLine(n: nat)
    ensures '\n' !in OmittedText(n)
  {
    assert '\n' !in "... (" && '\n' !in " lines omitted)";
  }

  lemma BlankThenText(text: string)
    requires '\n' !in text
    ensures SplitInclusive("\n" + text + "\n") == ["\n", text + "\n"]
  {
    assert "\n" + text + "\n" == "" + "\n" + (text + "\n");
    FirstLineIsCut("", text + "\n");
    FirstLineIsCut(text, "");
    assert text + "\n" + "" == text + "\n";
    assert SplitInclusive("") == [] && "" + "\n" == "\n";
    assert ["\n"] + ([text + "\n"] + []) == ["\n", text + "\n"];
  }

  // ---------------------------------------------------------------- how long a cut section is

  // What one kept line comes to, with its newline.
  function LineCost(line: string): nat {
    (if |line| <= MAX_LINE_LEN then |line| else FloorCharBoundary(line, MAX_LINE_LEN) + |LINE_MARK|) + 1
  }

  function Cost(lines: seq<string>): nat {
    if lines == [] then 0 else LineCost(lines[0]) + Cost(lines[1..])
  }

  const MAX_LINE_COST := MAX_LINE_LEN + |LINE_MARK| + 1

  lemma {:induction false} EmittedLength(lines: seq<string>)
    ensures |Concat(Terminated(TruncatedLines(lines)))| == Cost(lines) <= |lines| * MAX_LINE_COST
  {
    if lines != [] {
      EmittedLength(lines[1..]);
      assert TruncatedLines(lines)[1..] == TruncatedLines(lines[1..]);
    }
  }

  lemma TruncatedPrefix(lines: seq<string>, n: nat)
    requires n <= |lines|
    ensures TruncatedLines(lines)[..n] == TruncatedLines(lines[..n])
  {
  }

  lemma OmittedLength(n: nat)
    ensures |LinesOmitted(n)| == if n > 0 then |Decimal(n)| + 22 else 0
  {
    assert |"... ("| == 5 && |" lines omitted)"| == 15;
  }

  // The length of a cut section, from the lengths of the lines kept and the number of the rest.
  function CutSize(lines: seq<string>, maxLines: nat): nat {
    var kept := KeptLines(lines, maxLines);
    if kept > |lines| then 0
    else Cost(lines[..kept]) + if kept < |lines| then |Decimal(|lines| - kept)| + 22 else 0
  }

  lemma EmittedPart(lines: seq<string>, kept: nat)
    requires kept <= |lines|
    ensures |Concat(Terminated(TruncatedLines(lines)[..kept])) + LinesOmitted(|lines| - kept)|
      == Cost(lines[..kept]) + |LinesOmitted(|lines| - kept)|
  {
    TruncatedPrefix(lines, kept);
    EmittedLength(lines[..kept]);
  }

  // That length is exact. So the bound of MAX_LINES_PER_FILE * MAX_LINE_LEN holds of a section exactly when
  // its kept lines, their newlines and marks and the note for the rest come to no more.
  lemma TruncatedLength(section: string, maxLines: nat)
    ensures |Truncated(section, maxLines)| == CutSize(Lines(section), maxLines)
    ensures |Truncated(section, MAX_LINES_PER_FILE)| <= MAX_LINES_PER_FILE * MAX_LINE_LEN
      <==> CutSize(Lines(section), MAX_LINES_PER_FILE) <= MAX_LINES_PER_FILE * MAX_LINE_LEN
  {
    SizeOfCut(section, maxLines);
    SizeOfCut(section, MAX_LINES_PER_FILE);
  }

  lemma SizeOfCut(section: string, maxLines: nat)
    ensures |Truncated(section, maxLines)| == CutSize(Lines(section), maxLines)
  {
    var lines := Lines(section);
    var kept := KeptLines(lines, maxLines);
    EmittedPart(lines, kept);
    OmittedLength(|lines| - kept);
  }

  // What bounds every section: cap, mark and newline times the lines kept, which a long header can make
  // more than `maxLines`, and the note. WorstSectionAttainsItsBound meets it.
  lemma TruncatedBound(section: string, maxLines: nat)
    ensures var lines := Lines(section);
      |Truncated(section, maxLines)|
        <= MostLines(lines, maxLines) * MAX_LINE_COST + |LinesOmitted(|lines| - KeptLines(lines, maxLines))|
  {
    SizeOfCut(section, maxLines);
    CutSizeBound(Lines(section), maxLines, MostLines(Lines(section), maxLines));
  }

  function MostLines(lines: seq<string>, maxLines: nat): nat {
    if HeaderLines(lines) > maxLines then HeaderLines(lines) else maxLines
  }

  lemma CutSizeBound(lines: seq<string>, maxLines: nat, most: nat)
    requires KeptLines(lines, maxLines) <= most && KeptLines(lines, maxLines) <= |lines|
    ensures CutSize(lines, maxLines) <= most * MAX_LINE_COST + |LinesOmitted(|lines| - KeptLines(lines, maxLines))|
  {
    var kept := KeptLines(lines, maxLines);
    EmittedLength(lines[..kept]);
    TimesGrows(kept, most, MAX_LINE_COST);
    OmittedLength(|lines| - kept);
  }

  lemma TimesGrows(a: nat, b: nat, c: nat)
    requires a <= b
    ensures a * c <= b * c
  {
  }

  function Filler(n: nat): (line: string)
    ensures |line| == n && forall i :: 0 <= i < n ==> line[i] == 'x'
  {
    seq(n, _ => 'x')
  }

  function Copies(line: string, n: nat): (lines: seq<string>)
    ensures |lines| == n && forall i :: 0 <= i < n ==> lines[i] == line
  {
    seq(n, _ => line)
  }

  function Uniform(length: nat, n: nat): string {
    Concat(Terminated(Copies(Filler(length), n)))
  }

  lemma UniformLines(length: nat, n: nat)
    ensures Lines(Uniform(length, n)) == Copies(Filler(length), n)
  {
    var lines, text := Copies(Filler(length), n), Uniform(length, n);
    CutAgain(lines);
    LinesAreStrippedPieces(text);
    forall i | 0 <= i < n
      ensures Lines(text)[i] == lines[i]
    {
      FillerStripped(length);
    }
  }

  lemma CutAgain(lines: seq<string>)
    requires forall i :: 0 <= i < |lines| ==> '\n' !in lines[i]
    ensures SplitInclusive(Concat(Terminated(lines))) == Terminated(lines)
  {
    var text := Concat(Terminated(lines));
    TerminatedLinesAreCut(lines, "");
    assert text + "" == text && SplitInclusive("") == [] && Terminated(lines) + [] == Terminated(lines);
  }

  lemma FillerStripped(length: nat)
    ensures StripEnding(Filler(length) + "\n") == Filler(length)
  {
    assert (Filler(length) + "\n")[..length] == Filler(length);
  }

  lemma {:induction false} UniformCost(line: string, n: nat)
    ensures Cost(Copies(line, n)) == n * LineCost(line)
    decreases n
  {
    if n > 0 {
      UniformCost(line, n - 1);
      assert Copies(line, n)[1..] == Copies(line, n - 1);
    }
  }

  lemma NoHunk(lines: seq<string>)
    requires forall i :: 0 <= i < |lines| ==> !("@@" <= lines[i])
    ensures FirstHunk(lines) == |lines|
  {
  }

  lemma AllKept(lines: seq<string>, maxLines: nat)
    requires |lines| <= maxLines
    ensures CutSize(lines, maxLines) == Cost(lines)
  {
    assert lines[..|lines|] == lines;
  }

  // The documented bound fails with no line cut and none left out, for want of the newlines alone.
  lemma FiftyFullLinesExceedTheBound()
    ensures |Truncated(Uniform(MAX_LINE_LEN, MAX_LINES_PER_FILE), MAX_LINES_PER_FILE)|
      == MAX_LINES_PER_FILE * (MAX_LINE_LEN + 1) > MAX_LINES_PER_FILE * MAX_LINE_LEN
  {
    var section := Uniform(MAX_LINE_LEN, MAX_LINES_PER_FILE);
    UniformLines(MAX_LINE_LEN, MAX_LINES_PER_FILE);
    SizeOfCut(section, MAX_LINES_PER_FILE);
    AllKept(Copies(Filler(MAX_LINE_LEN), MAX_LINES_PER_FILE), MAX_LINES_PER_FILE);
    UniformCost(Filler(MAX_LINE_LEN), MAX_LINES_PER_FILE);
  }

  // The bound that always holds is met, by fifty-one lines of one byte too many.
  lemma WorstSectionAttainsItsBound()
    ensures |Truncated(Uniform(MAX_LINE_LEN + 1, MAX_LINES_PER_FILE + 1), MAX_LINES_PER_FILE)|
      == MAX_LINES_PER_FILE * MAX_LINE_COST + |LinesOmitted(1)|
  {
    var line := Filler(MAX_LINE_LEN + 1);
    var lines := Copies(line, MAX_LINES_PER_FILE + 1);
    UniformLines(MAX_LINE_LEN + 1, MAX_LINES_PER_FILE + 1);
    NoHunk(lines);
    SizeOfCut(Uniform(MAX_LINE_LEN + 1, MAX_LINES_PER_FILE + 1), MAX_LINES_PER_FILE);
    assert lines[..MAX_LINES_PER_FILE] == Copies(line, MAX_LINES_PER_FILE);
    UniformCost(line, MAX_LINES_PER_FILE);
    assert FloorCharBoundary(line, MAX_LINE_LEN) == MAX_LINE_LEN;
    OmittedLength(1);
  }

  // ---------------------------------------------------------------- the stat

  function MoreFiles(n: nat): string {
    "... (" + Decimal(n) + " more files)"
  }

  // At most STAT_MAX_LINES lines of the stat, and the exact number of those left out.
  function CappedStat(stat: string): string {
    var lines := Lines(stat);
    if |lines| <= STAT_MAX_LINES then stat
    else Concat(Terminated(lines[..STAT_MAX_LINES])) + (MoreFiles(|lines| - STAT_MAX_LINES) + "\n")
  }

  method TruncateStat(stat: string) returns (out: string)
    ensures out == CappedStat(stat)
  {
    var lines := Lines(stat);
    if |lines| <= STAT_MAX_LINES {
      return stat;
    }
    out := "";
    var i := 0;
    while i < STAT_MAX_LINES
      invariant i <= STAT_MAX_LINES && out == Concat(Terminated(lines[..i]))
    {
      TerminatedGrows(lines, i);
      out := out + (lines[i] + "\n");
      i := i + 1;
    }
    out := out + (MoreFiles(|lines| - STAT_MAX_LINES) + "\n");
  }

  // Cut at its newlines, a longer stat is its first lines and one that says how many are left out.
  lemma StatKeepsTheFirst(stat: string)
    ensures |Lines(stat)| <= 200 ==> CappedStat(stat) == stat
    ensures |Lines(stat)| > 200 ==>
      SplitInclusive(CappedStat(stat)) == Terminated(Lines(stat)[..200])
        + ["... (" + Decimal(|Lines(stat)| - 200) + " more files)" + "\n"]
  {
    var lines := Lines(stat);
    if |lines| > 200 {
      var first, note := lines[..200], MoreFiles(|lines| - 200);
      LinesAreStrippedPieces(stat);
      MoreFilesIsOneLine(|lines| - 200);
      FirstAndNote(first, note);
      CappedStatIs(stat, lines, first, note);
    }
  }

  lemma CappedStatIs(stat: string, lines: seq<string>, first: seq<string>, note: string)
    requires lines == Lines(stat) && |lines| > 200 && first == lines[..200] && note == MoreFiles(|lines| - 200)
    ensures CappedStat(stat) == Concat(Terminated(first)) + (note + "\n")
  {
  }

  lemma FirstAndNote(lines: seq<string>, note: string)
    requires (forall i :: 0 <= i < |lines| ==> '\n' !in lines[i]) && '\n' !in note
    ensures SplitInclusive(Concat(Terminated(lines)) + (note + "\n")) == Terminated(lines) + [note + "\n"]
  {
    TerminatedLinesAreCut(lines, note + "\n");
    LastLineIsCut(note);
  }

  lemma MoreFilesIsOneLine(n: nat)
    ensures '\n' !in MoreFiles(n)
  {
    assert '\n' !in "... (" && '\n' !in " more files)";
  }

  lemma LastLineIsCut(text: string)
    requires '\n' !in text
    ensures SplitInclusive(text + "\n") == [text + "\n"]
  {
    FirstLineIsCut(text, "");
    assert text + "\n" + "" == text + "\n" && SplitInclusive("") == [];
  }

  // ---------------------------------------------------------------- the budget

  const LOCK_FILE_PATTERNS := [".lock", "-lock.json", "-lock.yaml", ".lock.hcl"]

  predicate IsLockFile(path: string) {
    exists i :: 0 <= i < |LOCK_FILE_PATTERNS| && EndsWith(path, LOCK_FILE_PATTERNS[i])
  }

  function Unlocked(isLock: string -> bool, sections: seq<Section>): seq<string> {
    if sections == [] then []
    else if isLock(sections[0].path) then Unlocked(isLock, sections[1..])
    else [sections[0].content] + Unlocked(isLock, sections[1..])
  }

  function NonLock(sections: seq<Section>): seq<string> {
    Unlocked(IsLockFile, sections)
  }

  function Image(content: string): string {
    Truncated(content, MAX_LINES_PER_FILE)
  }

  function Mapped(image: string -> string, contents: seq<string>): seq<string> {
    if contents == [] then [] else [image(contents[0])] + Mapped(image, contents[1..])
  }

  function Images(contents: seq<string>): seq<string> {
    Mapped(Image, contents)
  }

  function FilesOmitted(n: nat): string {
    if n > 0 then "\n... (" + Decimal(n) + " files omitted, see diffstat)\n" else ""
  }

  // How many of `parts`, from the front, fit in `room` bytes.
  function Fitting(parts: seq<string>, room: nat): nat {
    if parts == [] || |parts[0]| > room then 0 else 1 + Fitting(parts[1..], room - |parts[0]|)
  }

  // The first `n` images, and the mark for the rest.
  function Shown(images: seq<string>, n: nat): string
    requires n <= |images|
  {
    Concat(images[..n]) + FilesOmitted(|images| - n)
  }

  // What prepare_diff makes of a diff.
  function Prepared(diff: string): string {
    var kept := NonLock(SectionsOf(diff));
    if |diff| <= DIFF_BUDGET then diff
    else if |Concat(kept)| <= DIFF_BUDGET then Concat(kept)
    else
      FittingIsLongest(Images(kept), DIFF_BUDGET);
      Shown(Images(kept), Fitting(Images(kept), DIFF_BUDGET))
  }

  // The greedy count is the longest prefix that fits.
  lemma {:induction false} FittingIsLongest(parts: seq<string>, room: nat)
    ensures var n := Fitting(parts, room);
      && n <= |parts| && |Concat(parts[..n])| <= room
      && forall j :: n < j <= |parts| ==> |Concat(parts[..j])| > room
  {
    if parts == [] {
    } else if |parts[0]| > room {
      forall j | 0 < j <= |parts| ensures |Concat(parts[..j])| > room {
        assert parts[..j][0] == parts[0];
      }
    } else {
      FittingIsLongest(parts[1..], room - |parts[0]|);
      var n := Fitting(parts, room);
      assert parts[..n][1..] == parts[1..][..n - 1];
      forall j | n < j <= |parts| ensures |Concat(parts[..j])| > room {
        assert parts[..j][1..] == parts[1..][..j - 1];
      }
    }
  }

  lemma {:induction false} MappedAt(image: string -> string, contents: seq<string>)
    ensures |Mapped(image, contents)| == |contents|
    ensures forall i :: 0 <= i < |contents| ==> Mapped(image, contents)[i] == image(contents[i])
  {
    if contents != [] {
      MappedAt(image, contents[1..]);
    }
  }

  lemma ImagesAreTruncated(contents: seq<string>)
    ensures |Images(contents)| == |contents|
    ensures forall i :: 0 <= i < |contents| ==> Images(contents)[i] == Image(contents[i])
  {
    MappedAt(Image, contents);
  }

  // Each step adds the next image while it fits.
  lemma {:induction false} FittingStep(parts: seq<string>, room: nat, i: nat)
    requires i < |parts| && i <= Fitting(parts, room) && |Concat(parts[..i])| <= room
    ensures i < Fitting(parts, room) <==> |Concat(parts[..i])| + |parts[i]| <= room
    ensures Concat(parts[..i + 1]) == Concat(parts[..i]) + parts[i]
  {
    if i > 0 {
      assert parts[..i][1..] == parts[1..][..i - 1] && parts[..i + 1][1..] == parts[1..][..i];
      FittingStep(parts[1..], room - |parts[0]|, i - 1);
    } else {
      assert parts[..1][1..] == [];
    }
  }

  // The sections are cut down one by one and taken while they fit.
  method TakeFitting(filtered: seq<string>) returns (truncated: string, included: nat)
    ensures included == Fitting(Images(filtered), DIFF_BUDGET) <= |Images(filtered)| == |filtered|
    ensures truncated == Concat(Images(filtered)[..included])
  {
    ghost var images := Images(filtered);
    ImagesAreTruncated(filtered);
    FittingIsLongest(images, DIFF_BUDGET);
    truncated, included := "", 0;
    while included < |filtered|
      invariant included <= |filtered| == |images| && included <= Fitting(images, DIFF_BUDGET)
      invariant truncated == Concat(images[..included]) && |truncated| <= DIFF_BUDGET
    {
      FittingStep(images, DIFF_BUDGET, included);
      var section := TruncateDiffSection(filtered[included], MAX_LINES_PER_FILE);
      if |truncated| + |section| > DIFF_BUDGET {
        break;
      }
      truncated := truncated + section;
      included := included + 1;
    }
  }

  method PrepareDiff(diff: string, stat: string) returns (prepared: string, preparedStat: string)
    ensures prepared == Prepared(diff)
    ensures preparedStat == CappedStat(stat)
  {
    preparedStat := TruncateStat(stat);
    if |diff| <= DIFF_BUDGET {
      return diff, preparedStat;
    }
    var sections := ParseDiffSections(diff);
    var filtered := NonLock(sections);
    if |Concat(filtered)| <= DIFF_BUDGET {
      return Concat(filtered), preparedStat;
    }
    var included;
    prepared, included := TakeFitting(filtered);
    var filesOmitted := |filtered| - included;
    if filesOmitted > 0 {
      prepared := prepared + FilesOmitted(filesOmitted);
    }
  }

  // The prepared diff is within the budget but for the one omission mark. Over budget it holds no lock
  // file, and if that is not enough it is the truncated images of the longest prefix of the remaining
  // sections that fits, and the exact number of those left out.
  lemma PreparedFitsTheBudget(diff: string)
    ensures |diff| <= DIFF_BUDGET ==> Prepared(diff) == diff
    ensures var kept := NonLock(SectionsOf(diff));
      |diff| > DIFF_BUDGET && |Concat(kept)| <= DIFF_BUDGET ==> Prepared(diff) == Concat(kept)
    ensures var kept := NonLock(SectionsOf(diff));
      |diff| > DIFF_BUDGET && |Concat(kept)| > DIFF_BUDGET ==>
        exists n ::
          && 0 <= n <= |kept| == |Images(kept)|
          && Prepared(diff) == Shown(Images(kept), n)
          && |Concat(Images(kept)[..n])| <= DIFF_BUDGET
          && forall j :: n < j <= |kept| ==> |Concat(Images(kept)[..j])| > DIFF_BUDGET
    ensures |Prepared(diff)| <= DIFF_BUDGET + |FilesOmitted(|NonLock(SectionsOf(diff))|)|
  {
    var kept := NonLock(SectionsOf(diff));
    ImagesAreTruncated(kept);
    FittingIsLongest(Images(kept), DIFF_BUDGET);
    ShownFits(Images(kept));
  }

  function Others(isLock: string -> bool, sections: seq<Section>): (r: seq<bool>)
    ensures |r| == |sections| && forall i :: 0 <= i < |r| ==> (r[i] <==> !isLock(sections[i].path))
  {
    if sections == [] then [] else [!isLock(sections[0].path)] + Others(isLock, sections[1..])
  }

  ghost predicate ContentsAt(sections: seq<Section>, contents: seq<string>, at: seq<nat>) {
    |contents| == |at| && forall k :: 0 <= k < |at| ==> at[k] < |sections| && contents[k] == sections[at[k]].content
  }

  lemma ContentsInFront(first: Section, sections: seq<Section>, contents: seq<string>, at: seq<nat>, kept: bool)
    requires ContentsAt(sections, contents, at)
    ensures ContentsAt([first] + sections, (if kept then [first.content] else []) + contents, InFront(kept, at))
  {
    var n, all := if kept then 1 else 0, InFront(kept, at);
    forall k | n <= k < |all|
      ensures all[k] == at[k - n] + 1 && ([first] + sections)[all[k]] == sections[at[k - n]]
    {
    }
  }

  // Which sections the filter keeps, in order.
  lemma {:induction false} UnlockedAt(isLock: string -> bool, sections: seq<Section>) returns (at: seq<nat>)
    ensures Selects(Others(isLock, sections), at) && ContentsAt(sections, Unlocked(isLock, sections), at)
  {
    if sections == [] {
      at := [];
    } else {
      var rest := UnlockedAt(isLock, sections[1..]);
      var kept := !isLock(sections[0].path);
      SelectsInFront(kept, Others(isLock, sections[1..]), rest);
      ContentsInFront(sections[0], sections[1..], Unlocked(isLock, sections[1..]), rest, kept);
      assert [sections[0]] + sections[1..] == sections;
      assert [] + Unlocked(isLock, sections[1..]) == Unlocked(isLock, sections[1..]);
      at := InFront(kept, rest);
    }
  }

  lemma LockFilesAre(path: string)
    ensures IsLockFile(path) <==>
      || (|path| >= 5 && path[|path| - 5..] == ".lock")
      || (|path| >= 10 && path[|path| - 10..] == "-lock.json")
      || (|path| >= 10 && path[|path| - 10..] == "-lock.yaml")
      || (|path| >= 9 && path[|path| - 9..] == ".lock.hcl")
  {
    assert LOCK_FILE_PATTERNS[0] == ".lock" && LOCK_FILE_PATTERNS[1] == "-lock.json";
    assert LOCK_FILE_PATTERNS[2] == "-lock.yaml" && LOCK_FILE_PATTERNS[3] == ".lock.hcl";
  }

  lemma OthersAre(sections: seq<Section>, at: seq<nat>)
    requires Selects(Others(IsLockFile, sections), at)
    ensures forall i :: 0 <= i < |sections| ==>
      (i in at <==>
         var path := sections[i].path;
         && !(|path| >= 5 && path[|path| - 5..] == ".lock")
         && !(|path| >= 10 && path[|path| - 10..] == "-lock.json")
         && !(|path| >= 10 && path[|path| - 10..] == "-lock.yaml")
         && !(|path| >= 9 && path[|path| - 9..] == ".lock.hcl"))
  {
    forall i | 0 <= i < |sections|
      ensures i in at <==>
         var path := sections[i].path;
         && !(|path| >= 5 && path[|path| - 5..] == ".lock")
         && !(|path| >= 10 && path[|path| - 10..] == "-lock.json")
         && !(|path| >= 10 && path[|path| - 10..] == "-lock.yaml")
         && !(|path| >= 9 && path[|path| - 9..] == ".lock.hcl")
    {
      LockFilesAre(sections[i].path);
      assert Others(IsLockFile, sections)[i] <==> !IsLockFile(sections[i].path);
    }
  }

  lemma ImageIsCutDown(content: string)
    ensures Image(content) == Truncated(content, 50)
  {
  }

  lemma ShownIs(images: seq<string>, n: nat)
    requires n <= |images|
    ensures Shown(images, n) == Concat(images[..n])
      + if n == |images| then "" else "\n... (" + Decimal(|images| - n) + " files omitted, see diffstat)\n"
  {
  }

  lemma PreparedIs(diff: string, contents: seq<string>, n: nat)
    requires |diff| > 100_000 && contents == NonLock(SectionsOf(diff)) && n == Fitting(Images(contents), 100_000)
    ensures |Concat(contents)| <= 100_000 ==> Prepared(diff) == Concat(contents)
    ensures |Concat(contents)| > 100_000 ==> n <= |Images(contents)| && Prepared(diff) == Shown(Images(contents), n)
  {
    FittingIsLongest(Images(contents), 100_000);
  }

  lemma PreparedIsShown(diff: string, contents: seq<string>) returns (images: seq<string>, n: nat)
    requires |diff| > 100_000 && contents == NonLock(SectionsOf(diff))
    ensures |images| == |contents| && forall k :: 0 <= k < |images| ==> images[k] == Truncated(contents[k], 50)
    ensures |Concat(contents)| <= 100_000 ==> Prepared(diff) == Concat(contents)
    ensures |Concat(contents)| > 100_000 ==>
      && n <= |images| && |Concat(images[..n])| <= 100_000
      && (forall j :: n < j <= |images| ==> |Concat(images[..j])| > 100_000)
      && Prepared(diff) == Concat(images[..n])
           + if n == |images| then "" else "\n... (" + Decimal(|images| - n) + " files omitted, see diffstat)\n"
  {
    images := Images(contents);
    n := Fitting(images, 100_000);
    CutDownEach(contents);
    FittingIsLongest(images, 100_000);
    ShownIs(images, n);
    PreparedIs(diff, contents, n);
  }

  lemma CutDownEach(contents: seq<string>)
    ensures |Images(contents)| == |contents|
    ensures forall k :: 0 <= k < |contents| ==> Images(contents)[k] == Truncated(contents[k], 50)
  {
    ImagesAreTruncated(contents);
    forall k | 0 <= k < |contents|
      ensures Image(contents[k]) == Truncated(contents[k], 50)
    {
      ImageIsCutDown(contents[k]);
    }
  }

  // Over budget, what is left is exactly, in order, the sections whose paths end as no lock file's does: whole if
  // that is enough, and otherwise each cut down, as many from the front as fit, and how many are left out.
  lemma PreparedDropsLockFiles(diff: string) returns (at: seq<nat>, contents: seq<string>, images: seq<string>, n: nat)
    requires |diff| > 100_000
    ensures |at| == |contents| && (forall j, k :: 0 <= j < k < |at| ==> at[j] < at[k])
    ensures forall k :: 0 <= k < |at| ==>
      at[k] < |SectionsOf(diff)| && contents[k] == SectionsOf(diff)[at[k]].content
    ensures forall i :: 0 <= i < |SectionsOf(diff)| ==>
      (i in at <==>
         var path := SectionsOf(diff)[i].path;
         && !(|path| >= 5 && path[|path| - 5..] == ".lock")
         && !(|path| >= 10 && path[|path| - 10..] == "-lock.json")
         && !(|path| >= 10 && path[|path| - 10..] == "-lock.yaml")
         && !(|path| >= 9 && path[|path| - 9..] == ".lock.hcl"))
    ensures |images| == |contents| && forall k :: 0 <= k < |images| ==> images[k] == Truncated(contents[k], 50)
    ensures |Concat(contents)| <= 100_000 ==> Prepared(diff) == Concat(contents)
    ensures |Concat(contents)| > 100_000 ==>
      && n <= |images| && |Concat(images[..n])| <= 100_000
      && (forall j :: n < j <= |images| ==> |Concat(images[..j])| > 100_000)
      && Prepared(diff) == Concat(images[..n])
           + if n == |images| then "" else "\n... (" + Decimal(|images| - n) + " files omitted, see diffstat)\n"
  {
    contents := NonLock(SectionsOf(diff));
    at := UnlockedAt(IsLockFile, SectionsOf(diff));
    OthersAre(SectionsOf(diff), at);
    images, n := PreparedIsShown(diff, contents);
  }

  lemma ShownFits(images: seq<string>)
    ensures var n := Fitting(images, DIFF_BUDGET);
      n <= |images| && |Shown(images, n)| <= DIFF_BUDGET + |FilesOmitted(|images|)|
  {
    var n := Fitting(images, DIFF_BUDGET);
    FittingIsLongest(images, DIFF_BUDGET);
    DecimalGrows(|images| - n, |images|);
  }

  // ---------------------------------------------------------------- well-formed text stays well-formed

  ghost predicate AllValidUtf8(parts: seq<string>) {
    forall i :: 0 <= i < |parts| ==> ValidUtf8(parts[i])
  }

  lemma {:induction false} ConcatIsValid(parts: seq<string>)
    requires AllValidUtf8(parts)
    ensures ValidUtf8(Concat(parts))
  {
    if parts != [] {
      ConcatIsValid(parts[1..]);
      ValidConcat(parts[0], Concat(parts[1..]));
    }
  }

  lemma StrippedIsValid(piece: string)
    requires ValidUtf8(piece)
    ensures ValidUtf8(StripEnding(piece))
  {
    var n := |piece|;
    if n > 0 && piece[n - 1] == '\n' {
      CutAtBoundary(piece, n - 1);
      if n >= 2 && piece[n - 2] == '\r' {
        CutAtBoundary(piece, n - 2);
      }
    }
  }

  lemma {:induction false} LinesAreValid(text: string)
    requires ValidUtf8(text)
    ensures AllValidUtf8(Lines(text))
    decreases |text|
  {
    if text != "" {
      var n := LineEnd(text);
      if n < |text| {
        AfterAsciiIsBoundary(text, n);
      }
      CutAtBoundary(text, n);
      StrippedIsValid(text[..n]);
      LinesAreValid(text[n..]);
    }
  }

  lemma EmittedLineIsValid(line: string)
    requires ValidUtf8(line)
    ensures ValidUtf8(TruncateLine(line) + "\n")
  {
    TruncatedLineIsWholeCharacters(line);
    AsciiIsValid("\n");
    ValidConcat(TruncateLine(line), "\n");
  }

  // Texts put together from ASCII alone.
  predicate IsAscii(s: string) {
    forall c :: c in s ==> c as int < 0x80
  }

  lemma AsciiText(s: string)
    requires IsAscii(s)
    ensures ValidUtf8(s)
  {
    forall i | 0 <= i < |s| ensures s[i] as int < 0x80 {
      assert s[i] in s;
    }
    AsciiIsValid(s);
  }

  lemma NoteIsValid(before: string, n: nat, after: string)
    requires IsAscii(before) && IsAscii(after)
    ensures ValidUtf8(before + Decimal(n) + after)
  {
    var digits := Decimal(n);
    assert forall c :: c in digits ==> '0' <= c <= '9';
    AsciiText(before + digits + after);
  }

  lemma LinesNoteIsValid(n: nat)
    ensures ValidUtf8(LinesOmitted(n))
  {
    AsciiText("");
    AsciiText("\n");
    NoteIsValid("... (", n, " lines omitted)");
    ValidConcat("\n", OmittedText(n));
    ValidConcat("\n" + OmittedText(n), "\n");
  }

  lemma FilesNoteIsValid(n: nat)
    ensures ValidUtf8(FilesOmitted(n))
  {
    AsciiText("");
    NoteIsValid("\n... (", n, " files omitted, see diffstat)\n");
  }

  lemma TruncatedIsValid(section: string, maxLines: nat)
    requires ValidUtf8(section)
    ensures ValidUtf8(Truncated(section, maxLines))
  {
    var lines := Lines(section);
    var kept := KeptLines(lines, maxLines);
    LinesAreValid(section);
    var emitted := Terminated(TruncatedLines(lines)[..kept]);
    forall i | 0 <= i < |emitted|
      ensures ValidUtf8(emitted[i])
    {
      EmittedLineIsValid(lines[i]);
    }
    ConcatIsValid(emitted);
    LinesNoteIsValid(|lines| - kept);
    ValidConcat(Concat(emitted), LinesOmitted(|lines| - kept));
  }

  lemma {:induction false} UnlockedIsValid(isLock: string -> bool, sections: seq<Section>)
    requires forall i :: 0 <= i < |sections| ==> ValidUtf8(sections[i].content)
    ensures AllValidUtf8(Unlocked(isLock, sections))
  {
    if sections != [] {
      UnlockedIsValid(isLock, sections[1..]);
    }
  }

  lemma ImagesAreValid(contents: seq<string>)
    requires AllValidUtf8(contents)
    ensures AllValidUtf8(Images(contents))
  {
    ImagesAreTruncated(contents);
    forall i | 0 <= i < |contents|
      ensures ValidUtf8(Images(contents)[i])
    {
      TruncatedIsValid(contents[i], MAX_LINES_PER_FILE);
    }
  }

  // Whatever is cut, well-formed UTF-8 in gives well-formed UTF-8 out.
  lemma PreparedIsValidUtf8(diff: string)
    requires ValidUtf8(diff)
    ensures ValidUtf8(Prepared(diff))
  {
    SectionsAreValidUtf8(diff);
    UnlockedIsValid(IsLockFile, SectionsOf(diff));
    var kept := NonLock(SectionsOf(diff));
    ImagesAreValid(kept);
    if |diff| > DIFF_BUDGET {
      if |Concat(kept)| <= DIFF_BUDGET {
        ConcatIsValid(kept);
      } else {
        FittingIsLongest(Images(kept), DIFF_BUDGET);
        ShownIsValid(Images(kept), Fitting(Images(kept), DIFF_BUDGET));
      }
    }
  }

  lemma ShownIsValid(images: seq<string>, n: nat)
    requires AllValidUtf8(images) && n <= |images|
    ensures ValidUtf8(Shown(images, n))
  {
    FrontIsValid(images, n);
    FilesNoteIsValid(|images| - n);
    ValidConcat(Concat(images[..n]), FilesOmitted(|images| - n));
  }

  lemma FrontIsValid(images: seq<string>, n: nat)
    requires AllValidUtf8(images) && n <= |images|
    ensures ValidUtf8(Concat(images[..n]))
  {
    ConcatIsValid(images[..n]);
  }

  lemma {:induction false} DecimalGrows(m: nat, n: nat)
    requires m <= n
    ensures |Decimal(m)| <= |Decimal(n)|
    decreases n
  {
    if m >= 10 {
      DecimalGrows(m / 10, n / 10);
    }
  }

  // ---------------------------------------------------------------- squashed commits

  // Commits arrive newest first; the newest are shown oldest first, behind one entry for the older tail.
  function CappedCommits(subjects: seq<string>): seq<string> {
    var omitted := if |subjects| > MAX_SQUASH_COMMITS then |subjects| - MAX_SQUASH_COMMITS else 0;
    (if omitted > 0 then ["... (" + Decimal(omitted) + " earlier commits omitted)"] else [])
      + Reversed(subjects[..|subjects| - omitted])
  }

  // At most MAX_SQUASH_COMMITS + 1 entries: counted from the end, the newest commits in order, none lost.
  lemma CappedCommitsKeepTheNewest(subjects: seq<string>, k: nat)
    requires k < |subjects| && k < MAX_SQUASH_COMMITS
    ensures var shown := CappedCommits(subjects);
      && |shown| <= MAX_SQUASH_COMMITS + 1 && k < |shown| && shown[|shown| - 1 - k] == subjects[k]
      && (|subjects| <= MAX_SQUASH_COMMITS ==> |shown| == |subjects|)
      && (|subjects| > MAX_SQUASH_COMMITS ==>
            |shown| == MAX_SQUASH_COMMITS + 1
            && shown[0] == "... (" + Decimal(|subjects| - MAX_SQUASH_COMMITS) + " earlier commits omitted)")
  {
    var omitted := if |subjects| > MAX_SQUASH_COMMITS then |subjects| - MAX_SQUASH_COMMITS else 0;
    ReversedAt(subjects[..|subjects| - omitted], k);
  }
}
