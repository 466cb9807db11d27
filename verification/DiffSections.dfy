/** Cutting a diff into one section per file, with running byte offsets. */
module DiffSections {
  import opened Common
  import opened Text

  datatype Section = Section(path: string, content: string)

  const HEADER := "diff --git "

  predicate IsHeader(fullLine: string) {
    HEADER <= StripEnding(fullLine)
  }

  // ---------------------------------------------------------------- header paths

  predicate OccursAt(s: string, pattern: string, i: nat) {
    i + |pattern| <= |s| && s[i..i + |pattern|] == pattern
  }

  // The last occurrence, as `str::rfind`.
  function RFind(s: string, pattern: string, end: nat): (r: Option<nat>)
    ensures r.Some? ==> r.value < end && OccursAt(s, pattern, r.value)
    ensures forall i :: (if r.Some? then r.value + 1 else 0) <= i < end ==> !OccursAt(s, pattern, i)
  {
    if end == 0 then None
    else if OccursAt(s, pattern, end - 1) then Some(end - 1)
    else RFind(s, pattern, end - 1)
  }

  function ParseHeaderPath(line: string): Option<string> {
    if !(HEADER <= line) then None
    else
      var rest := line[|HEADER|..];
      match RFind(rest, " \"b/", |rest|)
      case Some(i) =>
        var path := rest[i + 4..];
        Some(if path != "" && path[|path| - 1] == '"' then path[..|path| - 1] else path)
      case None =>
        match RFind(rest, " b/", |rest|)
        case Some(i) => Some(rest[i + 3..])
        case None => None
  }

  // The name a section gets: empty when the header does not parse.
  function PathOf(fullLine: string): string {
    var path := ParseHeaderPath(StripEnding(fullLine));
    if path.Some? then path.value else ""
  }

  // A pattern whose first character does not come back within it is last found where only text without
  // it follows.
  lemma LastOccurrence(a: string, pattern: string, b: string)
    requires pattern != "" && forall k :: 1 <= k < |pattern| ==> pattern[k] != pattern[0]
    requires forall j: nat :: !OccursAt(b, pattern, j)
    ensures var s := a + pattern + b; RFind(s, pattern, |s|) == Some(|a|)
  {
    var s, n := a + pattern + b, |pattern|;
    assert s[|a|..|a| + n] == pattern && OccursAt(s, pattern, |a|);
    forall i | |a| < i < |s|
      ensures !OccursAt(s, pattern, i)
    {
      if i + n <= |s| {
        assert s[i..i + n][0] == s[i];
        if i < |a| + n {
          assert s[i] == pattern[i - |a|];
        } else {
          assert s[i..i + n] == b[i - |a| - n..i - |a|];
          assert !OccursAt(b, pattern, i - |a| - n);
        }
      }
    }
  }

  predicate Occurs(s: string, pattern: string) {
    exists i :: 0 <= i <= |s| && OccursAt(s, pattern, i)
  }

  // What is found last lies at or behind any occurrence.
  lemma FoundBehind(s: string, pattern: string, i: nat)
    requires OccursAt(s, pattern, i) && pattern != ""
    ensures RFind(s, pattern, |s|).Some? && RFind(s, pattern, |s|).value >= i
  {
  }

  lemma OccursBehind(a: string, b: string, pattern: string, i: nat)
    requires OccursAt(b, pattern, i)
    ensures OccursAt(a + b, pattern, |a| + i)
  {
    assert (a + b)[|a| + i..|a| + i + |pattern|] == b[i..i + |pattern|];
  }

  lemma PlainHeaderIsRead(src: string, dst: string)
    requires !Occurs("a/" + src + " b/" + dst, " \"b/") && !Occurs(dst, " b/")
    ensures ParseHeaderPath(HEADER + "a/" + src + " b/" + dst) == Some(dst)
  {
    var rest := "a/" + src + " b/" + dst;
    assert (HEADER + "a/" + src + " b/" + dst)[|HEADER|..] == rest;
    LastOccurrence("a/" + src, " b/", dst);
    assert rest[|src| + 5..] == dst;
  }

  // A quoted separator that is read first leaves something else.
  lemma QuotedIsReadFirst(left: string, dst: string)
    requires Occurs(left + " b/" + dst, " \"b/")
    ensures ParseHeaderPath(HEADER + (left + " b/" + dst)) != Some(dst)
  {
    var rest := left + " b/" + dst;
    var j :| 0 <= j <= |rest| && OccursAt(rest, " \"b/", j);
    FoundBehind(rest, " \"b/", j);
    var i := RFind(rest, " \"b/", |rest|).value;
    assert (HEADER + rest)[|HEADER|..] == rest;
    NotWhereTheNameIs(left, dst, i);
  }

  lemma NotWhereTheNameIs(left: string, dst: string, i: nat)
    requires OccursAt(left + " b/" + dst, " \"b/", i)
    ensures i + 1 != |left| && i + 2 != |left|
  {
    var rest, mark := left + " b/" + dst, " \"b/";
    assert rest[i..i + |mark|] == mark;
    assert rest[i + 1] == mark[1] == '"' && rest[i + 2] == mark[2] == 'b';
    assert rest[|left|] == " b/"[0] == ' ';
  }

  lemma SeparatorInTheName(left: string, dst: string)
    requires !Occurs(left + " b/" + dst, " \"b/") && Occurs(dst, " b/")
    ensures ParseHeaderPath(HEADER + (left + " b/" + dst)) != Some(dst)
  {
    var rest := left + " b/" + dst;
    var j :| 0 <= j <= |dst| && OccursAt(dst, " b/", j);
    OccursBehind(left + " b/", dst, " b/", j);
    FoundBehind(rest, " b/", |left| + 3 + j);
    assert (HEADER + rest)[|HEADER|..] == rest;
  }

  // The header git prints for a pair of plain names gives the second name back exactly when that name does not
  // hold ` b/`, and the whole does not hold ` "b/`.
  lemma PlainHeaderRoundTrip(src: string, dst: string)
    ensures ParseHeaderPath(HEADER + "a/" + src + " b/" + dst) == Some(dst)
      <==> !Occurs("a/" + src + " b/" + dst, " \"b/") && !Occurs(dst, " b/")
  {
    var left := "a/" + src;
    assert HEADER + "a/" + src + " b/" + dst == HEADER + (left + " b/" + dst);
    if Occurs(left + " b/" + dst, " \"b/") {
      QuotedIsReadFirst(left, dst);
    } else if Occurs(dst, " b/") {
      SeparatorInTheName(left, dst);
    } else {
      PlainHeaderIsRead(src, dst);
    }
  }

  lemma QuotedHeaderIsRead(src: string, dst: string)
    requires !Occurs(dst + "\"", " \"b/")
    ensures ParseHeaderPath(HEADER + (src + " \"b/" + (dst + "\""))) == Some(dst)
  {
    var rest := src + " \"b/" + (dst + "\"");
    assert (HEADER + rest)[|HEADER|..] == rest;
    LastOccurrence(src, " \"b/", dst + "\"");
    assert rest[|src| + 4..] == dst + "\"";
  }

  lemma SeparatorInTheQuotedName(src: string, dst: string)
    requires Occurs(dst + "\"", " \"b/")
    ensures ParseHeaderPath(HEADER + (src + " \"b/" + (dst + "\""))) != Some(dst)
  {
    var rest := src + " \"b/" + (dst + "\"");
    assert (HEADER + rest)[|HEADER|..] == rest;
    var j :| 0 <= j <= |dst + "\""| && OccursAt(dst + "\"", " \"b/", j);
    OccursBehind(src + " \"b/", dst + "\"", " \"b/", j);
    FoundBehind(rest, " \"b/", |src| + 4 + j);
  }

  // The same for a pair git quotes; the name comes back as quoted.
  lemma QuotedHeaderRoundTrip(src: string, dst: string)
    ensures ParseHeaderPath(HEADER + src + " \"b/" + dst + "\"") == Some(dst) <==> !Occurs(dst + "\"", " \"b/")
  {
    assert HEADER + src + " \"b/" + dst + "\"" == HEADER + (src + " \"b/" + (dst + "\""));
    if Occurs(dst + "\"", " \"b/") {
      SeparatorInTheQuotedName(src, dst);
    } else {
      QuotedHeaderIsRead(src, dst);
    }
  }

  // ---------------------------------------------------------------- sections

  // What a whole line is: the path it opens a section for, or nothing. The cutting itself does not depend
  // on which lines those are.
  type Reader = string -> Option<string>

  function ReadHeader(fullLine: string): Option<string> {
    if IsHeader(fullLine) then Some(PathOf(fullLine)) else None
  }

  // The text before the first header, and the sections, of a list of whole lines.
  datatype Parts = Parts(before: string, sections: seq<Section>)

  function Cut(read: Reader, lines: seq<string>): Parts {
    if lines == [] then Parts("", [])
    else Extended(read(lines[0]), lines[0], Cut(read, lines[1..]))
  }

  function Extended(path: Option<string>, line: string, parts: Parts): Parts {
    match path
    case Some(path) => Parts("", [Section(path, line + parts.before)] + parts.sections)
    case None => Parts(line + parts.before, parts.sections)
  }

  function SectionsOf(diff: string): seq<Section> {
    Cut(ReadHeader, SplitInclusive(diff)).sections
  }

  function Contents(sections: seq<Section>): seq<string> {
    if sections == [] then [] else [sections[0].content] + Contents(sections[1..])
  }

  function Headers(read: Reader, lines: seq<string>): seq<string> {
    if lines == [] then []
    else if read(lines[0]).Some? then [lines[0]] + Headers(read, lines[1..])
    else Headers(read, lines[1..])
  }

  function Saved(file: Option<string>, text: string): seq<Section> {
    if file.Some? then [Section(file.value, text)] else []
  }

  // All the sections, given those saved, the open one with its text so far, and the remaining parts.
  ghost function Whole(saved: seq<Section>, file: Option<string>, text: string, rest: Parts): seq<Section> {
    saved + (Saved(file, text + rest.before) + rest.sections)
  }

  lemma WholeEnds(saved: seq<Section>, file: Option<string>, text: string)
    ensures Whole(saved, file, text, Parts("", [])) == saved + Saved(file, text)
  {
    assert text + "" == text;
  }

  lemma WholeGoesOn(saved: seq<Section>, file: Option<string>, text: string, line: string, path: Option<string>,
      rest: Parts)
    ensures Whole(saved, file, text, Extended(path, line, rest)) ==
      if path.Some? then Whole(saved + Saved(file, text), path, line, rest)
      else Whole(saved, file, text + line, rest)
  {
    if path.Some? {
      assert text + "" == text;
      var first := Section(path.value, line + rest.before);
      assert saved + (Saved(file, text) + ([first] + rest.sections))
          == (saved + Saved(file, text)) + ([first] + rest.sections);
    } else {
      assert text + (line + rest.before) == (text + line) + rest.before;
    }
  }

  // Closes the section that is open, if there is one with any text.
  method Save(diff: string, sections: seq<Section>, file: Option<string>, start: nat, end: nat)
    returns (r: seq<Section>)
    requires start <= end <= |diff| && (file.Some? ==> start < end)
    ensures r == sections + Saved(file, diff[start..end])
  {
    r := sections;
    if file.Some? && end > start {
      r := r + [Section(file.value, diff[start..end])];
    }
  }

  lemma Adjacent(s: string, a: nat, b: nat, line: string, rest: string)
    requires a <= b <= |s| && s[b..] == line + rest
    ensures b + |line| <= |s| && s[a..b] + line == s[a..b + |line|]
    ensures s[b..b + |line|] == line && s[b + |line|..] == rest
  {
    assert s[b..][..|line|] == line && s[b..][|line|..] == rest;
  }

  // The variables of the loop: the sections saved, the one open since `start`, and the running offset.
  datatype Loop = Loop(sections: seq<Section>, file: Option<string>, start: nat, at: nat)

  ghost predicate Valid(diff: string, s: Loop, ahead: seq<string>) {
    s.start <= s.at <= |diff| && diff[s.at..] == Concat(ahead) && (s.file.Some? ==> s.start < s.at)
  }

  // All the sections: those saved, the one open, and what the lines ahead add.
  ghost function AllFrom(read: Reader, diff: string, s: Loop, ahead: seq<string>): seq<Section>
    requires Valid(diff, s, ahead)
  {
    Whole(s.sections, s.file, diff[s.start..s.at], Cut(read, ahead))
  }

  method TakeLine(read: Reader, diff: string, s: Loop, fullLine: string, ghost ahead: seq<string>) returns (r: Loop)
    requires ahead != [] && ahead[0] == fullLine != "" && Valid(diff, s, ahead)
    ensures Valid(diff, r, ahead[1..]) && AllFrom(read, diff, r, ahead[1..]) == AllFrom(read, diff, s, ahead)
  {
    WholeGoesOn(s.sections, s.file, diff[s.start..s.at], fullLine, read(fullLine), Cut(read, ahead[1..]));
    Adjacent(diff, s.start, s.at, fullLine, Concat(ahead[1..]));
    var header := read(fullLine);
    r := s;
    if header.Some? {
      var sections := Save(diff, s.sections, s.file, s.start, s.at);
      r := Loop(sections, header, s.at, s.at);
    }
    r := r.(at := s.at + |fullLine|);
  }

  lemma Begins(read: Reader, diff: string, lines: seq<string>)
    requires Concat(lines) == diff
    ensures var s := Loop([], None, 0, 0);
      Valid(diff, s, lines) && AllFrom(read, diff, s, lines) == Cut(read, lines).sections
  {
    WholeSlice(diff);
    NothingBefore(Cut(read, lines).sections);
  }

  lemma WholeSlice<T>(s: seq<T>)
    ensures s[0..] == s && s[|s|..] == []
  {
  }

  lemma NothingBefore<T>(s: seq<T>)
    ensures [] + ([] + s) == s
  {
  }

  lemma Ends(read: Reader, diff: string, s: Loop)
    requires Valid(diff, s, [])
    ensures s.at == |diff| && AllFrom(read, diff, s, []) == s.sections + Saved(s.file, diff[s.start..|diff|])
  {
    WholeEnds(s.sections, s.file, diff[s.start..|diff|]);
  }

  lemma Ahead(lines: seq<string>, i: nat)
    requires i < |lines|
    ensures lines[i..] != [] && lines[i..][0] == lines[i] && lines[i..][1..] == lines[i + 1..]
  {
  }

  // The loop over the lines of a diff, terminators included.
  method CutDiff(read: Reader, diff: string, lines: seq<string>) returns (sections: seq<Section>)
    requires Concat(lines) == diff && forall i :: 0 <= i < |lines| ==> lines[i] != ""
    ensures sections == Cut(read, lines).sections
  {
    var s := Loop([], None, 0, 0);
    var i := 0;
    Begins(read, diff, lines);
    WholeSlice(lines);
    while i < |lines|
      invariant 0 <= i <= |lines| && Valid(diff, s, lines[i..])
      invariant AllFrom(read, diff, s, lines[i..]) == Cut(read, lines).sections
    {
      Ahead(lines, i);
      s := TakeLine(read, diff, s, lines[i], lines[i..]);
      i := i + 1;
    }
    Ends(read, diff, s);
    sections := Save(diff, s.sections, s.file, s.start, |diff|);
  }

  method ParseDiffSections(diff: string) returns (sections: seq<Section>)
    ensures sections == SectionsOf(diff)
  {
    var lines := SplitInclusive(diff);
    SplitInclusiveLosesNothing(diff);
    LinesAreStrippedPieces(diff);
    sections := CutDiff(ReadHeader, diff, lines);
  }

  lemma ExtendedContents(path: Option<string>, line: string, parts: Parts)
    ensures var r := Extended(path, line, parts);
      r.before + Concat(Contents(r.sections)) == line + (parts.before + Concat(Contents(parts.sections)))
  {
    var r := Extended(path, line, parts);
    var all := Concat(Contents(parts.sections));
    Regroup(line, parts.before, all);
    if path.Some? {
      assert r.sections[1..] == parts.sections;
      assert Contents(r.sections)[1..] == Contents(parts.sections);
      assert "" + (line + parts.before + all) == line + parts.before + all;
    }
  }

  lemma {:induction false} CutLosesNothing(read: Reader, lines: seq<string>)
    ensures Cut(read, lines).before + Concat(Contents(Cut(read, lines).sections)) == Concat(lines)
  {
    if lines != [] {
      CutLosesNothing(read, lines[1..]);
      ExtendedContents(read(lines[0]), lines[0], Cut(read, lines[1..]));
    }
  }

  // One section per header line, starting with that line and bearing its path.
  ghost predicate Matches(read: Reader, sections: seq<Section>, headers: seq<string>) {
    && |sections| == |headers|
    && forall i :: 0 <= i < |headers| ==>
         headers[i] <= sections[i].content && read(headers[i]) == Some(sections[i].path)
  }

  lemma MatchesOneMore(read: Reader, section: Section, header: string, sections: seq<Section>, headers: seq<string>)
    requires header <= section.content && read(header) == Some(section.path) && Matches(read, sections, headers)
    ensures Matches(read, [section] + sections, [header] + headers)
  {
  }

  lemma {:induction false} CutAtHeaders(read: Reader, lines: seq<string>)
    ensures Matches(read, Cut(read, lines).sections, Headers(read, lines))
  {
    if lines != [] {
      CutAtHeaders(read, lines[1..]);
      var parts := Cut(read, lines[1..]);
      if read(lines[0]).Some? {
        var section := Section(read(lines[0]).value, lines[0] + parts.before);
        MatchesOneMore(read, section, lines[0], parts.sections, Headers(read, lines[1..]));
      }
    }
  }

  // The lines up to the first header.
  function Preamble(read: Reader, lines: seq<string>): seq<string> {
    if lines == [] || read(lines[0]).Some? then [] else [lines[0]] + Preamble(read, lines[1..])
  }

  lemma {:induction false} CutDropsThePreamble(read: Reader, lines: seq<string>)
    ensures Cut(read, lines).before == Concat(Preamble(read, lines)) && Preamble(read, lines) <= lines
    ensures forall i :: 0 <= i < |Preamble(read, lines)| ==> read(lines[i]).None?
    ensures |Preamble(read, lines)| < |lines| ==> read(lines[|Preamble(read, lines)|]).Some?
  {
    if lines != [] && read(lines[0]).None? {
      var rest := Preamble(read, lines[1..]);
      CutDropsThePreamble(read, lines[1..]);
      assert ([lines[0]] + rest)[1..] == rest;
    }
  }

  // For any text, with any mix of line endings: the sections put together are the text from its first
  // header line on, one per header line, each starting at its header and named after it. A header whose
  // path does not parse names its section with nothing.
  lemma SectionsCoverTheDiff(diff: string)
    ensures var lines, sections := SplitInclusive(diff), SectionsOf(diff);
      var before := Preamble(ReadHeader, lines);
      && diff == Concat(before) + Concat(Contents(sections))
      && before <= lines && (forall i :: 0 <= i < |before| ==> !IsHeader(lines[i]))
      && (|before| < |lines| ==> IsHeader(lines[|before|]))
      && Matches(ReadHeader, sections, Headers(ReadHeader, lines))
      && forall i :: 0 <= i < |sections| ==> HEADER <= sections[i].content
  {
    var lines := SplitInclusive(diff);
    SplitInclusiveLosesNothing(diff);
    CutLosesNothing(ReadHeader, lines);
    CutAtHeaders(ReadHeader, lines);
    CutDropsThePreamble(ReadHeader, lines);
    var sections, headers := SectionsOf(diff), Headers(ReadHeader, lines);
    forall i | 0 <= i < |sections|
      ensures HEADER <= sections[i].content
    {
      HeaderStartsWithMark(headers[i], sections[i].content);
    }
  }

  lemma HeaderStartsWithMark(header: string, content: string)
    requires ReadHeader(header).Some? && header <= content
    ensures HEADER <= content
  {
    assert HEADER <= StripEnding(header) <= header;
  }

  ghost predicate AllValid(parts: Parts) {
    ValidUtf8(parts.before) && forall i :: 0 <= i < |parts.sections| ==> ValidUtf8(parts.sections[i].content)
  }

  lemma ExtendedIsValid(path: Option<string>, line: string, parts: Parts)
    requires ValidUtf8(line) && AllValid(parts)
    ensures AllValid(Extended(path, line, parts))
  {
    ValidConcat(line, parts.before);
  }

  // Sections of well-formed UTF-8 are well-formed: no offset falls inside a character.
  lemma {:induction false} CutIsValidUtf8(read: Reader, diff: string)
    requires ValidUtf8(diff)
    ensures AllValid(Cut(read, SplitInclusive(diff)))
    decreases |diff|
  {
    if diff != "" {
      var n := LineEnd(diff);
      if n < |diff| {
        AfterAsciiIsBoundary(diff, n);
      }
      CutAtBoundary(diff, n);
      CutIsValidUtf8(read, diff[n..]);
      ExtendedIsValid(read(diff[..n]), diff[..n], Cut(read, SplitInclusive(diff[n..])));
      assert SplitInclusive(diff)[1..] == SplitInclusive(diff[n..]);
    }
  }

  lemma SectionsAreValidUtf8(diff: string)
    requires ValidUtf8(diff)
    ensures forall i :: 0 <= i < |SectionsOf(diff)| ==> ValidUtf8(SectionsOf(diff)[i].content)
  {
    CutIsValidUtf8(ReadHeader, diff);
  }

  // ---------------------------------------------------------------- which lines each section holds

  function Flags(read: Reader, lines: seq<string>): (r: seq<bool>)
    ensures |r| == |lines| && forall i :: 0 <= i < |r| ==> (r[i] <==> read(lines[i]).Some?)
  {
    if lines == [] then [] else [read(lines[0]).Some?] + Flags(read, lines[1..])
  }

  // Where the `k`th of the places `at` ends: at the next, or at the end of all.
  function EndOf(at: seq<nat>, k: nat, n: nat): nat {
    if k + 1 < |at| then at[k + 1] else n
  }

  ghost predicate SectionAt(read: Reader, lines: seq<string>, section: Section, i: nat, j: nat) {
    && i <= j <= |lines| && i < |lines| && read(lines[i]).Some?
    && section == Section(read(lines[i]).value, Concat(lines[i..j]))
  }

  ghost predicate SectionsAt(read: Reader, lines: seq<string>, sections: seq<Section>, at: seq<nat>) {
    && |sections| == |at|
    && forall k :: 0 <= k < |at| ==> SectionAt(read, lines, sections[k], at[k], EndOf(at, k, |lines|))
  }

  function FirstOf(at: seq<nat>, n: nat): nat {
    if at == [] then n else at[0]
  }

  ghost predicate CutAt(read: Reader, lines: seq<string>, parts: Parts, at: seq<nat>) {
    && Selects(Flags(read, lines), at) && SectionsAt(read, lines, parts.sections, at)
    && FirstOf(at, |lines|) <= |lines| && parts.before == Concat(lines[..FirstOf(at, |lines|)])
  }

  lemma SectionOneLater(read: Reader, line: string, rest: seq<string>, section: Section, i: nat, j: nat,
                        nextI: nat, nextJ: nat)
    requires SectionAt(read, rest, section, i, j) && nextI == i + 1 && nextJ == j + 1
    ensures SectionAt(read, [line] + rest, section, nextI, nextJ)
  {
    SliceOneLater(line, rest, i, j);
  }

  lemma SliceOneLater<T>(x: T, s: seq<T>, i: nat, j: nat)
    requires i <= j <= |s|
    ensures ([x] + s)[i + 1..j + 1] == s[i..j] && (i < |s| ==> ([x] + s)[i + 1] == s[i])
  {
  }

  lemma FirstSection(read: Reader, line: string, rest: seq<string>, j: nat)
    requires j <= |rest| && read(line).Some?
    ensures SectionAt(read, [line] + rest, Section(read(line).value, line + Concat(rest[..j])), 0, j + 1)
  {
    assert ([line] + rest)[0..j + 1] == [line] + rest[..j];
    ConcatCons(line, rest[..j]);
  }

  lemma BeforeOneLater(line: string, rest: seq<string>, j: nat)
    requires j <= |rest|
    ensures Concat(([line] + rest)[..j + 1]) == line + Concat(rest[..j])
  {
    assert ([line] + rest)[..j + 1] == [line] + rest[..j];
    ConcatCons(line, rest[..j]);
  }

  lemma SectionsOneLater(read: Reader, line: string, rest: seq<string>, sections: seq<Section>, at: seq<nat>)
    requires SectionsAt(read, rest, sections, at)
    ensures SectionsAt(read, [line] + rest, sections, Shifted(at))
  {
    forall k | 0 <= k < |at|
      ensures SectionAt(read, [line] + rest, sections[k], Shifted(at)[k], EndOf(Shifted(at), k, |[line] + rest|))
    {
      KthOneLater(read, line, rest, sections[k], at, k);
    }
  }

  lemma KthOneLater(read: Reader, line: string, rest: seq<string>, section: Section, at: seq<nat>, k: nat)
    requires k < |at| && SectionAt(read, rest, section, at[k], EndOf(at, k, |rest|))
    ensures SectionAt(read, [line] + rest, section, Shifted(at)[k], EndOf(Shifted(at), k, |[line] + rest|))
  {
    EndShifted(at, k, |rest|);
    OneLonger(line, rest);
    var nextI, nextJ := Shifted(at)[k], EndOf(Shifted(at), k, |[line] + rest|);
    SectionOneLater(read, line, rest, section, at[k], EndOf(at, k, |rest|), nextI, nextJ);
  }

  lemma OneLonger<T>(x: T, s: seq<T>)
    ensures |[x] + s| == |s| + 1
  {
  }

  lemma EndShifted(at: seq<nat>, k: nat, n: nat)
    requires k < |at|
    ensures Shifted(at)[k] == at[k] + 1 && EndOf(Shifted(at), k, n + 1) == EndOf(at, k, n) + 1
  {
  }

  lemma SectionInFront(read: Reader, lines: seq<string>, first: Section, sections: seq<Section>, at: seq<nat>)
    requires SectionsAt(read, lines, sections, at) && SectionAt(read, lines, first, 0, FirstOf(at, |lines|))
    ensures SectionsAt(read, lines, [first] + sections, [0] + at)
  {
    forall k | 0 <= k < |at| + 1
      ensures SectionAt(read, lines, ([first] + sections)[k], ([0] + at)[k], EndOf([0] + at, k, |lines|))
    {
      if k > 0 {
        assert EndOf([0] + at, k, |lines|) == EndOf(at, k - 1, |lines|);
      }
    }
  }

  // A line that is no header goes to what comes before the first one.
  lemma PlainLine(read: Reader, line: string, rest: seq<string>, parts: Parts, at: seq<nat>)
    requires CutAt(read, rest, parts, at) && read(line).None?
    ensures CutAt(read, [line] + rest, Parts(line + parts.before, parts.sections), InFront(false, at))
  {
    var lines := [line] + rest;
    assert lines[1..] == rest && Flags(read, lines) == [false] + Flags(read, rest);
    SelectsInFront(false, Flags(read, rest), at);
    assert InFront(false, at) == Shifted(at);
    SectionsOneLater(read, line, rest, parts.sections, at);
    BeforeOneLater(line, rest, FirstOf(at, |rest|));
    assert FirstOf(Shifted(at), |lines|) == FirstOf(at, |rest|) + 1;
  }

  lemma HeaderLine(read: Reader, line: string, rest: seq<string>, parts: Parts, at: seq<nat>)
    requires CutAt(read, rest, parts, at) && read(line).Some?
    ensures CutAt(read, [line] + rest,
      Parts("", [Section(read(line).value, line + parts.before)] + parts.sections), InFront(true, at))
  {
    var lines := [line] + rest;
    assert lines[1..] == rest && Flags(read, lines) == [true] + Flags(read, rest);
    SelectsInFront(true, Flags(read, rest), at);
    SectionsOneLater(read, line, rest, parts.sections, at);
    FirstSection(read, line, rest, FirstOf(at, |rest|));
    assert FirstOf(Shifted(at), |lines|) == FirstOf(at, |rest|) + 1;
    SectionInFront(read, lines, Section(read(line).value, line + parts.before), parts.sections, Shifted(at));
    assert lines[..0] == [];
  }

  lemma {:induction false} CutSelects(read: Reader, lines: seq<string>) returns (at: seq<nat>)
    ensures CutAt(read, lines, Cut(read, lines), at)
  {
    if lines == [] {
      at := NothingCut(read);
    } else {
      at := CutSelects(read, lines[1..]);
      at := OneLineCut(read, lines, Cut(read, lines[1..]), at);
    }
  }

  lemma NothingCut(read: Reader) returns (at: seq<nat>)
    ensures CutAt(read, [], Cut(read, []), at)
  {
    at := [];
  }

  lemma OneLineCut(read: Reader, lines: seq<string>, parts: Parts, rest: seq<nat>) returns (at: seq<nat>)
    requires lines != [] && parts == Cut(read, lines[1..]) && CutAt(read, lines[1..], parts, rest)
    ensures CutAt(read, lines, Cut(read, lines), at)
  {
    var line := lines[0];
    assert [line] + lines[1..] == lines && Cut(read, lines) == Extended(read(line), line, parts);
    at := InFront(read(line).Some?, rest);
    if read(line).Some? {
      HeaderLine(read, line, lines[1..], parts, rest);
    } else {
      PlainLine(read, line, lines[1..], parts, rest);
    }
  }

  lemma HeadersAre(line: string)
    ensures IsHeader(line) <==> |line| >= 11 && line[..11] == "diff --git "
  {
    var h := "diff --git ";
    assert forall i :: 0 <= i < 11 ==> h[i] != '\n' && h[i] != '\r';
    if |line| >= 11 && line[..11] == h {
      assert forall i :: 0 <= i < 11 ==> line[i] == h[i];
      assert StripEnding(line)[..11] == line[..11];
    }
    if IsHeader(line) {
      assert line[..11] == StripEnding(line)[..11] == h;
    }
  }

  // Every line that begins with `diff --git ` opens a section, and no other does; a section is that line and all
  // up to the next such line, and is named by its own.
  lemma SectionsAreLinesFromHeaderToHeader(diff: string) returns (at: seq<nat>)
    ensures var lines := SplitInclusive(diff);
      && (forall j, k :: 0 <= j < k < |at| ==> at[j] < at[k])
      && (forall i :: 0 <= i < |lines| ==> (i in at <==> |lines[i]| >= 11 && lines[i][..11] == "diff --git "))
      && |SectionsOf(diff)| == |at|
    ensures var lines := SplitInclusive(diff);
      forall k :: 0 <= k < |at| ==>
        && at[k] <= EndOf(at, k, |lines|) <= |lines| && at[k] < |lines|
        && SectionsOf(diff)[k] == Section(PathOf(lines[at[k]]), Concat(lines[at[k]..EndOf(at, k, |lines|)]))
  {
    var lines := SplitInclusive(diff);
    at := CutSelects(ReadHeader, lines);
    forall i | 0 <= i < |lines|
      ensures i in at <==> |lines[i]| >= 11 && lines[i][..11] == "diff --git "
    {
      HeadersAre(lines[i]);
      assert Flags(ReadHeader, lines)[i] <==> IsHeader(lines[i]);
    }
    forall k | 0 <= k < |at|
      ensures SectionAt(ReadHeader, lines, SectionsOf(diff)[k], at[k], EndOf(at, k, |lines|))
    {
    }
  }
}
