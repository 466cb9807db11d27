/** Text as its UTF-8 bytes, one `char` of code 0 to 255 per byte, so that ASCII literals stand for
    themselves; lines as `str::lines` and `split_inclusive('\n')` cut them; decimal numerals. */
module Text {
  function Concat(parts: seq<string>): string {
    if parts == [] then "" else parts[0] + Concat(parts[1..])
  }

  lemma {:induction false} ConcatAppend(a: seq<string>, b: seq<string>)
    ensures Concat(a + b) == Concat(a) + Concat(b)
  {
    if a == [] {
      assert a + b == b;
    } else {
      assert (a + b)[1..] == a[1..] + b;
      ConcatAppend(a[1..], b);
    }
  }

  lemma ConcatCons(first: string, rest: seq<string>)
    ensures Concat([first] + rest) == first + Concat(rest)
  {
    assert ([first] + rest)[1..] == rest;
  }

  predicate EndsWith(s: string, end: string) {
    |end| <= |s| && s[|s| - |end|..] == end
  }

  // ---------------------------------------------------------------- lines

  // The length of the first line, its terminator included.
  function LineEnd(s: string): (n: nat)
    requires s != ""
    ensures 1 <= n <= |s|
    ensures forall i :: 0 <= i < n - 1 ==> s[i] != '\n'
    ensures n < |s| ==> s[n - 1] == '\n'
  {
    if s[0] == '\n' || |s| == 1 then 1 else 1 + LineEnd(s[1..])
  }

  function SplitInclusive(s: string): seq<string> {
    if s == "" then [] else [s[..LineEnd(s)]] + SplitInclusive(s[LineEnd(s)..])
  }

  // One `\n`, and one `\r` before it; a line without `\n` keeps its `\r`.
  function StripEnding(line: string): string {
    if line == "" || line[|line| - 1] != '\n' then line
    else if |line| >= 2 && line[|line| - 2] == '\r' then line[..|line| - 2]
    else line[..|line| - 1]
  }

  function Lines(s: string): seq<string> {
    if s == "" then [] else [StripEnding(s[..LineEnd(s)])] + Lines(s[LineEnd(s)..])
  }

  // Of a line, its `\n` is taken off and one `\r` before that; a `\r` without one stays.
  lemma StripEndingIs(line: string)
    ensures '\n' !in line ==> StripEnding(line) == line && StripEnding(line + "\r\n") == line
    ensures '\n' !in line && (line == "" || line[|line| - 1] != '\r') ==> StripEnding(line + "\n") == line
  {
    assert (line + "\n")[..|line|] == line && (line + "\r\n")[..|line|] == line;
  }

  lemma Halved(s: string, n: nat)
    requires n <= |s|
    ensures s[..n] + s[n..] == s
  {
  }

  lemma {:induction false} SplitInclusiveLosesNothing(s: string)
    ensures Concat(SplitInclusive(s)) == s
    decreases |s|
  {
    if s != "" {
      var n := LineEnd(s);
      SplitInclusiveLosesNothing(s[n..]);
      ConcatCons(s[..n], SplitInclusive(s[n..]));
      assert SplitInclusive(s) == [s[..n]] + SplitInclusive(s[n..]);
      Halved(s, n);
    }
  }

  lemma {:induction false} LinesAreStrippedPieces(s: string)
    ensures |Lines(s)| == |SplitInclusive(s)|
    ensures forall i :: 0 <= i < |Lines(s)| ==> Lines(s)[i] == StripEnding(SplitInclusive(s)[i])
    ensures forall i :: 0 <= i < |Lines(s)| ==> SplitInclusive(s)[i] != "" && '\n' !in Lines(s)[i]
    decreases |s|
  {
    if s != "" {
      LinesAreStrippedPieces(s[LineEnd(s)..]);
    }
  }

  // A first line put before any text is cut off again.
  lemma FirstLineIsCut(line: string, rest: string)
    requires '\n' !in line
    ensures LineEnd(line + "\n" + rest) == |line| + 1
    ensures SplitInclusive(line + "\n" + rest) == [line + "\n"] + SplitInclusive(rest)
  {
    var s := line + "\n" + rest;
    var n := LineEnd(s);
    assert s[|line|] == '\n' && forall i :: 0 <= i < |line| ==> s[i] == line[i] && line[i] in line;
    assert n - 1 <= |line|;
    assert n - 1 >= |line|;
    assert s[..n] == line + "\n" && s[n..] == rest;
  }

  // Each line with its newline.
  function Terminated(lines: seq<string>): (r: seq<string>)
    ensures |r| == |lines| && forall i :: 0 <= i < |lines| ==> r[i] == lines[i] + "\n"
  {
    if lines == [] then [] else [lines[0] + "\n"] + Terminated(lines[1..])
  }

  lemma TerminatedGrows(lines: seq<string>, i: nat)
    requires i < |lines|
    ensures Concat(Terminated(lines[..i + 1])) == Concat(Terminated(lines[..i])) + (lines[i] + "\n")
  {
    assert Terminated(lines[..i + 1]) == Terminated(lines[..i]) + [lines[i] + "\n"];
    ConcatAppend(Terminated(lines[..i]), [lines[i] + "\n"]);
    assert Concat([lines[i] + "\n"]) == lines[i] + "\n" + "";
  }

  lemma Grouped(first: string, a: seq<string>, b: seq<string>)
    ensures [first] + (a + b) == ([first] + a) + b
  {
  }

  lemma PutFirst(first: string, tail: seq<string>, rest: string)
    ensures Concat([first] + tail) + rest == first + (Concat(tail) + rest)
  {
    assert ([first] + tail)[1..] == tail;
  }

  // Terminated lines, put together before any text, are cut apart again.
  lemma {:induction false} TerminatedLinesAreCut(lines: seq<string>, rest: string)
    requires forall i :: 0 <= i < |lines| ==> '\n' !in lines[i]
    ensures SplitInclusive(Concat(Terminated(lines)) + rest) == Terminated(lines) + SplitInclusive(rest)
  {
    if lines == [] {
      assert Concat(Terminated(lines)) + rest == rest;
    } else {
      var first, tail := lines[0] + "\n", Terminated(lines[1..]);
      TerminatedLinesAreCut(lines[1..], rest);
      PutFirst(first, tail, rest);
      FirstLineIsCut(lines[0], Concat(tail) + rest);
      Grouped(first, tail, SplitInclusive(rest));
    }
  }

  // ---------------------------------------------------------------- UTF-8, section 3 and 4 of RFC 3629

  predicate IsContinuation(c: char) {
    0x80 <= c as int < 0xC0
  }

  predicate Tails(s: string, from: nat, to: nat) {
    to <= |s| && forall i :: from <= i < to ==> IsContinuation(s[i])
  }

  // The length of the first character, or 0 if `s` does not start with a well-formed one.
  function CharLength(s: string): (n: nat)
    ensures n <= |s| && n <= 4
    ensures n > 0 ==> !IsContinuation(s[0]) && Tails(s, 1, n)
    ensures n > 0 && s[0] as int < 0x80 ==> n == 1
  {
    if s == "" then 0 else
    var b := s[0] as int;
    if b < 0x80 then 1
    else if 0xC2 <= b <= 0xDF then if Tails(s, 1, 2) then 2 else 0
    else if 0xE0 <= b <= 0xEF then
      if Tails(s, 1, 3) && (b == 0xE0 ==> s[1] as int >= 0xA0) && (b == 0xED ==> s[1] as int < 0xA0) then 3 else 0
    else if 0xF0 <= b <= 0xF4 then
      if Tails(s, 1, 4) && (b == 0xF0 ==> s[1] as int >= 0x90) && (b == 0xF4 ==> s[1] as int < 0x90) then 4 else 0
    else 0
  }

  predicate ValidUtf8(s: string)
    decreases |s|
  {
    s == "" || (CharLength(s) > 0 && ValidUtf8(s[CharLength(s)..]))
  }

  predicate CharBoundary(s: string, i: nat) {
    i == 0 || i == |s| || (i < |s| && !IsContinuation(s[i]))
  }

  // What the first character looks like does not depend on what follows it.
  lemma CharLengthIsLocal(s: string, t: string)
    requires CharLength(s) > 0 && CharLength(s) <= |t| <= |s| && t == s[..|t|]
    ensures CharLength(t) == CharLength(s)
  {
  }

  // Valid text can be cut at a character boundary, and nowhere else.
  lemma {:induction false} CutAtBoundary(s: string, i: nat)
    requires ValidUtf8(s) && i <= |s|
    ensures CharBoundary(s, i) <==> ValidUtf8(s[..i]) && ValidUtf8(s[i..])
    decreases |s|
  {
    if i == 0 {
      assert s[..0] == "" && s[0..] == s;
    } else if s != "" {
      var n := CharLength(s);
      if i < n {
        assert IsContinuation(s[i]);
        assert CharLength(s[i..]) == 0;
      } else {
        CutAtBoundary(s[n..], i - n);
        CharLengthIsLocal(s, s[..i]);
        assert s[n..][..i - n] == s[..i][n..] && s[n..][i - n..] == s[i..];
        if i == n {
          assert s[..i][n..] == "";
          if i < |s| {
            FirstByteIsNoContinuation(s[n..]);
          }
        }
      }
    }
  }

  lemma FirstByteIsNoContinuation(s: string)
    requires ValidUtf8(s) && s != ""
    ensures !IsContinuation(s[0])
  {
  }

  lemma {:induction false} ValidConcat(s: string, t: string)
    requires ValidUtf8(s) && ValidUtf8(t)
    ensures ValidUtf8(s + t)
    decreases |s|
  {
    if s == "" {
      assert s + t == t;
    } else {
      var n := CharLength(s);
      assert (s + t)[..|s|] == s;
      assert CharLength(s + t) == n;
      assert (s + t)[n..] == s[n..] + t;
      ValidConcat(s[n..], t);
    }
  }

  lemma {:induction false} AsciiIsValid(s: string)
    requires forall i :: 0 <= i < |s| ==> s[i] as int < 0x80
    ensures ValidUtf8(s)
    decreases |s|
  {
    if s != "" {
      AsciiIsValid(s[1..]);
    }
  }

  // Just after an ASCII byte is a boundary.
  lemma {:induction false} AfterAsciiIsBoundary(s: string, i: nat)
    requires ValidUtf8(s) && 0 < i <= |s| && s[i - 1] as int < 0x80
    ensures CharBoundary(s, i)
    decreases |s|
  {
    var n := CharLength(s);
    assert forall j :: 1 <= j < n ==> IsContinuation(s[j]);
    if i == n {
      if i < |s| {
        FirstByteIsNoContinuation(s[n..]);
      }
    } else if i > n {
      AfterAsciiIsBoundary(s[n..], i - n);
    }
  }

  // ---------------------------------------------------------------- numerals

  function Digit(d: nat): char
    requires d < 10
  {
    '0' + d as char
  }

  function Decimal(n: nat): (s: string)
    ensures s != "" && forall i :: 0 <= i < |s| ==> '0' <= s[i] <= '9'
  {
    if n < 10 then [Digit(n)] else Decimal(n / 10) + [Digit(n % 10)]
  }
}
