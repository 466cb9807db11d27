/** The in-place status block of the watchdog, and the progress line, on a terminal that scrolls.

    `rows` is everything from the first row of the scrollback to the last row of the screen; the screen is
    its last `height` rows. A written line fits one row. */
module TerminalBlock {
  import opened Common

  datatype Screen = Screen(height: nat, rows: seq<string>, row: nat, col: nat) {
    function Top(): int {
      |rows| - height
    }

    predicate Valid() {
      0 < height <= |rows| && Top() <= row < |rows|
    }
  }

  // ---------------------------------------------------------------- what the terminal does

  function MoveToColumn0(s: Screen): Screen {
    s.(col := 0)
  }

  // The cursor stops at the top of the screen.
  function MoveUp(s: Screen, n: nat): (r: Screen)
    requires s.Valid()
    ensures r.Valid()
  {
    if s.row - n >= s.Top() then s.(row := s.row - n) else s.(row := s.Top())
  }

  function Blank(n: nat): (r: seq<string>)
    ensures |r| == n && forall i :: 0 <= i < n ==> r[i] == ""
  {
    if n == 0 then [] else [""] + Blank(n - 1)
  }

  function Kept(s: Screen): string
    requires s.Valid()
  {
    var line := s.rows[s.row];
    if s.col < |line| then line[..s.col] else line
  }

  function ClearFromCursorDown(s: Screen): (r: Screen)
    requires s.Valid()
    ensures r.Valid() && |r.rows| == |s.rows|
  {
    s.(rows := s.rows[..s.row] + [Kept(s)] + Blank(|s.rows| - s.row - 1))
  }

  function ClearCurrentLine(s: Screen): (r: Screen)
    requires s.Valid()
    ensures r.Valid()
  {
    s.(rows := s.rows[s.row := ""])
  }

  function Put(s: Screen, text: string): (r: Screen)
    requires s.Valid()
    ensures r.Valid()
  {
    s.(rows := s.rows[s.row := Kept(s) + text], col := s.col + |text|)
  }

  // On the last row the screen scrolls.
  function NewLine(s: Screen): (r: Screen)
    requires s.Valid()
    ensures r.Valid()
  {
    Screen(s.height, if s.row + 1 < |s.rows| then s.rows else s.rows + [""], s.row + 1, 0)
  }

  // `lines.join("\n")`.
  function PutLines(s: Screen, lines: seq<string>): (r: Screen)
    requires s.Valid()
    ensures r.Valid() && r.height == s.height
    decreases |lines|
  {
    if lines == [] then s
    else if |lines| == 1 then Put(s, lines[0])
    else PutLines(NewLine(Put(s, lines[0])), lines[1..])
  }

  // ---------------------------------------------------------------- what the watchdog does

  // `rows as u16 - 1`.
  function RowsUp(rows: nat): nat {
    (rows % 0x1_0000 + 0xFFFF) % 0x1_0000
  }

  function ToFirstRow(s: Screen, rows: nat): (r: Screen)
    requires s.Valid()
    ensures r.Valid()
  {
    if rows > 1 then MoveUp(MoveToColumn0(s), RowsUp(rows)) else MoveToColumn0(s)
  }

  function Rendered(s: Screen, lines: seq<string>, prevRows: nat): (r: Screen)
    requires s.Valid()
    ensures r.Valid() && r.height == s.height
  {
    PutLines(ClearFromCursorDown(ToFirstRow(s, prevRows)), lines)
  }

  function Cleared(s: Screen, rows: nat): (r: Screen)
    requires s.Valid()
    ensures r.Valid() && r.height == s.height
  {
    ClearFromCursorDown(ToFirstRow(s, rows))
  }

  // A frame is drawn over the last, unless it is the same.
  function Drawn(s: Screen, last: seq<string>, frame: seq<string>): (r: Screen)
    requires s.Valid()
    ensures r.Valid() && r.height == s.height
  {
    if frame == last then s else Rendered(s, frame, |last|)
  }

  function Redrawn(s: Screen, last: seq<string>, frames: seq<seq<string>>): (r: Screen)
    requires s.Valid()
    ensures r.Valid() && r.height == s.height
    decreases |frames|
  {
    if frames == [] then s else Redrawn(Drawn(s, last, frames[0]), frames[0], frames[1..])
  }

  // The frame on screen at the end, and the rows recorded for the drop.
  function LastFrame(last: seq<string>, frames: seq<seq<string>>): seq<string> {
    if frames == [] then last else frames[|frames| - 1]
  }

  lemma LastOfTail(last: seq<string>, frames: seq<seq<string>>)
    requires frames != []
    ensures LastFrame(frames[0], frames[1..]) == LastFrame(last, frames)
  {
  }

  // What is left once the watchdog is dropped.
  function Watched(s: Screen, frames: seq<seq<string>>): Screen
    requires s.Valid()
  {
    var rows := |LastFrame([], frames)|;
    if rows > 0 then Cleared(Redrawn(s, [], frames), rows) else Redrawn(s, [], frames)
  }

  class Terminal {
    var screen: Screen

    constructor (screen: Screen)
      ensures this.screen == screen
    {
      this.screen := screen;
    }

    method RenderBlock(lines: seq<string>, prevRows: nat) returns (rows: nat)
      requires screen.Valid()
      modifies this
      ensures screen == Rendered(old(screen), lines, prevRows) && rows == |lines|
    {
      screen := MoveToColumn0(screen);
      if prevRows > 1 {
        screen := MoveUp(screen, RowsUp(prevRows));
      }
      screen := ClearFromCursorDown(screen);
      screen := PutLines(screen, lines);
      rows := |lines|;
    }

    method ClearBlock(rows: nat)
      requires screen.Valid()
      modifies this
      ensures screen == Cleared(old(screen), rows)
    {
      screen := MoveToColumn0(screen);
      if rows > 1 {
        screen := MoveUp(screen, RowsUp(rows));
      }
      screen := ClearFromCursorDown(screen);
    }

    // The loop of the ticker thread and the drop that ends it. `frames` is the block built at each tick.
    method Watch(frames: seq<seq<string>>)
      requires screen.Valid()
      modifies this
      ensures screen == Watched(old(screen), frames)
    {
      var prevRows, lastBlock: seq<string> := 0, [];
      var i := 0;
      while i < |frames|
        invariant i <= |frames| && screen.Valid() && prevRows == |lastBlock|
        invariant LastFrame(lastBlock, frames[i..]) == LastFrame([], frames)
        invariant Redrawn(old(screen), [], frames) == Redrawn(screen, lastBlock, frames[i..])
      {
        var block := frames[i];
        NextFrame(screen, lastBlock, frames, i);
        if block != lastBlock {
          prevRows := RenderBlock(block, prevRows);
          lastBlock := block;
        }
        i := i + 1;
      }
      if prevRows > 0 {
        ClearBlock(prevRows);
      }
    }
  }

  lemma NextFrame(s: Screen, last: seq<string>, frames: seq<seq<string>>, i: nat)
    requires s.Valid() && i < |frames|
    ensures Redrawn(s, last, frames[i..]) == Redrawn(Drawn(s, last, frames[i]), frames[i], frames[i + 1..])
    ensures LastFrame(last, frames[i..]) == LastFrame(frames[i], frames[i + 1..])
  {
    assert frames[i..][1..] == frames[i + 1..];
    LastOfTail(last, frames[i..]);
  }

  // ---------------------------------------------------------------- the block stays in place

  // `block` is drawn at row `base`, with the cursor on its last row, `above` untouched, blank below.
  ghost predicate Shows(s: Screen, above: seq<string>, block: seq<string>) {
    && s.Valid()
    && s.Top() <= |above| && |above| + |block| <= |s.rows|
    && s.rows[..|above|] == above
    && s.row == |above| + (if block == [] then 0 else |block| - 1)
    && (block != [] ==>
          && s.rows[|above|..|above| + |block|] == block
          && forall i :: |above| + |block| <= i < |s.rows| ==> s.rows[i] == "")
  }

  lemma FirstLine(s: Screen, line: string)
    requires s.Valid() && s.col == 0
    requires forall i :: s.row <= i < |s.rows| ==> s.rows[i] == ""
    ensures var r := Put(s, line); r.row == s.row && r.rows == s.rows[s.row := line]
    ensures var t := NewLine(Put(s, line));
      && t.row == s.row + 1 && t.col == 0
      && |t.rows| == (if s.row + 1 < |s.rows| then |s.rows| else |s.rows| + 1)
      && t.rows[..t.row] == s.rows[..s.row] + [line]
      && forall i :: t.row <= i < |t.rows| ==> t.rows[i] == ""
  {
    assert Kept(s) + line == line;
  }

  // Writing a block on a blank row keeps what is above and leaves the cursor on its last row.
  lemma {:induction false} PutLinesShows(s: Screen, lines: seq<string>)
    requires s.Valid() && lines != [] && s.col == 0
    requires forall i :: s.row <= i < |s.rows| ==> s.rows[i] == ""
    ensures var r := PutLines(s, lines);
      && r.row == s.row + |lines| - 1
      && |r.rows| == (if s.row + |lines| > |s.rows| then s.row + |lines| else |s.rows|)
      && r.rows[..s.row + |lines|] == s.rows[..s.row] + lines
      && forall i :: s.row + |lines| <= i < |r.rows| ==> r.rows[i] == ""
    decreases |lines|
  {
    FirstLine(s, lines[0]);
    if |lines| == 1 {
      assert s.rows[s.row := lines[0]][..s.row + 1] == s.rows[..s.row] + lines;
    } else {
      PutLinesShows(NewLine(Put(s, lines[0])), lines[1..]);
      AppendHead(s.rows[..s.row], lines);
    }
  }

  // The same, row by row.
  lemma PutLinesRows(s: Screen, lines: seq<string>)
    requires s.Valid() && lines != [] && s.col == 0
    requires forall i :: s.row <= i < |s.rows| ==> s.rows[i] == ""
    ensures var r := PutLines(s, lines);
      |r.rows| >= s.row + |lines| && r.rows[..s.row] == s.rows[..s.row] && r.rows[s.row..s.row + |lines|] == lines
  {
    PutLinesShows(s, lines);
    var r := PutLines(s, lines);
    assert r.rows[..s.row] == r.rows[..s.row + |lines|][..s.row];
    assert r.rows[s.row..s.row + |lines|] == r.rows[..s.row + |lines|][s.row..];
  }

  lemma BackToFirstRow(s: Screen, above: seq<string>, block: seq<string>)
    requires Shows(s, above, block) && |block| <= s.height <= 0xFFFF
    ensures var r := ToFirstRow(s, |block|); r.row == |above| && r.col == 0 && r.rows == s.rows && r.height == s.height
  {
  }

  lemma BlankFromFirstRow(s: Screen, above: seq<string>, block: seq<string>)
    requires Shows(s, above, block) && |block| <= s.height <= 0xFFFF
    ensures var t := ClearFromCursorDown(ToFirstRow(s, |block|));
      && t.Valid() && t.row == |above| && t.col == 0 && t.height == s.height && t.Top() <= |above| < |t.rows|
      && t.rows[..|above|] == above && forall i :: |above| <= i < |t.rows| ==> t.rows[i] == ""
  {
    BackToFirstRow(s, above, block);
  }

  lemma RenderKeepsPlace(s: Screen, above: seq<string>, block: seq<string>, lines: seq<string>)
    requires Shows(s, above, block) && |block| <= s.height <= 0xFFFF
    requires 1 <= |lines| <= s.height
    ensures Shows(Rendered(s, lines, |block|), above, lines)
  {
    var t := ClearFromCursorDown(ToFirstRow(s, |block|));
    BlankFromFirstRow(s, above, block);
    PutLinesShows(t, lines);
    PutLinesRows(t, lines);
  }

  predicate Fits(s: Screen, frames: seq<seq<string>>) {
    forall i :: 0 <= i < |frames| ==> 1 <= |frames[i]| <= s.height
  }

  lemma DrawnKeepsPlace(s: Screen, above: seq<string>, block: seq<string>, frame: seq<string>)
    requires Shows(s, above, block) && |block| <= s.height <= 0xFFFF && 1 <= |frame| <= s.height
    ensures Shows(Drawn(s, block, frame), above, frame)
  {
    if frame != block {
      RenderKeepsPlace(s, above, block, frame);
    }
  }

  lemma FitsFirst(s: Screen, frames: seq<seq<string>>)
    requires Fits(s, frames) && frames != []
    ensures 1 <= |frames[0]| <= s.height && Fits(s, frames[1..])
  {
    assert forall i :: 0 <= i < |frames[1..]| ==> frames[1..][i] == frames[i + 1];
  }

  lemma {:induction false} RedrawKeepsPlace(s: Screen, above: seq<string>, block: seq<string>, frames: seq<seq<string>>)
    requires Shows(s, above, block) && |block| <= s.height <= 0xFFFF && Fits(s, frames)
    ensures Shows(Redrawn(s, block, frames), above, LastFrame(block, frames))
    decreases |frames|
  {
    if frames != [] {
      FitsFirst(s, frames);
      DrawnKeepsPlace(s, above, block, frames[0]);
      LastOfTail(block, frames);
      RedrawKeepsPlace(Drawn(s, block, frames[0]), above, frames[0], frames[1..]);
    }
  }

  // Starting on a row of its own: after any redraws, of any heights the screen can hold, and the drop, the
  // rows above are as they were, the block's rows and all below are blank, and the cursor is back where it
  // started. Without a frame nothing is written.
  lemma WatchLeavesNothingBehind(s: Screen, frames: seq<seq<string>>)
    requires s.Valid() && s.height <= 0xFFFF && s.col == 0 && s.rows[s.row] == "" && Fits(s, frames)
    ensures frames == [] ==> Watched(s, frames) == s
    ensures frames != [] ==>
      var r := Watched(s, frames);
      && r.row == s.row && r.col == 0 && r.row < |r.rows|
      && r.rows[..s.row] == s.rows[..s.row]
      && forall i :: s.row <= i < |r.rows| ==> r.rows[i] == ""
  {
    if frames != [] {
      var above, last := s.rows[..s.row], LastFrame([], frames);
      RedrawKeepsPlace(s, above, [], frames);
      var t := Redrawn(s, [], frames);
      BackToFirstRow(t, above, last);
    }
  }

  // ---------------------------------------------------------------- a block taller than the screen

  // Rows that have scrolled off the screen are out of reach of every operation.
  ghost predicate ScrolledOff(s: Screen, i: nat, line: string) {
    s.Valid() && i < s.Top() && s.rows[i] == line
  }

  lemma {:induction false} PutLinesKeepsScrolledOff(s: Screen, lines: seq<string>, i: nat, line: string)
    requires ScrolledOff(s, i, line)
    ensures ScrolledOff(PutLines(s, lines), i, line)
    decreases |lines|
  {
    if |lines| > 1 {
      PutLinesKeepsScrolledOff(NewLine(Put(s, lines[0])), lines[1..], i, line);
    }
  }

  lemma {:induction false} RedrawKeepsScrolledOff(s: Screen, last: seq<string>, frames: seq<seq<string>>,
      i: nat, line: string)
    requires ScrolledOff(s, i, line)
    ensures ScrolledOff(Redrawn(s, last, frames), i, line)
    decreases |frames|
  {
    if frames != [] {
      if frames[0] != last {
        PutLinesKeepsScrolledOff(ClearFromCursorDown(ToFirstRow(s, |last|)), frames[0], i, line);
      }
      RedrawKeepsScrolledOff(Drawn(s, last, frames[0]), frames[0], frames[1..], i, line);
    }
  }

  lemma TallFrameScrolls(s: Screen, above: seq<string>, block: seq<string>, lines: seq<string>)
    requires Shows(s, above, block) && |block| <= s.height <= 0xFFFF && |lines| > s.height
    ensures ScrolledOff(Rendered(s, lines, |block|), |above|, lines[0])
  {
    BackToFirstRow(s, above, block);
    var t := ClearFromCursorDown(ToFirstRow(s, |block|));
    PutLinesShows(t, lines);
    PutLinesRows(t, lines);
    var r := Rendered(s, lines, |block|);
    assert r.rows[|above|] == r.rows[t.row..t.row + |lines|][0];
  }

  lemma {:induction false} TallFrameStays(s: Screen, above: seq<string>, block: seq<string>,
      frames: seq<seq<string>>, k: nat)
    requires Shows(s, above, block) && |block| <= s.height <= 0xFFFF
    requires k < |frames| && |frames[k]| > s.height && Fits(s, frames[..k])
    ensures ScrolledOff(Redrawn(s, block, frames), |above|, frames[k][0])
    decreases |frames|
  {
    if k > 0 {
      assert frames[0] == frames[..k][0] && frames[1..][..k - 1] == frames[..k][1..];
      FitsFirst(s, frames[..k]);
      DrawnKeepsPlace(s, above, block, frames[0]);
      TallFrameStays(Drawn(s, block, frames[0]), above, frames[0], frames[1..], k - 1);
    } else {
      TallFrameScrolls(s, above, block, frames[0]);
      RedrawKeepsScrolledOff(Drawn(s, block, frames[0]), frames[0], frames[1..], |above|, frames[0][0]);
    }
  }

  // So the row the block started on ends blank exactly when every frame fits the screen. (A frame's first
  // line is its status, which is never empty.)
  lemma BlankExactlyWhenEveryFrameFits(s: Screen, frames: seq<seq<string>>)
    requires s.Valid() && s.height <= 0xFFFF && s.col == 0 && s.rows[s.row] == ""
    requires forall i :: 0 <= i < |frames| ==> frames[i] != [] && frames[i][0] != ""
    ensures s.row < |Watched(s, frames).rows|
    ensures Watched(s, frames).rows[s.row] == "" <==> Fits(s, frames)
  {
    if Fits(s, frames) {
      WatchLeavesNothingBehind(s, frames);
    } else {
      var k := FirstTall(s, frames);
      TallFrameStays(s, s.rows[..s.row], [], frames, k);
    }
  }

  lemma {:induction false} FirstTall(s: Screen, frames: seq<seq<string>>) returns (k: nat)
    requires (forall i :: 0 <= i < |frames| ==> frames[i] != []) && !Fits(s, frames)
    ensures k < |frames| && |frames[k]| > s.height && Fits(s, frames[..k])
  {
    k := 0;
    while |frames[k]| <= s.height
      invariant k < |frames| && forall i :: 0 <= i < k ==> 1 <= |frames[i]| <= s.height
      decreases |frames| - k
    {
      assert exists j :: k < j < |frames| && |frames[j]| > s.height;
      k := k + 1;
    }
  }

  // ---------------------------------------------------------------- the progress line

  function LineDrawn(s: Screen, line: string): (r: Screen)
    requires s.Valid()
    ensures r.Valid()
  {
    Put(ClearCurrentLine(MoveToColumn0(s)), line)
  }

  // The ticks, of which a failing draw writes nothing, and the drop, which clears if some draw succeeded.
  function Ticked(s: Screen, ticks: seq<(string, bool)>): (r: Screen)
    requires s.Valid()
    ensures r.Valid()
    decreases |ticks|
  {
    if ticks == [] then s else Ticked(if ticks[0].1 then LineDrawn(s, ticks[0].0) else s, ticks[1..])
  }

  function Dropped(s: Screen, ticks: seq<(string, bool)>): Screen
    requires s.Valid()
  {
    if exists i :: 0 <= i < |ticks| && ticks[i].1 then ClearCurrentLine(MoveToColumn0(Ticked(s, ticks)))
    else Ticked(s, ticks)
  }

  lemma {:induction false} TicksStayOnTheRow(s: Screen, ticks: seq<(string, bool)>)
    requires s.Valid()
    ensures var r := Ticked(s, ticks);
      && r.row == s.row && |r.rows| == |s.rows|
      && (forall i :: 0 <= i < |s.rows| && i != s.row ==> r.rows[i] == s.rows[i])
      && ((forall i :: 0 <= i < |ticks| ==> !ticks[i].1) ==> r == s)
    decreases |ticks|
  {
    if ticks != [] {
      TicksStayOnTheRow(if ticks[0].1 then LineDrawn(s, ticks[0].0) else s, ticks[1..]);
      assert forall i :: 0 <= i < |ticks[1..]| ==> ticks[1..][i] == ticks[i + 1];
    }
  }

  // A spinner that never drew leaves the terminal alone; one that did leaves its row blank and no other
  // row changed.
  lemma SpinnerLeavesNothingBehind(s: Screen, ticks: seq<(string, bool)>)
    requires s.Valid()
    ensures (forall i :: 0 <= i < |ticks| ==> !ticks[i].1) ==> Dropped(s, ticks) == s
    ensures (exists i :: 0 <= i < |ticks| && ticks[i].1) ==>
      Dropped(s, ticks).rows == s.rows[s.row := ""] && Dropped(s, ticks).row == s.row && Dropped(s, ticks).col == 0
  {
    TicksStayOnTheRow(s, ticks);
  }
}

/** Thousands separators. */
module FormatCount {
  // Three digits at a time, from the right.
  function Grouped(digits: string): string {
    if |digits| <= 3 then digits
    else Grouped(digits[..|digits| - 3]) + "," + digits[|digits| - 3..]
  }

  method FormatCount(digits: string) returns (out: string)
    ensures out == Grouped(digits)
  {
    out := "";
    var i := 0;
    while i < |digits|
      invariant i <= |digits| && out == Partly(digits, i)
    {
      PartlyStep(digits, i);
      if i > 0 && (|digits| - i) % 3 == 0 {
        out := out + ",";
      }
      out := out + [digits[i]];
      i := i + 1;
    }
    PartlyAll(digits);
  }

  // The first `i` digits with a separator wherever a multiple of three remains.
  function Partly(digits: string, i: nat): string
    requires i <= |digits|
  {
    if i == 0 then ""
    else
      Partly(digits, i - 1)
        + (if i > 1 && (|digits| - (i - 1)) % 3 == 0 then "," else "") + [digits[i - 1]]
  }

  lemma PartlyStep(digits: string, i: nat)
    requires i < |digits|
    ensures Partly(digits, i + 1) ==
      Partly(digits, i) + (if i > 0 && (|digits| - i) % 3 == 0 then "," else "") + [digits[i]]
  {
  }

  // Dropping the last group of digits only shifts the count of what remains by three.
  lemma {:induction false} PartlyPrefix(digits: string, i: nat)
    requires |digits| > 3 && i <= |digits| - 3
    ensures Partly(digits, i) == Partly(digits[..|digits| - 3], i)
    decreases i
  {
    if i > 0 {
      PartlyPrefix(digits, i - 1);
    }
  }

  lemma PartlyPlain(digits: string, i: nat)
    requires i < |digits| && (i == 0 || (|digits| - i) % 3 != 0)
    ensures Partly(digits, i + 1) == Partly(digits, i) + [digits[i]]
  {
    assert Partly(digits, i) + "" == Partly(digits, i);
  }

  lemma PartlyComma(digits: string, i: nat)
    requires 0 < i < |digits| && (|digits| - i) % 3 == 0
    ensures Partly(digits, i + 1) == Partly(digits, i) + "," + [digits[i]]
  {
  }

  lemma PartlyGroup(digits: string)
    requires |digits| > 3
    ensures var n := |digits|; Partly(digits, n) == Partly(digits, n - 3) + "," + digits[n - 3..]
  {
    var n := |digits|;
    PartlyComma(digits, n - 3);
    PartlyPlain(digits, n - 2);
    PartlyPlain(digits, n - 1);
    LastGroup(Partly(digits, n - 3) + ",", digits);
  }

  lemma LastGroup(front: string, digits: string)
    requires |digits| > 3
    ensures var n := |digits|;
      front + [digits[n - 3]] + [digits[n - 2]] + [digits[n - 1]] == front + digits[n - 3..]
  {
  }

  lemma {:induction false} PartlyShort(digits: string, i: nat)
    requires i <= |digits| <= 3
    ensures Partly(digits, i) == digits[..i]
    decreases i
  {
    if i > 0 {
      PartlyShort(digits, i - 1);
      PartlyPlain(digits, i - 1);
      assert digits[..i] == digits[..i - 1] + [digits[i - 1]];
    }
  }

  lemma PartlyOfShort(digits: string)
    requires |digits| <= 3
    ensures Partly(digits, |digits|) == digits
  {
    PartlyShort(digits, |digits|);
    assert digits[..|digits|] == digits;
  }

  lemma PartlyOfFront(digits: string)
    requires |digits| > 3
    ensures var front := digits[..|digits| - 3]; Partly(digits, |digits| - 3) == Partly(front, |front|)
  {
    PartlyPrefix(digits, |digits| - 3);
  }

  lemma {:induction false} PartlyAll(digits: string)
    ensures Partly(digits, |digits|) == Grouped(digits)
    decreases |digits|
  {
    if |digits| <= 3 {
      PartlyOfShort(digits);
    } else {
      PartlyAll(digits[..|digits| - 3]);
      PartlyOfFront(digits);
      PartlyGroup(digits);
    }
  }

  lemma {:induction false} GroupedLength(digits: string)
    requires digits != ""
    ensures |Grouped(digits)| == |digits| + (|digits| - 1) / 3
    decreases |digits|
  {
    if |digits| > 3 {
      GroupedLength(digits[..|digits| - 3]);
    }
  }

  // Counted from the right, every fourth character is a comma and the others are the digits in order; there is no
  // comma in front.
  lemma {:induction false} GroupedFromTheRight(digits: string, k: nat)
    requires digits != "" && k < |digits| + (|digits| - 1) / 3
    ensures |Grouped(digits)| == |digits| + (|digits| - 1) / 3
    ensures Grouped(digits)[|Grouped(digits)| - 1 - k] ==
      if k % 4 == 3 then ',' else digits[|digits| - 1 - (k - k / 4)]
    decreases |digits|
  {
    GroupedLength(digits);
    if |digits| > 3 {
      var front := digits[..|digits| - 3];
      GroupedLength(front);
      FrontOfGroup(Grouped(front), digits[|digits| - 3..], k);
      if k >= 4 {
        GroupedFromTheRight(front, k - 4);
        FourBack(k);
      }
    }
  }

  lemma FourBack(k: nat)
    requires k >= 4
    ensures (k - 4) % 4 == k % 4 && (k - 4) / 4 == k / 4 - 1
  {
  }

  lemma FrontOfGroup(front: string, last: string, k: nat)
    requires |last| == 3 && k < |front| + 4
    ensures var all := front + "," + last;
      && |all| == |front| + 4
      && all[|all| - 1 - k] == if k < 3 then last[2 - k] else if k == 3 then ',' else front[|front| - 1 - (k - 4)]
  {
  }
}
