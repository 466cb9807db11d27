/** Cmd::delayed_stream: two readers and one switch share a flag and a line buffer under one mutex.

    A reader takes a line from its pipe outside the lock, then places it in one locked section: on the
    terminal if streaming has begun, in the buffer otherwise. The switch is one locked section too. */
module DelayedOutput {
  import opened Common

  type Line = string

  // A reader: what its pipe still holds, the line it has read but not placed, and what it has placed.
  datatype Reader = Reader(left: seq<Line>, held: Option<Line>, placed: seq<Line>) {
    function Whole(): seq<Line> {
      placed + (if held.Some? then [held.value] else []) + left
    }

    predicate Finished() {
      left == [] && held.None?
    }
  }

  // `terminal` is everything written to stderr so far.
  datatype State = State(streaming: bool, lines: seq<Line>, terminal: seq<Line>, out: Reader, err: Reader)

  datatype Step = ReadOut | ReadErr | PlaceOut | PlaceErr | Switch(message: Option<Line>)

  function Init(out: seq<Line>, err: seq<Line>): State {
    State(false, [], [], Reader(out, None, []), Reader(err, None, []))
  }

  function Announced(message: Option<Line>): seq<Line> {
    if message.Some? then [message.value] else []
  }

  predicate Enabled(s: State, step: Step) {
    match step
    case ReadOut => s.out.left != [] && s.out.held.None?
    case ReadErr => s.err.left != [] && s.err.held.None?
    case PlaceOut => s.out.held.Some?
    case PlaceErr => s.err.held.Some?
    case Switch(_) => !s.streaming
  }

  function Take(r: Reader): Reader
    requires r.left != [] && r.held.None?
  {
    Reader(r.left[1..], Some(r.left[0]), r.placed)
  }

  function Put(r: Reader): Reader
    requires r.held.Some?
  {
    Reader(r.left, None, r.placed + [r.held.value])
  }

  // The readers' locked section.
  function Relay(s: State, line: Line): State {
    if s.streaming then s.(terminal := s.terminal + [line]) else s.(lines := s.lines + [line])
  }

  // The switch's locked section.
  function Switched(s: State, message: Option<Line>): State {
    s.(streaming := true, lines := [], terminal := s.terminal + Announced(message) + s.lines)
  }

  function Apply(s: State, step: Step): State
    requires Enabled(s, step)
  {
    match step
    case ReadOut => s.(out := Take(s.out))
    case ReadErr => s.(err := Take(s.err))
    case PlaceOut => Relay(s, s.out.held.value).(out := Put(s.out))
    case PlaceErr => Relay(s, s.err.held.value).(err := Put(s.err))
    case Switch(message) => Switched(s, message)
  }

  predicate IsRun(s: State, run: seq<Step>)
    decreases |run|
  {
    run == [] || (Enabled(s, run[0]) && IsRun(Apply(s, run[0]), run[1..]))
  }

  function Exec(s: State, run: seq<Step>): State
    requires IsRun(s, run)
    decreases |run|
  {
    if run == [] then s else Exec(Apply(s, run[0]), run[1..])
  }

  // `m` interleaves `a` and `b`: it uses every element of both once, each in its own order.
  predicate IsMerge(a: seq<Line>, b: seq<Line>, m: seq<Line>)
    decreases |m|
  {
    if m == [] then a == [] && b == []
    else
      var last := m[|m| - 1];
      || (a != [] && a[|a| - 1] == last && IsMerge(a[..|a| - 1], b, m[..|m| - 1]))
      || (b != [] && b[|b| - 1] == last && IsMerge(a, b[..|b| - 1], m[..|m| - 1]))
  }

  lemma MergeGrows(a: seq<Line>, b: seq<Line>, m: seq<Line>, line: Line)
    requires IsMerge(a, b, m)
    ensures IsMerge(a + [line], b, m + [line]) && IsMerge(a, b + [line], m + [line])
  {
    assert (m + [line])[..|m|] == m;
    assert (a + [line])[..|a|] == a;
    assert (b + [line])[..|b|] == b;
  }

  lemma {:induction false} MergeLength(a: seq<Line>, b: seq<Line>, m: seq<Line>)
    requires IsMerge(a, b, m)
    ensures |m| == |a| + |b|
    ensures multiset(m) == multiset(a) + multiset(b)
    decreases |m|
  {
    if m != [] {
      var m0, last := m[..|m| - 1], m[|m| - 1];
      assert m == m0 + [last];
      if a != [] && a[|a| - 1] == last && IsMerge(a[..|a| - 1], b, m0) {
        assert a == a[..|a| - 1] + [last];
        MergeLength(a[..|a| - 1], b, m0);
      } else {
        assert b == b[..|b| - 1] + [last];
        MergeLength(a, b[..|b| - 1], m0);
      }
    }
  }

  // The elements of `m` at which `from` is `which`, in order.
  function Picked(m: seq<Line>, from: seq<bool>, which: bool): seq<Line>
    requires |from| == |m|
  {
    if m == [] then []
    else
      var n := |m| - 1;
      Picked(m[..n], from[..n], which) + (if from[n] == which then [m[n]] else [])
  }

  // A merge says of each of its elements which of the two it is from.
  lemma {:induction false} MergePicks(a: seq<Line>, b: seq<Line>, m: seq<Line>) returns (from: seq<bool>)
    requires IsMerge(a, b, m)
    ensures |from| == |m| && Picked(m, from, true) == a && Picked(m, from, false) == b
    decreases |m|
  {
    if m == [] {
      from := [];
    } else {
      var n := |m| - 1;
      if a != [] && a[|a| - 1] == m[n] && IsMerge(a[..|a| - 1], b, m[..n]) {
        from := MergePicks(a[..|a| - 1], b, m[..n]);
        from := from + [true];
        assert a[..|a| - 1] + [m[n]] == a;
      } else {
        from := MergePicks(a, b[..|b| - 1], m[..n]);
        from := from + [false];
        assert b[..|b| - 1] + [m[n]] == b;
      }
      assert from[..n] == from[..|from| - 1];
    }
  }

  lemma PickedLast(m: seq<Line>, from: seq<bool>, which: bool)
    requires |from| == |m| > 0
    ensures Picked(m, from, which) ==
      if from[|m| - 1] == which then Picked(m[..|m| - 1], from[..|m| - 1], which) + [m[|m| - 1]]
      else Picked(m[..|m| - 1], from[..|m| - 1], which)
  {
  }

  lemma {:induction false} PicksMerge(m: seq<Line>, from: seq<bool>)
    requires |from| == |m|
    ensures IsMerge(Picked(m, from, true), Picked(m, from, false), m)
    decreases |m|
  {
    if m != [] {
      var n := |m| - 1;
      PicksMerge(m[..n], from[..n]);
      PickedLast(m, from, true);
      PickedLast(m, from, false);
      GrownByLast(Picked(m[..n], from[..n], true), Picked(m[..n], from[..n], false), m);
    }
  }

  lemma GrownByLast(a: seq<Line>, b: seq<Line>, m: seq<Line>)
    requires m != [] && IsMerge(a, b, m[..|m| - 1])
    ensures IsMerge(a + [m[|m| - 1]], b, m) && IsMerge(a, b + [m[|m| - 1]], m)
  {
    MergeGrows(a, b, m[..|m| - 1], m[|m| - 1]);
    assert m[..|m| - 1] + [m[|m| - 1]] == m;
  }

  ghost predicate Transcript(s: State, message: Option<Line>) {
    if s.streaming then
      && s.lines == [] && Announced(message) <= s.terminal
      && IsMerge(s.out.placed, s.err.placed, s.terminal[|Announced(message)|..])
    else
      s.terminal == [] && IsMerge(s.out.placed, s.err.placed, s.lines)
  }

  lemma RelayKeepsTranscript(s: State, step: Step, message: Option<Line>)
    requires Transcript(s, message) && Enabled(s, step) && (step.PlaceOut? || step.PlaceErr?)
    ensures Transcript(Apply(s, step), message)
  {
    var line := if step.PlaceOut? then s.out.held.value else s.err.held.value;
    var n := |Announced(message)|;
    if s.streaming {
      MergeGrows(s.out.placed, s.err.placed, s.terminal[n..], line);
      assert (s.terminal + [line])[n..] == s.terminal[n..] + [line];
    } else {
      MergeGrows(s.out.placed, s.err.placed, s.lines, line);
    }
  }

  lemma SwitchKeepsTranscript(s: State, message: Option<Line>)
    requires Transcript(s, message) && !s.streaming
    ensures Transcript(Switched(s, message), message)
  {
    assert s.terminal + Announced(message) + s.lines == Announced(message) + s.lines;
    assert (Announced(message) + s.lines)[|Announced(message)|..] == s.lines;
  }

  // At most one switch ever happens, and it says `message`.
  predicate Says(run: seq<Step>, message: Option<Line>) {
    forall i :: 0 <= i < |run| && run[i].Switch? ==> run[i].message == message
  }

  lemma ReaderKeepsWhole(r: Reader)
    ensures r.left != [] && r.held.None? ==> Take(r).Whole() == r.Whole()
    ensures r.held.Some? ==> Put(r).Whole() == r.Whole()
  {
  }

  lemma StepKeepsStreams(s: State, step: Step)
    requires Enabled(s, step)
    ensures Apply(s, step).out.Whole() == s.out.Whole() && Apply(s, step).err.Whole() == s.err.Whole()
  {
    ReaderKeepsWhole(s.out);
    ReaderKeepsWhole(s.err);
  }

  lemma StepKeepsTranscript(s: State, step: Step, message: Option<Line>)
    requires Transcript(s, message) && Enabled(s, step) && (step.Switch? ==> step.message == message)
    ensures Transcript(Apply(s, step), message)
    ensures Apply(s, step).out.Whole() == s.out.Whole() && Apply(s, step).err.Whole() == s.err.Whole()
  {
    StepKeepsStreams(s, step);
    if step.Switch? {
      SwitchKeepsTranscript(s, message);
    } else if step.PlaceOut? || step.PlaceErr? {
      RelayKeepsTranscript(s, step, message);
    }
  }

  lemma {:induction false} RunKeepsTranscript(s: State, run: seq<Step>, message: Option<Line>)
    requires Transcript(s, message) && IsRun(s, run) && Says(run, message)
    ensures Transcript(Exec(s, run), message)
    ensures Exec(s, run).out.Whole() == s.out.Whole() && Exec(s, run).err.Whole() == s.err.Whole()
    decreases |run|
  {
    if run != [] {
      StepKeepsTranscript(s, run[0], message);
      assert forall i :: 0 <= i < |run[1..]| ==> run[1..][i] == run[i + 1];
      RunKeepsTranscript(Apply(s, run[0]), run[1..], message);
    }
  }

  // In every interleaving: before the switch the terminal is untouched and the buffer interleaves the two
  // streams so far; after it the terminal is the message followed by such an interleaving, the buffer is
  // empty. A line is placed, held by its reader, or still in its pipe: never lost, never repeated.
  lemma TranscriptIsAMerge(out: seq<Line>, err: seq<Line>, run: seq<Step>, message: Option<Line>)
    requires IsRun(Init(out, err), run) && Says(run, message)
    ensures var s := Exec(Init(out, err), run);
      && (!s.streaming ==> s.terminal == [] && IsMerge(s.out.placed, s.err.placed, s.lines))
      && (s.streaming ==>
            && s.lines == []
            && if message.Some? then
                 && s.terminal != [] && s.terminal[0] == message.value
                 && IsMerge(s.out.placed, s.err.placed, s.terminal[1..])
               else IsMerge(s.out.placed, s.err.placed, s.terminal))
      && s.out.Whole() == out && s.err.Whole() == err
  {
    RunKeepsTranscript(Init(out, err), run, message);
    var s := Exec(Init(out, err), run);
    if s.streaming {
      MessageFirst(message, s.terminal);
    }
  }

  lemma MessageFirst(message: Option<Line>, terminal: seq<Line>)
    requires Announced(message) <= terminal
    ensures if message.Some? then
        terminal != [] && terminal[0] == message.value && terminal[|Announced(message)|..] == terminal[1..]
      else terminal[|Announced(message)|..] == terminal
  {
    assert terminal[..|Announced(message)|] == Announced(message);
  }

  // Once both readers are done, a failing command's output is in exactly one place, whole: in the error
  // if streaming never began, on the terminal behind the message if it did.
  lemma FailureOutputIsReportedOnce(out: seq<Line>, err: seq<Line>, run: seq<Step>, message: Option<Line>)
    requires IsRun(Init(out, err), run) && Says(run, message)
    requires Exec(Init(out, err), run).out.Finished() && Exec(Init(out, err), run).err.Finished()
    ensures var s := Exec(Init(out, err), run);
      if s.streaming then
        && s.lines == []
        && if message.Some? then
             s.terminal != [] && s.terminal[0] == message.value && IsMerge(out, err, s.terminal[1..])
           else IsMerge(out, err, s.terminal)
      else
        s.terminal == [] && IsMerge(out, err, s.lines)
  {
    TranscriptIsAMerge(out, err, run, message);
    var s := Exec(Init(out, err), run);
    assert s.out.placed == s.out.Whole() && s.err.placed == s.err.Whole();
  }

  // The type that the mutex guards, with stderr, and its two locked sections. The ghost fields record which
  // lines each reader has handed over, and what the switch said.
  class Shared {
    var streaming: bool
    var lines: seq<Line>
    var terminal: seq<Line>
    ghost var placedOut: seq<Line>
    ghost var placedErr: seq<Line>
    ghost var announced: Option<Line>

    ghost function Now(): State
      reads this
    {
      State(streaming, lines, terminal, Reader([], None, placedOut), Reader([], None, placedErr))
    }

    // Every line handed over so far is in exactly one place, and each reader's lines are in order there.
    ghost predicate Valid()
      reads this
    {
      Transcript(Now(), announced)
    }

    constructor ()
      ensures Valid() && !streaming && placedOut == [] && placedErr == []
    {
      streaming, lines, terminal := false, [], [];
      placedOut, placedErr, announced := [], [], None;
    }

    method RelayLine(line: Line, fromOut: bool)
      requires Valid()
      modifies this
      ensures Valid() && streaming == old(streaming) && announced == old(announced)
      ensures placedOut == old(placedOut) + (if fromOut then [line] else [])
      ensures placedErr == old(placedErr) + (if fromOut then [] else [line])
      // A relayed line is on the terminal at once if streaming has begun, behind all that was there.
      ensures streaming ==> terminal == old(terminal) + [line]
    {
      ghost var was := Now();
      ghost var reader := if fromOut then was.out.(held := Some(line)) else was.err.(held := Some(line));
      ghost var held := if fromOut then was.(out := reader) else was.(err := reader);
      RelayKeepsTranscript(held, if fromOut then PlaceOut else PlaceErr, announced);
      if streaming {
        terminal := terminal + [line];
      } else {
        lines := lines + [line];
      }
      if fromOut {
        placedOut := placedOut + [line];
      } else {
        placedErr := placedErr + [line];
      }
    }

    method DrainBuffer()
      modifies `lines, `terminal
      ensures lines == [] && terminal == old(terminal) + old(lines)
    {
      var i := 0;
      while i < |lines|
        invariant 0 <= i <= |lines| && lines == old(lines)
        invariant terminal == old(terminal) + lines[..i]
      {
        terminal := terminal + [lines[i]];
        i := i + 1;
      }
      assert lines[..|lines|] == lines;
      lines := [];
    }

    method SwitchToStreaming(message: Option<Line>)
      requires Valid() && !streaming
      modifies this
      ensures Valid() && streaming && announced == message
      ensures placedOut == old(placedOut) && placedErr == old(placedErr)
      ensures message.Some? ==> terminal == [message.value] + old(lines)
      ensures message.None? ==> terminal == old(lines)
    {
      ghost var was := Now();
      SwitchKeepsTranscript(was, message);
      streaming, announced := true, message;
      if message.Some? {
        terminal := terminal + [message.value];
      }
      DrainBuffer();
      assert Now() == Switched(was, message);
    }
  }
}
