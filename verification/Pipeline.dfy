/** Cmd::pipe_into: a source piped into a sink, with bounded pipes, the calling thread and one thread
    that drains the source's stderr.

    A process is the list of what it does, in any order: write a byte to stdout or stderr, or (the sink)
    take a byte of input. A sink that has done its list reads on to end of input. The source's own input
    is a file or a pipe filled before the spawn, so reading it never blocks and is not a step. */
module Pipeline {
  import opened Common

  type Byte = nat

  datatype SourceOp = SourceOut(b: Byte) | SourceErr(b: Byte)
  datatype SinkOp = Take | SinkOut(b: Byte) | SinkErr(b: Byte)

  // The calling thread: reading the sink's two pipes, waiting for the source, joining the drainer, done.
  datatype Main = DrainingSink | ReapingSource | Joining | Finished

  datatype State = State(
    cap: nat,                                  // no pipe buffer holds more than this
    drains: bool,                              // the stderr thread exists (it does in the code)
    src: seq<SourceOp>, srcDone: bool, pipe: seq<Byte>, errPipe: seq<Byte>,
    sink: seq<SinkOp>, sinkDone: bool, outPipe: seq<Byte>, sinkErrPipe: seq<Byte>,
    got: seq<Byte>,                            // what the sink has read
    drained: seq<Byte>, drainerDone: bool,
    capturedOut: seq<Byte>, capturedErr: seq<Byte>,
    main: Main)

  datatype Step = SourceStep | SinkStep | Drain | ReadOut | ReadErr | MainNext | SinkQuits

  function Init(cap: nat, drains: bool, src: seq<SourceOp>, sink: seq<SinkOp>): State {
    State(cap, drains, src, false, [], [], sink, false, [], [], [], [], false, [], [], DrainingSink)
  }

  predicate Enabled(s: State, step: Step) {
    match step
    case SourceStep =>
      !s.srcDone &&
      (s.src == [] || (if s.src[0].SourceErr? then |s.errPipe| < s.cap else s.sinkDone || |s.pipe| < s.cap))
    case SinkStep =>
      !s.sinkDone &&
      (if s.sink == [] || s.sink[0].Take? then s.pipe != [] || s.srcDone
       else if s.sink[0].SinkOut? then |s.outPipe| < s.cap
       else |s.sinkErrPipe| < s.cap)
    case Drain => !s.drainerDone && (s.drains || s.main.Joining?) && (s.errPipe != [] || s.srcDone)
    case ReadOut => s.main.DrainingSink? && s.outPipe != []
    case ReadErr => s.main.DrainingSink? && s.sinkErrPipe != []
    case MainNext =>
      (match s.main
       case DrainingSink => s.outPipe == [] && s.sinkErrPipe == [] && s.sinkDone
       case ReapingSource => s.srcDone
       case Joining => s.drainerDone
       case Finished => false)
    case SinkQuits => !s.sinkDone
  }

  // A byte written when nobody is left to read it is lost: SIGPIPE, or an error the source ignores.
  function SourceMoves(s: State): State
    requires Enabled(s, SourceStep)
  {
    if s.src == [] then s.(srcDone := true)
    else if s.src[0].SourceErr? then s.(src := s.src[1..], errPipe := s.errPipe + [s.src[0].b])
    else if s.sinkDone then s.(src := s.src[1..])
    else s.(src := s.src[1..], pipe := s.pipe + [s.src[0].b])
  }

  function SinkMoves(s: State): State
    requires Enabled(s, SinkStep)
  {
    if s.sink != [] && s.sink[0].SinkOut? then s.(sink := s.sink[1..], outPipe := s.outPipe + [s.sink[0].b])
    else if s.sink != [] && s.sink[0].SinkErr? then
      s.(sink := s.sink[1..], sinkErrPipe := s.sinkErrPipe + [s.sink[0].b])
    else
      var rest := if s.sink == [] then [] else s.sink[1..];
      if s.pipe != [] then s.(sink := rest, pipe := s.pipe[1..], got := s.got + [s.pipe[0]])
      else if s.sink != [] then s.(sink := rest)      // end of input
      else s.(sinkDone := true)
  }

  function Apply(s: State, step: Step): State
    requires Enabled(s, step)
  {
    match step
    case SourceStep => SourceMoves(s)
    case SinkStep => SinkMoves(s)
    case Drain =>
      if s.errPipe != [] then s.(errPipe := s.errPipe[1..], drained := s.drained + [s.errPipe[0]])
      else s.(drainerDone := true)
    case ReadOut => s.(outPipe := s.outPipe[1..], capturedOut := s.capturedOut + [s.outPipe[0]])
    case ReadErr => s.(sinkErrPipe := s.sinkErrPipe[1..], capturedErr := s.capturedErr + [s.sinkErrPipe[0]])
    case MainNext =>
      s.(main := match s.main case DrainingSink => ReapingSource case ReapingSource => Joining case _ => Finished)
    case SinkQuits => s.(sinkDone := true, sink := [])
  }

  predicate IsRun(s: State, run: seq<Step>)
    decreases |run|
  {
    run == [] || (Enabled(s, run[0]) && IsRun(Apply(s, run[0]), run[1..]))
  }

  function Exec(s: State, run: seq<Step>): State
    requires IsRun(s, run)
    decreases |run|
  {
    if run == [] then s else Exec(Apply(s, run[0]), run[1..])
  }

  // The calling thread has moved on only past what is over.
  ghost predicate InOrder(s: State) {
    && (s.srcDone ==> s.src == [])
    && (s.drainerDone ==> s.srcDone && s.errPipe == [])
    && (!s.main.DrainingSink? ==> s.sinkDone && s.outPipe == [] && s.sinkErrPipe == [])
    && (s.main.Joining? || s.main.Finished? ==> s.srcDone)
    && (s.main.Finished? ==> s.drainerDone)
  }

  function Outs(ops: seq<SourceOp>): seq<Byte> {
    if ops == [] then [] else (if ops[0].SourceOut? then [ops[0].b] else []) + Outs(ops[1..])
  }

  function Errs(ops: seq<SourceOp>): seq<Byte> {
    if ops == [] then [] else (if ops[0].SourceErr? then [ops[0].b] else []) + Errs(ops[1..])
  }

  function SinkOuts(ops: seq<SinkOp>): seq<Byte> {
    if ops == [] then [] else (if ops[0].SinkOut? then [ops[0].b] else []) + SinkOuts(ops[1..])
  }

  function SinkErrs(ops: seq<SinkOp>): seq<Byte> {
    if ops == [] then [] else (if ops[0].SinkErr? then [ops[0].b] else []) + SinkErrs(ops[1..])
  }

  // A script's streams are what its steps write, in order.
  lemma {:induction false} SourceOuts(a: seq<SourceOp>, b: seq<SourceOp>)
    ensures Outs(a + b) == Outs(a) + Outs(b)
  {
    if a == [] {
      assert a + b == b;
    } else {
      SourceOuts(a[1..], b);
      assert (a + b)[1..] == a[1..] + b;
      Regroup(if a[0].SourceOut? then [a[0].b] else [], Outs(a[1..]), Outs(b));
    }
  }

  lemma {:induction false} SourceErrs(a: seq<SourceOp>, b: seq<SourceOp>)
    ensures Errs(a + b) == Errs(a) + Errs(b)
  {
    if a == [] {
      assert a + b == b;
    } else {
      SourceErrs(a[1..], b);
      assert (a + b)[1..] == a[1..] + b;
      Regroup(if a[0].SourceErr? then [a[0].b] else [], Errs(a[1..]), Errs(b));
    }
  }

  lemma {:induction false} SinkOutsAppend(a: seq<SinkOp>, b: seq<SinkOp>)
    ensures SinkOuts(a + b) == SinkOuts(a) + SinkOuts(b)
  {
    if a == [] {
      assert a + b == b;
    } else {
      SinkOutsAppend(a[1..], b);
      assert (a + b)[1..] == a[1..] + b;
      Regroup(if a[0].SinkOut? then [a[0].b] else [], SinkOuts(a[1..]), SinkOuts(b));
    }
  }

  lemma {:induction false} SinkErrsAppend(a: seq<SinkOp>, b: seq<SinkOp>)
    ensures SinkErrs(a + b) == SinkErrs(a) + SinkErrs(b)
  {
    if a == [] {
      assert a + b == b;
    } else {
      SinkErrsAppend(a[1..], b);
      assert (a + b)[1..] == a[1..] + b;
      Regroup(if a[0].SinkErr? then [a[0].b] else [], SinkErrs(a[1..]), SinkErrs(b));
    }
  }

  lemma OneStepStreams(x: Byte)
    ensures Outs([SourceOut(x)]) == [x] == Errs([SourceErr(x)]) && Outs([SourceErr(x)]) == [] == Errs([SourceOut(x)])
    ensures SinkOuts([SinkOut(x)]) == [x] == SinkErrs([SinkErr(x)])
    ensures SinkOuts([SinkErr(x)]) == [] == SinkErrs([SinkOut(x)])
  {
    assert [SourceOut(x)][1..] == [] && [SourceErr(x)][1..] == [] && [SinkOut(x)][1..] == [] && [SinkErr(x)][1..] == [];
  }

  // Where every byte of the source's stderr, the intermediate stream and the sink's output is.
  function SourceErrStream(s: State): seq<Byte> { s.drained + s.errPipe + Errs(s.src) }
  function MiddleStream(s: State): seq<Byte> { s.got + s.pipe + Outs(s.src) }
  function SinkOutStream(s: State): seq<Byte> { s.capturedOut + s.outPipe + SinkOuts(s.sink) }
  function SinkErrStream(s: State): seq<Byte> { s.capturedErr + s.sinkErrPipe + SinkErrs(s.sink) }

  // A bound on the steps still to come.
  function Work(s: State): nat {
    2 * |s.src| + (if s.srcDone then 0 else 1) + |s.pipe| + |s.errPipe|
    + 2 * |s.sink| + (if s.sinkDone then 0 else 1) + |s.outPipe| + |s.sinkErrPipe|
    + (if s.drainerDone then 0 else 1)
    + (match s.main case DrainingSink => 3 case ReapingSource => 2 case Joining => 1 case Finished => 0)
  }

  lemma StepKeepsOrder(s: State, step: Step)
    requires InOrder(s) && Enabled(s, step)
    ensures InOrder(Apply(s, step)) && Work(Apply(s, step)) < Work(s)
    ensures Apply(s, step).cap == s.cap && Apply(s, step).drains == s.drains
  {
  }

  // A byte moves from the script to the pipe, or from the pipe to its reader, without changing the stream.
  lemma Flow(read: seq<Byte>, buffered: seq<Byte>, b: Byte, rest: seq<Byte>)
    ensures read + (buffered + [b]) + rest == read + buffered + ([b] + rest)
    ensures (read + [b]) + buffered + rest == read + ([b] + buffered) + rest
  {
  }

  // The source's stderr is conserved whatever the sink does.
  lemma StepConservesSourceErr(s: State, step: Step)
    requires Enabled(s, step)
    ensures SourceErrStream(Apply(s, step)) == SourceErrStream(s)
  {
    if step.SourceStep? && s.src != [] && s.src[0].SourceErr? {
      Flow(s.drained, s.errPipe, s.src[0].b, Errs(s.src[1..]));
    } else if step.Drain? && s.errPipe != [] {
      Flow(s.drained, s.errPipe[1..], s.errPipe[0], Errs(s.src));
      assert [s.errPipe[0]] + s.errPipe[1..] == s.errPipe;
    }
  }

  // The other streams are conserved while the sink lives on.
  lemma StepConservesMiddle(s: State, step: Step)
    requires Enabled(s, step) && !step.SinkQuits? && (s.sinkDone ==> s.src == [])
    ensures MiddleStream(Apply(s, step)) == MiddleStream(s)
  {
    if step.SourceStep? && s.src != [] && s.src[0].SourceOut? {
      Flow(s.got, s.pipe, s.src[0].b, Outs(s.src[1..]));
    } else if step.SinkStep? && s.pipe != [] {
      Flow(s.got, s.pipe[1..], s.pipe[0], Outs(s.src));
      assert [s.pipe[0]] + s.pipe[1..] == s.pipe;
    }
  }

  lemma StepConservesSinkOut(s: State, step: Step)
    requires Enabled(s, step) && !step.SinkQuits?
    ensures SinkOutStream(Apply(s, step)) == SinkOutStream(s)
  {
    if step.SinkStep? && s.sink != [] && s.sink[0].SinkOut? {
      Flow(s.capturedOut, s.outPipe, s.sink[0].b, SinkOuts(s.sink[1..]));
    } else if step.ReadOut? {
      Flow(s.capturedOut, s.outPipe[1..], s.outPipe[0], SinkOuts(s.sink));
      assert [s.outPipe[0]] + s.outPipe[1..] == s.outPipe;
    }
  }

  lemma StepConservesSinkErr(s: State, step: Step)
    requires Enabled(s, step) && !step.SinkQuits?
    ensures SinkErrStream(Apply(s, step)) == SinkErrStream(s)
  {
    if step.SinkStep? && s.sink != [] && s.sink[0].SinkErr? {
      Flow(s.capturedErr, s.sinkErrPipe, s.sink[0].b, SinkErrs(s.sink[1..]));
    } else if step.ReadErr? {
      Flow(s.capturedErr, s.sinkErrPipe[1..], s.sinkErrPipe[0], SinkErrs(s.sink));
      assert [s.sinkErrPipe[0]] + s.sinkErrPipe[1..] == s.sinkErrPipe;
    }
  }

  // The next step of some thread or process that is not blocked.
  function Unblocked(s: State): Step {
    match s.main
    case DrainingSink =>
      if s.outPipe != [] then ReadOut
      else if s.sinkErrPipe != [] then ReadErr
      else if s.sinkDone then MainNext
      else if Enabled(s, SinkStep) then SinkStep
      else if Enabled(s, SourceStep) then SourceStep
      else Drain
    case ReapingSource =>
      if s.srcDone then MainNext else if Enabled(s, SourceStep) then SourceStep else Drain
    case _ => if s.drainerDone then MainNext else Drain
  }

  // No reachable unfinished state is stuck.
  lemma NeverStuck(s: State)
    requires InOrder(s) && s.drains && s.cap >= 1 && !s.main.Finished?
    ensures Enabled(s, Unblocked(s)) && !Unblocked(s).SinkQuits?
  {
  }

  lemma {:induction false} RunKeepsOrder(s: State, run: seq<Step>)
    requires InOrder(s) && IsRun(s, run)
    ensures InOrder(Exec(s, run)) && Work(Exec(s, run)) + |run| <= Work(s)
    ensures Exec(s, run).cap == s.cap && Exec(s, run).drains == s.drains
    ensures SourceErrStream(Exec(s, run)) == SourceErrStream(s)
    decreases |run|
  {
    if run != [] {
      StepKeepsOrder(s, run[0]);
      StepConservesSourceErr(s, run[0]);
      RunKeepsOrder(Apply(s, run[0]), run[1..]);
    }
  }

  // From every reachable state the pipeline can go on until it is finished, and however the threads are
  // scheduled it gets there within a fixed number of steps, with the source's whole stderr captured.
  lemma PipelineCannotWedge(cap: nat, src: seq<SourceOp>, sink: seq<SinkOp>, run: seq<Step>)
    requires cap >= 1 && IsRun(Init(cap, true, src, sink), run)
    ensures var s := Exec(Init(cap, true, src, sink), run);
      && (!s.main.Finished? ==> exists step: Step :: !step.SinkQuits? && Enabled(s, step))
      && (s.main.Finished? ==> s.srcDone && s.sinkDone && s.drained == Errs(src))
      && |run| <= 2 * |src| + 2 * |sink| + 6
  {
    var s0 := Init(cap, true, src, sink);
    RunKeepsOrder(s0, run);
    var s := Exec(s0, run);
    if s.main.Finished? {
      assert SourceErrStream(s0) == Errs(src) && SourceErrStream(s) == s.drained;
    } else {
      NeverStuck(s);
    }
  }

  // The sink, once done, has read to end of input.
  ghost predicate ReadToEnd(s: State) {
    s.sinkDone ==> s.srcDone && s.pipe == [] && s.sink == []
  }

  lemma {:induction false} RunConserves(s: State, run: seq<Step>)
    requires InOrder(s) && ReadToEnd(s) && IsRun(s, run) && SinkQuits !in run
    ensures ReadToEnd(Exec(s, run))
    ensures MiddleStream(Exec(s, run)) == MiddleStream(s)
    ensures SinkOutStream(Exec(s, run)) == SinkOutStream(s)
    ensures SinkErrStream(Exec(s, run)) == SinkErrStream(s)
    decreases |run|
  {
    if run != [] {
      assert run[0] in run && forall step :: step in run[1..] ==> step in run;
      StepKeepsOrder(s, run[0]);
      StepConservesMiddle(s, run[0]);
      StepConservesSinkOut(s, run[0]);
      StepConservesSinkErr(s, run[0]);
      RunConserves(Apply(s, run[0]), run[1..]);
    }
  }

  // With a sink that reads to end of input, a finished pipeline has passed the source's whole stdout to
  // the sink and captured the sink's whole stdout and stderr, each in order.
  lemma FinishedPipelineLosesNothing(cap: nat, src: seq<SourceOp>, sink: seq<SinkOp>, run: seq<Step>)
    requires IsRun(Init(cap, true, src, sink), run) && SinkQuits !in run
    requires Exec(Init(cap, true, src, sink), run).main.Finished?
    ensures var s := Exec(Init(cap, true, src, sink), run);
      && s.got == Outs(src) && s.drained == Errs(src)
      && s.capturedOut == SinkOuts(sink) && s.capturedErr == SinkErrs(sink)
  {
    var s0 := Init(cap, true, src, sink);
    RunKeepsOrder(s0, run);
    RunConserves(s0, run);
    InitStreams(cap, src, sink);
    FinishedStreams(Exec(s0, run));
  }

  lemma InitStreams(cap: nat, src: seq<SourceOp>, sink: seq<SinkOp>)
    ensures var s0 := Init(cap, true, src, sink);
      && MiddleStream(s0) == Outs(src) && SourceErrStream(s0) == Errs(src)
      && SinkOutStream(s0) == SinkOuts(sink) && SinkErrStream(s0) == SinkErrs(sink)
  {
  }

  lemma FinishedStreams(s: State)
    requires InOrder(s) && ReadToEnd(s) && s.main.Finished? && s.drains
    ensures MiddleStream(s) == s.got && SourceErrStream(s) == s.drained
    ensures SinkOutStream(s) == s.capturedOut && SinkErrStream(s) == s.capturedErr
  {
  }

  function Repeat(b: Byte, n: nat): seq<SourceOp> {
    if n == 0 then [] else [SourceErr(b)] + Repeat(b, n - 1)
  }

  // Without the drainer, stderr one byte longer than the pipe wedges the pipeline for good: the source
  // cannot write, so its stdout stays open, so the sink waits, so the calling thread never comes to read.
  lemma WithoutDrainerStderrWedges(cap: nat) returns (run: seq<Step>)
    ensures var s0 := Init(cap, false, Repeat(7, cap + 1), []);
      && IsRun(s0, run) && !Exec(s0, run).main.Finished?
      && forall step: Step :: Enabled(Exec(s0, run), step) ==> step.SinkQuits?
  {
    run := FillStderr(Init(cap, false, Repeat(7, cap + 1), []), cap);
  }

  lemma {:induction false} FillStderr(s: State, n: nat) returns (run: seq<Step>)
    requires s == Init(s.cap, false, Repeat(7, n + 1), []).(errPipe := s.errPipe)
    requires |s.errPipe| + n == s.cap
    ensures IsRun(s, run) && !Exec(s, run).main.Finished?
    ensures forall step: Step :: Enabled(Exec(s, run), step) ==> step.SinkQuits?
    decreases n
  {
    run := [];
    if n > 0 {
      var rest := FillStderr(Apply(s, SourceStep), n - 1);
      run := [SourceStep] + rest;
      assert run[1..] == rest;
    }
  }
}

/** Cmd::run_concurrently: chunk after chunk, every child of a chunk is spawned, then each is read to its end
    and waited on in turn, so a child that fills its pipe blocks until its turn comes. A spawn that fails is
    that command's result. */
module Batch {
  import opened Common

  type Byte = nat

  datatype Op = Out(b: Byte) | Err(b: Byte)
  datatype Output = Output(out: seq<Byte>, err: seq<Byte>)
  datatype Command = Spawns(script: seq<Op>) | FailsToSpawn
  datatype Result = Captured(output: Output) | SpawnFailed

  datatype Child = Child(failed: bool, script: seq<Op>, done: bool, outPipe: seq<Byte>, errPipe: seq<Byte>)

  // `results` are those of the commands already waited on, `now` what was read of the next one. Commands
  // before `spawned` have been spawned, those before `chunkEnd` belong to the chunks begun.
  datatype State = State(
    cap: nat, limit: nat, children: seq<Child>, spawned: nat, chunkEnd: nat, results: seq<Result>, now: Output)

  datatype Step = NextChunk | Spawn | Write(i: nat) | ReadOut | ReadErr | Reap

  const NO_OUTPUT := Output([], [])

  function ScriptOf(command: Command): seq<Op> {
    if command.Spawns? then command.script else []
  }

  function ChildOf(command: Command): Child {
    Child(command.FailsToSpawn?, ScriptOf(command), command.FailsToSpawn?, [], [])
  }

  function Init(cap: nat, limit: nat, commands: seq<Command>): State {
    State(cap, limit, seq(|commands|, i requires 0 <= i < |commands| => ChildOf(commands[i])), 0, 0, [], NO_OUTPUT)
  }

  predicate Finished(s: State) {
    |s.results| >= |s.children|
  }

  // The whole chunk is spawned, and a child of it is still to be waited on.
  predicate Waits(s: State) {
    s.spawned == s.chunkEnd && |s.results| < s.spawned <= |s.children|
  }

  predicate Enabled(s: State, step: Step) {
    match step
    case NextChunk => |s.results| == s.spawned == s.chunkEnd < |s.children| && s.limit >= 1
    case Spawn => s.spawned < s.chunkEnd
    case Write(i) =>
      i < s.spawned && i < |s.children| && !s.children[i].done &&
      (s.children[i].script == [] ||
       (if s.children[i].script[0].Out? then |s.children[i].outPipe| < s.cap else |s.children[i].errPipe| < s.cap))
    case ReadOut => Waits(s) && s.children[|s.results|].outPipe != []
    case ReadErr => Waits(s) && s.children[|s.results|].errPipe != []
    case Reap => Waits(s) && var c := s.children[|s.results|]; c.done && c.outPipe == [] && c.errPipe == []
  }

  function Wrote(c: Child): Child {
    if c.script == [] then c.(done := true)
    else if c.script[0].Out? then c.(script := c.script[1..], outPipe := c.outPipe + [c.script[0].b])
    else c.(script := c.script[1..], errPipe := c.errPipe + [c.script[0].b])
  }

  function Apply(s: State, step: Step): State
    requires Enabled(s, step)
  {
    match step
    case NextChunk =>
      s.(chunkEnd := if s.chunkEnd + s.limit < |s.children| then s.chunkEnd + s.limit else |s.children|)
    case Spawn => s.(spawned := s.spawned + 1)
    case Write(i) => s.(children := s.children[i := Wrote(s.children[i])])
    case ReadOut =>
      var j := |s.results|;
      var c := s.children[j];
      s.(children := s.children[j := c.(outPipe := c.outPipe[1..])], now := s.now.(out := s.now.out + [c.outPipe[0]]))
    case ReadErr =>
      var j := |s.results|;
      var c := s.children[j];
      s.(children := s.children[j := c.(errPipe := c.errPipe[1..])], now := s.now.(err := s.now.err + [c.errPipe[0]]))
    case Reap =>
      var r := if s.children[|s.results|].failed then SpawnFailed else Captured(s.now);
      s.(results := s.results + [r], now := NO_OUTPUT)
  }

  predicate IsRun(s: State, run: seq<Step>)
    decreases |run|
  {
    run == [] || (Enabled(s, run[0]) && IsRun(Apply(s, run[0]), run[1..]))
  }

  function Exec(s: State, run: seq<Step>): State
    requires IsRun(s, run)
    decreases |run|
  {
    if run == [] then s else Exec(Apply(s, run[0]), run[1..])
  }

  function Outs(ops: seq<Op>): seq<Byte> {
    if ops == [] then [] else (if ops[0].Out? then [ops[0].b] else []) + Outs(ops[1..])
  }

  function Errs(ops: seq<Op>): seq<Byte> {
    if ops == [] then [] else (if ops[0].Err? then [ops[0].b] else []) + Errs(ops[1..])
  }

  // A child's streams are what its steps write, in order.
  lemma {:induction false} OutsAppend(a: seq<Op>, b: seq<Op>)
    ensures Outs(a + b) == Outs(a) + Outs(b)
  {
    if a == [] {
      assert a + b == b;
    } else {
      OutsAppend(a[1..], b);
      assert (a + b)[1..] == a[1..] + b;
      Regroup(if a[0].Out? then [a[0].b] else [], Outs(a[1..]), Outs(b));
    }
  }

  lemma {:induction false} ErrsAppend(a: seq<Op>, b: seq<Op>)
    ensures Errs(a + b) == Errs(a) + Errs(b)
  {
    if a == [] {
      assert a + b == b;
    } else {
      ErrsAppend(a[1..], b);
      assert (a + b)[1..] == a[1..] + b;
      Regroup(if a[0].Err? then [a[0].b] else [], Errs(a[1..]), Errs(b));
    }
  }

  lemma OneStepStreams(x: Byte, script: seq<Op>)
    ensures Outs([]) == [] == Errs([])
    ensures Outs([Out(x)]) == [x] == Errs([Err(x)]) && Outs([Err(x)]) == [] == Errs([Out(x)])
    ensures OutputOf(Spawns(script)) == Output(Outs(script), Errs(script))
  {
    assert [Out(x)][1..] == [] && [Err(x)][1..] == [];
  }

  // What was read of a child, is in its pipes, or has yet to be written.
  function StreamOf(read: Output, c: Child): Output {
    Output(read.out + c.outPipe + Outs(c.script), read.err + c.errPipe + Errs(c.script))
  }

  function ReadOf(s: State, i: nat): Output {
    if i < |s.results| && s.results[i].Captured? then s.results[i].output
    else if i == |s.results| then s.now
    else NO_OUTPUT
  }

  ghost function Streams(s: State, i: nat): Output
    requires i < |s.children|
  {
    StreamOf(ReadOf(s, i), s.children[i])
  }

  function OutputOf(command: Command): Output {
    Output(Outs(ScriptOf(command)), Errs(ScriptOf(command)))
  }

  // Chunks begin when all before them is waited on, and never hold more than `limit` commands.
  ghost predicate InChunks(s: State) {
    |s.results| <= s.spawned <= s.chunkEnd <= |s.children| && s.chunkEnd <= |s.results| + s.limit
  }

  // Each child's own output, and nothing left behind once it is reaped.
  ghost predicate Tells(s: State, commands: seq<Command>) {
    Shape(s, commands) && (forall i :: 0 <= i < |commands| ==> Streams(s, i) == OutputOf(commands[i]))
  }

  ghost predicate Shape(s: State, commands: seq<Command>) {
    && |s.children| == |commands| && InChunks(s)
    && (!Waits(s) ==> s.now == NO_OUTPUT)
    && (forall i :: 0 <= i < |commands| ==> s.children[i].failed == commands[i].FailsToSpawn?)
    && (forall i :: 0 <= i < |commands| && s.children[i].failed ==> s.children[i].done)
    && (forall i :: 0 <= i < |commands| && s.children[i].done ==> s.children[i].script == [])
    && (forall i :: 0 <= i < |s.results| ==>
          && s.children[i].done && s.children[i].outPipe == [] && s.children[i].errPipe == []
          && s.results[i].SpawnFailed? == s.children[i].failed)
    && (forall i :: 0 <= i < |commands| && s.children[i].failed ==>
          s.children[i].outPipe == [] && s.children[i].errPipe == [])
  }

  lemma Moved<T>(a: seq<T>, b: seq<T>, x: T, rest: seq<T>)
    ensures a + (b + [x]) + rest == a + b + ([x] + rest)
  {
  }

  lemma WritingKeepsStream(read: Output, c: Child)
    ensures StreamOf(read, Wrote(c)) == StreamOf(read, c)
  {
    if c.script != [] {
      var b, rest := c.script[0].b, c.script[1..];
      Moved(read.out, c.outPipe, b, Outs(rest));
      Moved(read.err, c.errPipe, b, Errs(rest));
    }
  }

  lemma ReadingKeepsStream(read: Output, c: Child)
    ensures c.outPipe != [] ==>
      StreamOf(read.(out := read.out + [c.outPipe[0]]), c.(outPipe := c.outPipe[1..])) == StreamOf(read, c)
    ensures c.errPipe != [] ==>
      StreamOf(read.(err := read.err + [c.errPipe[0]]), c.(errPipe := c.errPipe[1..])) == StreamOf(read, c)
  {
    if c.outPipe != [] {
      assert (read.out + [c.outPipe[0]]) + c.outPipe[1..] == read.out + c.outPipe;
    }
    if c.errPipe != [] {
      assert (read.err + [c.errPipe[0]]) + c.errPipe[1..] == read.err + c.errPipe;
    }
  }

  lemma WriteKeepsStreams(s: State, step: Step, i: nat)
    requires step.Write? && Enabled(s, step) && i < |s.children|
    ensures Streams(Apply(s, step), i) == Streams(s, i)
  {
    WritingKeepsStream(ReadOf(s, i), s.children[i]);
  }

  lemma ReadKeepsStreams(s: State, step: Step, i: nat)
    requires (step.ReadOut? || step.ReadErr?) && Enabled(s, step) && i < |s.children|
    ensures Streams(Apply(s, step), i) == Streams(s, i)
  {
    ReadingKeepsStream(ReadOf(s, i), s.children[i]);
  }

  // A child that failed to spawn has no output; any other's is what has been read of it.
  lemma ReapKeepsStreams(s: State, step: Step, commands: seq<Command>, i: nat)
    requires Tells(s, commands) && step.Reap? && Enabled(s, step) && i < |s.children|
    ensures Streams(Apply(s, step), i) == OutputOf(commands[i])
  {
    if i == |s.results| && s.children[i].failed {
      assert commands[i].FailsToSpawn? && OutputOf(commands[i]) == NO_OUTPUT;
    } else {
      assert ReadOf(Apply(s, step), i) == ReadOf(s, i);
    }
  }

  lemma StepKeepsStreams(s: State, step: Step, commands: seq<Command>, i: nat)
    requires Tells(s, commands) && Enabled(s, step) && i < |s.children|
    ensures Streams(Apply(s, step), i) == OutputOf(commands[i])
  {
    if step.Write? {
      WriteKeepsStreams(s, step, i);
    } else if step.ReadOut? || step.ReadErr? {
      ReadKeepsStreams(s, step, i);
    } else if step.Reap? {
      ReapKeepsStreams(s, step, commands, i);
    }
  }

  lemma StepKeepsShape(s: State, step: Step, commands: seq<Command>)
    requires Shape(s, commands) && Enabled(s, step)
    ensures Shape(Apply(s, step), commands)
  {
  }

  lemma StepKeepsTells(s: State, step: Step, commands: seq<Command>)
    requires Tells(s, commands) && Enabled(s, step)
    ensures Tells(Apply(s, step), commands) && Apply(s, step).cap == s.cap && Apply(s, step).limit == s.limit
  {
    StepKeepsShape(s, step, commands);
    forall i | 0 <= i < |commands|
      ensures Streams(Apply(s, step), i) == OutputOf(commands[i])
    {
      StepKeepsStreams(s, step, commands, i);
    }
  }

  lemma {:induction false} RunKeepsTells(s: State, run: seq<Step>, commands: seq<Command>)
    requires Tells(s, commands) && IsRun(s, run)
    ensures Tells(Exec(s, run), commands) && Exec(s, run).cap == s.cap && Exec(s, run).limit == s.limit
    ensures Work(Exec(s, run)) + |run| <= Work(s)
    decreases |run|
  {
    if run != [] {
      StepKeepsTells(s, run[0], commands);
      StepDoesWork(s, run[0]);
      RunKeepsTells(Apply(s, run[0]), run[1..], commands);
    }
  }

  // The child whose turn it is can always write or be read, however much the others are blocked.
  function Unblocked(s: State): Step
    requires !Finished(s)
  {
    var c := s.children[|s.results|];
    if s.spawned < s.chunkEnd then Spawn
    else if |s.results| >= s.spawned then NextChunk
    else if c.outPipe != [] then ReadOut
    else if c.errPipe != [] then ReadErr
    else if c.done then Reap
    else Write(|s.results|)
  }

  function ChildWork(c: Child): nat {
    2 * |c.script| + |c.outPipe| + |c.errPipe| + (if c.done then 0 else 1)
  }

  function TotalWork(cs: seq<Child>): nat {
    if cs == [] then 0 else ChildWork(cs[0]) + TotalWork(cs[1..])
  }

  function Missing(n: nat, of: nat): nat {
    if n <= of then of - n else 0
  }

  // A bound on the steps still to come.
  function Work(s: State): nat {
    var n := |s.children|;
    TotalWork(s.children) + Missing(|s.results|, n) + Missing(s.spawned, n) + Missing(s.chunkEnd, n)
  }

  lemma {:induction false} TotalWorkUpdate(cs: seq<Child>, i: nat, c: Child)
    requires i < |cs|
    ensures TotalWork(cs[i := c]) + ChildWork(cs[i]) == TotalWork(cs) + ChildWork(c)
  {
    if i > 0 {
      TotalWorkUpdate(cs[1..], i - 1, c);
      assert cs[i := c][1..] == cs[1..][i - 1 := c];
    } else {
      assert cs[i := c][1..] == cs[1..];
    }
  }

  lemma StepDoesWork(s: State, step: Step)
    requires Enabled(s, step) && s.chunkEnd <= |s.children|
    ensures Work(Apply(s, step)) < Work(s)
  {
    if step.Write? || step.ReadOut? || step.ReadErr? {
      var i := if step.Write? then step.i else |s.results|;
      TotalWorkUpdate(s.children, i, Apply(s, step).children[i]);
    }
  }

  lemma NeverStuck(s: State, commands: seq<Command>)
    requires Tells(s, commands) && s.cap >= 1 && s.limit >= 1 && !Finished(s)
    ensures Enabled(s, Unblocked(s))
  {
  }

  lemma InitTells(cap: nat, limit: nat, commands: seq<Command>)
    ensures Tells(Init(cap, limit, commands), commands)
  {
  }

  // However many chunks and whatever the volume: never stuck, done within a fixed number of steps, no more
  // than `limit` children at once; and one result for every command, in input order: its whole output, or
  // the failure to spawn it.
  lemma BatchCannotWedge(cap: nat, limit: nat, commands: seq<Command>, run: seq<Step>)
    requires cap >= 1 && limit >= 1 && IsRun(Init(cap, limit, commands), run)
    ensures var s := Exec(Init(cap, limit, commands), run);
      && (!Finished(s) ==> Enabled(s, Unblocked(s)))
      && |run| <= Work(Init(cap, limit, commands))
      && |s.results| <= s.spawned <= |s.results| + limit
      && (Finished(s) ==>
            && |s.results| == |commands|
            && forall i :: 0 <= i < |commands| ==>
                 s.results[i] == if commands[i].Spawns? then Captured(OutputOf(commands[i])) else SpawnFailed)
  {
    var s0 := Init(cap, limit, commands);
    InitTells(cap, limit, commands);
    RunKeepsTells(s0, run, commands);
    var s := Exec(s0, run);
    if Finished(s) {
      forall i | 0 <= i < |commands|
        ensures s.results[i] == if commands[i].Spawns? then Captured(OutputOf(commands[i])) else SpawnFailed
      {
        assert Streams(s, i) == OutputOf(commands[i]);
      }
    } else {
      NeverStuck(s, commands);
    }
  }
}

/** The semaphore: any number of background calls, each a pipeline or a batch that holds one permit. */
module Permits {
  import Batch
  import Pipeline

  datatype Call = Pipe(p: Pipeline.State) | Many(b: Batch.State)
  datatype Slot = Parked(call: Call, held: nat) | Running(call: Call) | Released

  // `need` is how many permits a call takes, one at a time; it is 1 in the code.
  datatype State = State(need: nat, permits: nat, slots: seq<Slot>)

  datatype Move = PipeStep(s: Pipeline.Step) | BatchStep(b: Batch.Step)
  datatype Step = Acquire(i: nat) | Work(i: nat, move: Move) | Release(i: nat)

  predicate CallFinished(c: Call) {
    match c case Pipe(p) => p.main.Finished? case Many(b) => Batch.Finished(b)
  }

  predicate CallEnabled(c: Call, m: Move) {
    || (c.Pipe? && m.PipeStep? && Pipeline.Enabled(c.p, m.s))
    || (c.Many? && m.BatchStep? && Batch.Enabled(c.b, m.b))
  }

  function CallApply(c: Call, m: Move): Call
    requires CallEnabled(c, m)
  {
    if c.Pipe? then Pipe(Pipeline.Apply(c.p, m.s)) else Many(Batch.Apply(c.b, m.b))
  }

  // A call as it starts.
  ghost predicate Fresh(c: Call) {
    match c
    case Pipe(p) => p.cap >= 1 && p == Pipeline.Init(p.cap, true, p.src, p.sink)
    case Many(b) => b.cap >= 1 && b.limit >= 1 && exists commands :: b == Batch.Init(b.cap, b.limit, commands)
  }

  function Init(need: nat, limit: nat, calls: seq<Call>): State {
    State(need, limit, seq(|calls|, i requires 0 <= i < |calls| => Parked(calls[i], 0)))
  }

  predicate Enabled(s: State, step: Step) {
    step.i < |s.slots| &&
    var slot := s.slots[step.i];
    match step
    case Acquire(_) => slot.Parked? && s.permits > 0
    case Work(_, m) => slot.Running? && CallEnabled(slot.call, m)
    case Release(_) => slot.Running? && CallFinished(slot.call)
  }

  function Apply(s: State, step: Step): State
    requires Enabled(s, step)
  {
    var slot := s.slots[step.i];
    match step
    case Acquire(i) =>
      var slot' := if slot.held + 1 >= s.need then Running(slot.call) else Parked(slot.call, slot.held + 1);
      s.(permits := s.permits - 1, slots := s.slots[i := slot'])
    case Work(i, m) => s.(slots := s.slots[i := Running(CallApply(slot.call, m))])
    case Release(i) => s.(permits := s.permits + s.need, slots := s.slots[i := Released])
  }

  predicate IsRun(s: State, run: seq<Step>)
    decreases |run|
  {
    run == [] || (Enabled(s, run[0]) && IsRun(Apply(s, run[0]), run[1..]))
  }

  function Exec(s: State, run: seq<Step>): State
    requires IsRun(s, run)
    decreases |run|
  {
    if run == [] then s else Exec(Apply(s, run[0]), run[1..])
  }

  predicate AllDone(s: State) {
    forall i :: 0 <= i < |s.slots| ==> s.slots[i].Released?
  }

  ghost predicate CallOk(c: Call) {
    match c
    case Pipe(p) => Pipeline.InOrder(p) && p.drains && p.cap >= 1
    case Many(b) => b.cap >= 1 && b.limit >= 1 && exists commands :: Batch.Tells(b, commands)
  }

  function Busy(slots: seq<Slot>): nat {
    if slots == [] then 0 else (if slots[0].Running? then 1 else 0) + Busy(slots[1..])
  }

  lemma {:induction false} BusyUpdate(slots: seq<Slot>, i: nat, slot: Slot)
    requires i < |slots|
    ensures Busy(slots[i := slot]) + (if slots[i].Running? then 1 else 0)
         == Busy(slots) + (if slot.Running? then 1 else 0)
  {
    if i > 0 {
      BusyUpdate(slots[1..], i - 1, slot);
      assert slots[i := slot][1..] == slots[1..][i - 1 := slot];
    } else {
      assert slots[i := slot][1..] == slots[1..];
    }
  }

  lemma {:induction false} NobodyBusy(slots: seq<Slot>)
    requires forall i :: 0 <= i < |slots| ==> !slots[i].Running?
    ensures Busy(slots) == 0
  {
    if slots != [] {
      NobodyBusy(slots[1..]);
    }
  }

  ghost predicate Inv(s: State, limit: nat) {
    && s.need == 1
    && s.permits + Busy(s.slots) == limit
    && (forall i :: 0 <= i < |s.slots| && !s.slots[i].Released? ==> CallOk(s.slots[i].call))
  }

  // Steps a call may still take, and those of a slot: its call's, taking its permit and giving it back.
  function CallWork(c: Call): nat {
    match c case Pipe(p) => Pipeline.Work(p) case Many(b) => Batch.Work(b)
  }

  function SlotWork(slot: Slot): nat {
    match slot
    case Parked(call, _) => CallWork(call) + 2
    case Running(call) => CallWork(call) + 1
    case Released => 0
  }

  function TotalWork(slots: seq<Slot>): nat {
    if slots == [] then 0 else SlotWork(slots[0]) + TotalWork(slots[1..])
  }

  lemma {:induction false} TotalWorkUpdate(slots: seq<Slot>, i: nat, slot: Slot)
    requires i < |slots|
    ensures TotalWork(slots[i := slot]) + SlotWork(slots[i]) == TotalWork(slots) + SlotWork(slot)
  {
    if i > 0 {
      TotalWorkUpdate(slots[1..], i - 1, slot);
      assert slots[i := slot][1..] == slots[1..][i - 1 := slot];
    } else {
      assert slots[i := slot][1..] == slots[1..];
    }
  }

  lemma CallStaysOk(c: Call, m: Move)
    requires CallOk(c) && CallEnabled(c, m)
    ensures CallOk(CallApply(c, m)) && CallWork(CallApply(c, m)) < CallWork(c)
  {
    if c.Pipe? {
      Pipeline.StepKeepsOrder(c.p, m.s);
    } else {
      var commands :| Batch.Tells(c.b, commands);
      Batch.StepKeepsTells(c.b, m.b, commands);
      Batch.StepDoesWork(c.b, m.b);
    }
  }

  lemma StepKeepsInv(s: State, step: Step, limit: nat)
    requires Inv(s, limit) && Enabled(s, step)
    ensures Inv(Apply(s, step), limit) && TotalWork(Apply(s, step).slots) < TotalWork(s.slots)
  {
    TotalWorkUpdate(s.slots, step.i, Apply(s, step).slots[step.i]);
    BusyUpdate(s.slots, step.i, Apply(s, step).slots[step.i]);
    if step.Work? {
      CallStaysOk(s.slots[step.i].call, step.move);
    }
  }

  lemma {:induction false} RunKeepsInv(s: State, run: seq<Step>, limit: nat)
    requires Inv(s, limit) && IsRun(s, run)
    ensures Inv(Exec(s, run), limit) && TotalWork(Exec(s, run).slots) + |run| <= TotalWork(s.slots)
    decreases |run|
  {
    if run != [] {
      StepKeepsInv(s, run[0], limit);
      RunKeepsInv(Apply(s, run[0]), run[1..], limit);
    }
  }

  lemma FreshIsOk(c: Call)
    requires Fresh(c)
    ensures CallOk(c)
  {
    if c.Many? {
      var commands :| c.b == Batch.Init(c.b.cap, c.b.limit, commands);
      Batch.InitTells(c.b.cap, c.b.limit, commands);
    }
  }

  // A running call is never blocked by the others.
  lemma RunningCallMoves(c: Call) returns (m: Move)
    requires CallOk(c) && !CallFinished(c)
    ensures CallEnabled(c, m) && m != PipeStep(Pipeline.SinkQuits)
  {
    if c.Pipe? {
      Pipeline.NeverStuck(c.p);
      m := PipeStep(Pipeline.Unblocked(c.p));
    } else {
      var commands :| Batch.Tells(c.b, commands);
      Batch.NeverStuck(c.b, commands);
      m := BatchStep(Batch.Unblocked(c.b));
    }
  }

  // A step that nobody takes of their own accord: a sink that exits before its input ends.
  predicate Quits(step: Step) {
    step.Work? && step.move == PipeStep(Pipeline.SinkQuits)
  }

  // The steps of a set of calls: each call's own, taking a permit and giving it back.
  function AllWork(calls: seq<Call>): nat {
    if calls == [] then 0 else CallWork(calls[0]) + 2 + AllWork(calls[1..])
  }

  lemma {:induction false} ParkedWork(slots: seq<Slot>, calls: seq<Call>)
    requires |slots| == |calls| && forall i :: 0 <= i < |calls| ==> slots[i] == Parked(calls[i], 0)
    ensures TotalWork(slots) == AllWork(calls)
  {
    if calls != [] {
      ParkedWork(slots[1..], calls[1..]);
    }
  }

  // With one permit per call, any limit of at least one lets every set of calls finish: until all are done
  // there is a step that waits for nothing, not even for a sink to exit early, and no schedule takes more
  // steps than the calls have.
  lemma OnePermitPerCallNeverDeadlocks(limit: nat, calls: seq<Call>, run: seq<Step>)
    requires limit >= 1 && (forall c :: c in calls ==> Fresh(c)) && IsRun(Init(1, limit, calls), run)
    ensures var s := Exec(Init(1, limit, calls), run);
      && Busy(s.slots) <= limit
      && (!AllDone(s) ==> exists step :: Enabled(s, step) && !Quits(step))
      && |run| <= AllWork(calls)
  {
    var s0 := Init(1, limit, calls);
    forall i | 0 <= i < |calls| ensures CallOk(calls[i]) {
      FreshIsOk(calls[i]);
    }
    NobodyBusy(s0.slots);
    ParkedWork(s0.slots, calls);
    RunKeepsInv(s0, run, limit);
    var s := Exec(s0, run);
    if !AllDone(s) {
      var step := SomeStep(s, limit);
    }
  }

  lemma SomeStep(s: State, limit: nat) returns (step: Step)
    requires Inv(s, limit) && limit >= 1 && !AllDone(s)
    ensures Enabled(s, step) && !Quits(step)
  {
    if i :| 0 <= i < |s.slots| && s.slots[i].Running? {
      if CallFinished(s.slots[i].call) {
        step := Release(i);
      } else {
        var m := RunningCallMoves(s.slots[i].call);
        step := Work(i, m);
      }
    } else {
      var i :| 0 <= i < |s.slots| && !s.slots[i].Released?;
      NobodyBusy(s.slots);
      step := Acquire(i);
    }
  }

  // With two permits per call, every limit can be deadlocked: as many calls as permits, each holding one.
  lemma TwoPermitsPerCallCanDeadlock(limit: nat, call: Call) returns (run: seq<Step>)
    requires limit >= 1
    ensures var s0 := Init(2, limit, seq(limit, _ => call));
      && IsRun(s0, run) && !AllDone(Exec(s0, run)) && !exists step :: Enabled(Exec(s0, run), step)
  {
    var s0 := Init(2, limit, seq(limit, _ => call));
    run := TakeOneEach(s0, limit, call);
  }

  lemma {:induction false} TakeOneEach(s: State, left: nat, call: Call) returns (run: seq<Step>)
    requires s.need == 2 && s.permits == left <= |s.slots| && |s.slots| >= 1
    requires forall i :: 0 <= i < |s.slots| ==> s.slots[i] == Parked(call, if i < left then 0 else 1)
    ensures IsRun(s, run) && !AllDone(Exec(s, run)) && !exists step :: Enabled(Exec(s, run), step)
    decreases left
  {
    run := [];
    if left > 0 {
      var step := Acquire(left - 1);
      var rest := TakeOneEach(Apply(s, step), left - 1, call);
      run := [step] + rest;
      assert run[1..] == rest;
    } else {
      assert s.slots[0].Parked?;
    }
  }
}
