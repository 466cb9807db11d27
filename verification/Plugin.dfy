/** The OpenCode plugin's marker commands: one promise chain under `server`, one event loop under `setup`.

    A marker command runs in its own process. It takes effect at some moment between its start and its
    end, or not at all: `wt` may be missing, and the failure is swallowed. */
module MarkerChain {
  datatype Command = SetWorking | SetWaiting | Clear
  datatype HostEvent = Status | IdleEvent | Deleted | Other

  // `queue` is what the chain still holds, in order; the command at its head may be running. `log` is
  // every command ever enqueued, `effects` every one that took effect, `settled` how many have ended.
  datatype State = State(
    disposed: bool,
    log: seq<Command>,
    settled: nat,
    running: bool,
    landed: bool,               // the running command has taken effect
    effects: seq<nat>)          // indices into `log`

  datatype Step =
    | Deliver(event: HostEvent)   // the host calls `event`, awaiting nothing
    | Dispose                     // the host calls `dispose`
    | Begin                       // the chain starts its next command
    | Land                        // the running command takes effect
    | Settle                      // the running command ends, successfully or not

  function Init(): State {
    State(false, [], 0, false, false, [])
  }

  function CommandFor(event: HostEvent): seq<Command> {
    match event
    case Status => [SetWorking]
    case IdleEvent => [SetWaiting]
    case Deleted => [Clear]
    case Other => []
  }

  predicate Enabled(s: State, step: Step) {
    match step
    case Deliver(_) => true
    case Dispose => true
    case Begin => !s.running && s.settled < |s.log|
    case Land => s.running && !s.landed
    case Settle => s.running
  }

  function Apply(s: State, step: Step): State
    requires Enabled(s, step)
  {
    match step
    case Deliver(event) => if s.disposed then s else s.(log := s.log + CommandFor(event))
    case Dispose => s.(disposed := true, log := s.log + [Clear])
    case Begin => s.(running := true, landed := false)
    case Land => s.(landed := true, effects := s.effects + [s.settled])
    case Settle => s.(running := false, settled := s.settled + 1)
  }

  predicate IsRun(s: State, run: seq<Step>)
    decreases |run|
  {
    run == [] || (Enabled(s, run[0]) && IsRun(Apply(s, run[0]), run[1..]))
  }

  function Exec(s: State, run: seq<Step>): State
    requires IsRun(s, run)
    decreases |run|
  {
    if run == [] then s else Exec(Apply(s, run[0]), run[1..])
  }

  // Commands take effect in the order they were enqueued, each at most once, one at a time.
  ghost predicate InOrder(s: State) {
    && (s.running ==> s.settled < |s.log|)
    && s.settled <= |s.log|
    && (forall i, j :: 0 <= i < j < |s.effects| ==> s.effects[i] < s.effects[j])
    && (forall i :: 0 <= i < |s.effects| ==> s.effects[i] < s.settled || (s.running && s.effects[i] == s.settled))
    && (s.running && !s.landed ==> forall i :: 0 <= i < |s.effects| ==> s.effects[i] < s.settled)
  }

  // From index `at` on, the chain holds nothing but clears, starting with the one `dispose` enqueued.
  ghost predicate DisposedAt(s: State, at: nat) {
    s.disposed && at < |s.log| && forall i :: at <= i < |s.log| ==> s.log[i] == Clear
  }

  // The promise a `dispose` returned, which waits for its clear, has resolved.
  predicate Resolved(s: State, at: nat) {
    at < s.settled
  }

  lemma StepKeepsOrder(s: State, step: Step)
    requires InOrder(s) && Enabled(s, step)
    ensures InOrder(Apply(s, step)) && s.log <= Apply(s, step).log
    ensures s.effects <= Apply(s, step).effects && s.settled <= Apply(s, step).settled
    ensures forall at :: DisposedAt(s, at) ==> DisposedAt(Apply(s, step), at)
  {
  }

  lemma {:induction false} RunKeepsOrder(s: State, run: seq<Step>, at: nat)
    requires InOrder(s) && IsRun(s, run)
    ensures InOrder(Exec(s, run)) && s.log <= Exec(s, run).log && s.effects <= Exec(s, run).effects
    ensures DisposedAt(s, at) ==> DisposedAt(Exec(s, run), at)
    decreases |run|
  {
    if run != [] {
      StepKeepsOrder(s, run[0]);
      RunKeepsOrder(Apply(s, run[0]), run[1..], at);
    }
  }

  // What each call of the host puts into the queue, in a state that has not been disposed and in one that has.
  lemma HostCallsEnqueue(s: State)
    ensures !s.disposed ==>
      && Apply(s, Deliver(Status)).log == s.log + [SetWorking]
      && Apply(s, Deliver(IdleEvent)).log == s.log + [SetWaiting]
      && Apply(s, Deliver(Deleted)).log == s.log + [Clear]
      && Apply(s, Deliver(Other)).log == s.log
    ensures s.disposed ==> forall event :: Apply(s, Deliver(event)) == s
    ensures Apply(s, Step.Dispose).log == s.log + [Clear] && Apply(s, Step.Dispose).disposed
  {
  }

  // In every run the effects are a subsequence of the enqueued commands, in order.
  lemma EffectsFollowTheQueue(run: seq<Step>)
    requires IsRun(Init(), run)
    ensures var s := Exec(Init(), run);
      && (forall i, j :: 0 <= i < j < |s.effects| ==> s.effects[i] < s.effects[j])
      && forall i :: 0 <= i < |s.effects| ==> s.effects[i] < |s.log|
  {
    RunKeepsOrder(Init(), run, 0);
  }

  // Of the commands before `at`, the last to take effect was a clear.
  ghost predicate LastEarlierIsClear(s: State, at: nat) {
    exists k :: 0 <= k < |s.effects| && s.effects[k] < at && s.effects[k] < |s.log| && s.log[s.effects[k]] == Clear
      && forall j :: k < j < |s.effects| ==> s.effects[j] >= at
  }

  lemma LastIsClearExactlyWhen(s: State, at: nat)
    requires InOrder(s) && DisposedAt(s, at)
    ensures (exists e :: e in s.effects && e >= at) ==>
      s.effects[|s.effects| - 1] < |s.log| && s.log[s.effects[|s.effects| - 1]] == Clear
    ensures s.effects != [] && s.log[s.effects[|s.effects| - 1]] == Clear <==>
      (exists e :: e in s.effects && e >= at) || LastEarlierIsClear(s, at)
  {
    var n := |s.effects|;
    if e :| e in s.effects && e >= at {
      assert s.effects[n - 1] >= e;
    }
    if LastEarlierIsClear(s, at) {
      var k :| 0 <= k < n && s.effects[k] < at && s.effects[k] < |s.log| && s.log[s.effects[k]] == Clear
        && forall j :: k < j < n ==> s.effects[j] >= at;
      assert k < n - 1 ==> s.effects[n - 1] >= at && s.effects[n - 1] in s.effects;
    }
    if n > 0 && s.log[s.effects[n - 1]] == Clear {
      assert s.effects[n - 1] in s.effects;
      assert s.effects[n - 1] < at ==> LastEarlierIsClear(s, at);
    }
  }

  // Whatever ran before `dispose` and whatever the host does after it: once its promise has resolved, all
  // that was enqueued by or after it is clears, and so is a command still running; and if any of these
  // took effect, a clear is the last effect. Otherwise no command from `at` on has taken effect, and a clear is
  // the last effect exactly when one was before.
  lemma DisposeEndsWithClear(before: seq<Step>, after: seq<Step>)
    requires IsRun(Init(), before)
    requires IsRun(Apply(Exec(Init(), before), Dispose), after)
    requires Resolved(Exec(Apply(Exec(Init(), before), Dispose), after), |Exec(Init(), before).log|)
    ensures var at := |Exec(Init(), before).log|;
      var s := Exec(Apply(Exec(Init(), before), Dispose), after);
      && (forall i :: at <= i < |s.log| ==> s.log[i] == Clear)
      && (s.running ==> s.settled < |s.log| && s.log[s.settled] == Clear)
      && (forall i :: 0 <= i < |s.effects| ==> s.effects[i] < |s.log|)
      && ((exists e :: e in s.effects && e >= at) ==> s.log[s.effects[|s.effects| - 1]] == Clear)
      && (s.effects != [] && s.log[s.effects[|s.effects| - 1]] != Clear ==>
            forall i :: 0 <= i < |s.effects| ==> s.effects[i] < at)
      && (s.effects != [] && s.log[s.effects[|s.effects| - 1]] == Clear <==>
            (exists e :: e in s.effects && e >= at) || LastEarlierIsClear(s, at))
  {
    var s0 := Exec(Init(), before);
    RunKeepsOrder(Init(), before, 0);
    StepKeepsOrder(s0, Dispose);
    RunKeepsOrder(Apply(s0, Dispose), after, |s0.log|);
    var s := Exec(Apply(s0, Dispose), after);
    LastIsClearExactlyWhen(s, |s0.log|);
  }

  // Every command that ends has taken effect: no marker command fails.
  predicate NeverFails(s: State, run: seq<Step>)
    requires IsRun(s, run)
    decreases |run|
  {
    run == [] || ((run[0].Settle? ==> s.landed) && NeverFails(Apply(s, run[0]), run[1..]))
  }

  // Then the effects are all the commands so far, in order.
  ghost predicate AllLanded(s: State) {
    && |s.effects| == s.settled + (if s.running && s.landed then 1 else 0)
    && forall i :: 0 <= i < |s.effects| ==> s.effects[i] == i
  }

  lemma {:induction false} NeverFailingLands(s: State, run: seq<Step>)
    requires AllLanded(s) && IsRun(s, run) && NeverFails(s, run)
    ensures AllLanded(Exec(s, run))
    decreases |run|
  {
    if run != [] {
      NeverFailingLands(Apply(s, run[0]), run[1..]);
    }
  }

  // In every run without a failure, once a `dispose` has resolved a clear is the last effect.
  lemma DisposeWithoutFailuresEndsWithClear(before: seq<Step>, after: seq<Step>)
    requires IsRun(Init(), before) && NeverFails(Init(), before)
    requires var s := Apply(Exec(Init(), before), Dispose); IsRun(s, after) && NeverFails(s, after)
    requires Resolved(Exec(Apply(Exec(Init(), before), Dispose), after), |Exec(Init(), before).log|)
    ensures var s := Exec(Apply(Exec(Init(), before), Dispose), after);
      s.effects != [] && s.effects[|s.effects| - 1] < |s.log| && s.log[s.effects[|s.effects| - 1]] == Clear
  {
    var at := |Exec(Init(), before).log|;
    NeverFailingLands(Init(), before);
    NeverFailingLands(Apply(Exec(Init(), before), Dispose), after);
    DisposeEndsWithClear(before, after);
    var s := Exec(Apply(Exec(Init(), before), Dispose), after);
    assert s.effects[at] == at && s.effects[at] in s.effects;
  }

  // The closure's variables, of which `log` is what the chain has been given, and its two hooks.
  class Server {
    var disposed: bool
    var log: seq<Command>
    // Where the clear of the first `dispose` is.
    ghost var at: nat

    // From the first `dispose` on nothing but clears is enqueued.
    ghost predicate Valid()
      reads this
    {
      disposed ==> at < |log| && forall i :: at <= i < |log| ==> log[i] == Clear
    }

    constructor ()
      ensures Valid() && !disposed && log == []
    {
      disposed, log := false, [];
    }

    method Dispose()
      requires Valid()
      modifies this
      ensures Valid() && disposed && log == old(log) + [Clear]
      ensures at == if old(disposed) then old(at) else |old(log)|
    {
      if !disposed {
        at := |log|;
      }
      disposed := true;
      log := log + [Clear];
    }

    method Event(event: HostEvent)
      requires Valid()
      modifies this
      ensures Valid() && disposed == old(disposed) && at == old(at)
      ensures disposed || event == Other ==> log == old(log)
      ensures !disposed && event == Status ==> log == old(log) + [SetWorking]
      ensures !disposed && event == IdleEvent ==> log == old(log) + [SetWaiting]
      ensures !disposed && event == Deleted ==> log == old(log) + [Clear]
    {
      if disposed {
        return;
      }
      match event
      case Status => log := log + [SetWorking];
      case IdleEvent => log := log + [SetWaiting];
      case Deleted => log := log + [Clear];
      case Other =>
    }

    // A host's whole session: its calls of the hooks, between them the steps of the chain. The hooks do to
    // their variables what the machine does, so what holds of its runs holds of every session.
    method Serve(run: seq<Step>) returns (ghost s: State)
      requires Valid() && !disposed && log == [] && IsRun(Init(), run)
      modifies this
      ensures Valid() && s == Exec(Init(), run) && s.disposed == disposed && s.log == log
      ensures disposed ==> DisposedAt(s, at)
    {
      s := Init();
      var i := 0;
      assert run[0..] == run;
      while i < |run|
        invariant 0 <= i <= |run| && Valid() && s.disposed == disposed && s.log == log
        invariant IsRun(s, run[i..]) && Exec(s, run[i..]) == Exec(Init(), run)
      {
        assert run[i..][1..] == run[i + 1..];
        match run[i] {
          case Deliver(event) => Event(event);
          case Dispose => Dispose();
          case _ =>
        }
        s := Apply(s, run[i]);
        i := i + 1;
      }
      assert run[|run|..] == [];
    }
  }

  // A run that starts with one more step.
  lemma Prepended(s: State, step: Step, rest: seq<Step>, end: State) returns (run: seq<Step>)
    requires Enabled(s, step) && IsRun(Apply(s, step), rest) && Exec(Apply(s, step), rest) == end
    ensures IsRun(s, run) && Exec(s, run) == end
  {
    run := [step] + rest;
    assert run[1..] == rest;
  }

  // The failing family: a clear that fails leaves the last `set` standing after `dispose` has resolved.
  lemma FailedClearLeavesTheMarker() returns (run: seq<Step>)
    ensures IsRun(Init(), run)
    ensures var s := Exec(Init(), run);
      s.disposed && s.settled == |s.log| && s.effects == [0] && s.log == [SetWorking, Clear]
  {
    var s1 := Apply(Init(), Deliver(Status));
    var s2 := Apply(s1, Begin);
    var s3 := Apply(s2, Land);
    var s4 := Apply(s3, Settle);
    var s5 := Apply(s4, Step.Dispose);
    var s6 := Apply(s5, Begin);
    var s7 := Apply(s6, Settle);
    run := Prepended(s6, Settle, [], s7);
    run := Prepended(s5, Begin, run, s7);
    run := Prepended(s4, Step.Dispose, run, s7);
    run := Prepended(s3, Settle, run, s7);
    run := Prepended(s2, Land, run, s7);
    run := Prepended(s1, Begin, run, s7);
    run := Prepended(Init(), Deliver(Status), run, s7);
  }
}

/** The OpenCode 2 side: one loop handles events in turn; the teardown waits for it before clearing. */
module MarkerWatcher {
  import opened MarkerChain

  // What the stream of events says of a session, and whether of this worktree.
  datatype SessionEvent = SessionEvent(here: bool, what: What)
  datatype What = StatusIs(idle: bool) | WentIdle | WasDeleted | Unknown

  function Handled(event: SessionEvent): seq<Command> {
    if !event.here then []
    else
      match event.what
      case StatusIs(idle) => [if idle then SetWaiting else SetWorking]
      case WentIdle => [SetWaiting]
      case WasDeleted => [Clear]
      case Unknown => []
  }

  // The loop runs at most one command at a time, and the teardown one after it.
  datatype Loop = Listening | Handling(command: Command, landed: bool) | Ended
  datatype Teardown = NotAsked | Aborted | Clearing(landed: bool) | Resolved(landed: bool)

  datatype Watch = Watch(loop: Loop, teardown: Teardown, effects: seq<Command>)

  datatype Move = Event(event: SessionEvent) | Lands | Settles | End | Abort | StartClear | ClearLands | ClearSettles

  function Start(): Watch {
    Watch(Listening, NotAsked, [])
  }

  predicate Can(s: Watch, move: Move) {
    match move
    case Event(_) => s.loop.Listening?             // the host may deliver one more even after the abort
    case Lands => s.loop.Handling? && !s.loop.landed
    case Settles => s.loop.Handling?
    case End => s.loop.Listening?                  // aborted, closed by the host, or failed
    case Abort => s.teardown.NotAsked?
    case StartClear => s.teardown.Aborted? && s.loop.Ended?
    case ClearLands => s.teardown.Clearing? && !s.teardown.landed
    case ClearSettles => s.teardown.Clearing?
  }

  function Next(s: Watch, move: Move): Watch
    requires Can(s, move)
  {
    match move
    case Event(event) => if Handled(event) == [] then s else s.(loop := Handling(Handled(event)[0], false))
    case Lands => s.(loop := Handling(s.loop.command, true), effects := s.effects + [s.loop.command])
    case Settles => s.(loop := Listening)
    case End => s.(loop := Ended)
    case Abort => s.(teardown := Aborted)
    case StartClear => s.(teardown := Clearing(false))
    case ClearLands => s.(teardown := Clearing(true), effects := s.effects + [Clear])
    case ClearSettles => s.(teardown := Resolved(s.teardown.landed))
  }

  predicate IsHistory(s: Watch, moves: seq<Move>)
    decreases |moves|
  {
    moves == [] || (Can(s, moves[0]) && IsHistory(Next(s, moves[0]), moves[1..]))
  }

  function After(s: Watch, moves: seq<Move>): Watch
    requires IsHistory(s, moves)
    decreases |moves|
  {
    if moves == [] then s else After(Next(s, moves[0]), moves[1..])
  }

  // A status or an idle event of this worktree sets its marker, a deletion clears it; nothing else is handled.
  lemma EventsAreHandled(s: Watch, here: bool, idle: bool)
    requires s.loop.Listening?
    ensures Next(s, Event(SessionEvent(true, StatusIs(false)))).loop == Handling(SetWorking, false)
    ensures Next(s, Event(SessionEvent(true, StatusIs(true)))).loop == Handling(SetWaiting, false)
    ensures Next(s, Event(SessionEvent(true, WentIdle))).loop == Handling(SetWaiting, false)
    ensures Next(s, Event(SessionEvent(true, WasDeleted))).loop == Handling(Clear, false)
    ensures Next(s, Event(SessionEvent(here, Unknown))) == s
    ensures forall what :: Next(s, Event(SessionEvent(false, what))) == s
  {
  }

  ghost predicate ClearIsLast(s: Watch) {
    && (s.teardown.Clearing? || s.teardown.Resolved? ==> s.loop.Ended?)
    && ((s.teardown.Clearing? || s.teardown.Resolved?) && s.teardown.landed ==>
          s.effects != [] && s.effects[|s.effects| - 1] == Clear)
  }

  lemma {:induction false} ClearStaysLast(s: Watch, moves: seq<Move>)
    requires ClearIsLast(s) && IsHistory(s, moves)
    ensures ClearIsLast(After(s, moves))
    decreases |moves|
  {
    if moves != [] {
      ClearStaysLast(Next(s, moves[0]), moves[1..]);
    }
  }

  // Once the teardown has resolved, no command is running and none can start; the last effect is the
  // clear if the clear took effect.
  lemma TeardownEndsWithClear(moves: seq<Move>)
    requires IsHistory(Start(), moves) && After(Start(), moves).teardown.Resolved?
    ensures var s := After(Start(), moves);
      && s.loop.Ended? && (forall move: Move :: !Can(s, move))
      && (s.teardown.landed ==> s.effects != [] && s.effects[|s.effects| - 1] == Clear)
  {
    ClearStaysLast(Start(), moves);
  }
}

/** The strategy's `list`: parsing `git worktree list --porcelain -z`. */
module WorktreeList {
  import opened Common

  datatype Kind = Root | Worktree
  datatype Entry = Entry(directory: string, kind: Kind)

  const NUL := '\0'
  const WORKTREE := "worktree "
  const PRUNABLE := "prunable "

  // The length of the piece before the first NUL, or of all.
  function PieceEnd(s: string): (n: nat)
    ensures n <= |s| && (forall i :: 0 <= i < n ==> s[i] != NUL) && (n < |s| ==> s[n] == NUL)
  {
    if s == "" || s[0] == NUL then 0 else 1 + PieceEnd(s[1..])
  }

  // `stdout.split("\0")`.
  function Split(s: string): seq<string> {
    var n := PieceEnd(s);
    if n == |s| then [s] else [s[..n]] + Split(s[n + 1..])
  }

  predicate Skipped(fields: seq<string>) {
    exists i :: 0 <= i < |fields| && (fields[i] == "bare" || fields[i] == "prunable" || PRUNABLE <= fields[i])
  }

  function PathOf(fields: seq<string>): Option<string>
    requires fields != []
  {
    if WORKTREE <= fields[0] then Some(fields[0][|WORKTREE|..]) else None
  }

  // What one record contributes.
  function EntryOf(fields: seq<string>, first: bool): seq<Entry>
    requires fields != []
  {
    var path := PathOf(fields);
    if path.Some? && path.value != "" && !Skipped(fields) then [Entry(path.value, if first then Root else Worktree)]
    else []
  }

  // The entries of a list of records; records without fields are not records.
  function Entries(records: seq<seq<string>>, first: bool): seq<Entry> {
    if records == [] then []
    else if records[0] == [] then Entries(records[1..], first)
    else EntryOf(records[0], first) + Entries(records[1..], false)
  }

  // The records of a list of pieces: runs of fields, each ended by an empty piece. An unended run is dropped.
  function Records(pieces: seq<string>, fields: seq<string>): seq<seq<string>> {
    if pieces == [] then []
    else if pieces[0] != "" then Records(pieces[1..], fields + [pieces[0]])
    else [fields] + Records(pieces[1..], [])
  }

  method List(stdout: string) returns (entries: seq<Entry>)
    ensures entries == Entries(Records(Split(stdout), []), true)
  {
    entries := [];
    var fields: seq<string> := [];
    var first := true;
    var pieces := Split(stdout);
    var i := 0;
    while i < |pieces|
      invariant i <= |pieces|
      invariant Entries(Records(pieces, []), true) == entries + Entries(Records(pieces[i..], fields), first)
    {
      var field := pieces[i];
      assert pieces[i..][1..] == pieces[i + 1..];
      i := i + 1;
      if field != "" {
        fields := fields + [field];
        continue;
      }
      if |fields| == 0 {
        continue;
      }
      entries := entries + EntryOf(fields, first);
      first := false;
      fields := [];
    }
  }

  // ---------------------------------------------------------------- printing and reading back

  function PrintFields(fields: seq<string>): string {
    if fields == [] then "" else fields[0] + [NUL] + PrintFields(fields[1..])
  }

  // Each field ended by a NUL, each record by one more.
  function Print(records: seq<seq<string>>): string {
    if records == [] then "" else PrintFields(records[0]) + [NUL] + Print(records[1..])
  }

  predicate IsField(field: string) {
    field != "" && NUL !in field
  }

  predicate AreFields(fields: seq<string>) {
    forall i :: 0 <= i < |fields| ==> IsField(fields[i])
  }

  predicate AreRecords(records: seq<seq<string>>) {
    forall i :: 0 <= i < |records| ==> records[i] != [] && AreFields(records[i])
  }

  lemma FirstPiece(piece: string, rest: string)
    requires NUL !in piece
    ensures Split(piece + [NUL] + rest) == [piece] + Split(rest)
  {
    var s := piece + [NUL] + rest;
    assert s[|piece|] == NUL && forall i :: 0 <= i < |piece| ==> s[i] == piece[i] && piece[i] in piece;
    assert PieceEnd(s) == |piece|;
    assert s[..|piece|] == piece && s[|piece| + 1..] == rest;
  }

  lemma NextPiece(piece: string, pieces: seq<string>, acc: seq<string>)
    ensures Records([piece] + pieces, acc) ==
      if piece != "" then Records(pieces, acc + [piece]) else [acc] + Records(pieces, [])
  {
    assert ([piece] + pieces)[1..] == pieces;
  }

  lemma NextField(acc: seq<string>, fields: seq<string>)
    ensures if fields == [] then acc + fields == acc else acc + [fields[0]] + fields[1..] == acc + fields
  {
  }

  lemma {:induction false} FieldsAreReadBack(fields: seq<string>, rest: string, acc: seq<string>)
    requires AreFields(fields)
    ensures Records(Split(PrintFields(fields) + [NUL] + rest), acc) == [acc + fields] + Records(Split(rest), [])
    decreases |fields|
  {
    if fields == [] {
      FirstPiece("", rest);
      NextPiece("", Split(rest), acc);
      NextField(acc, fields);
    } else {
      var tail := PrintFields(fields[1..]) + [NUL] + rest;
      Regroup(fields[0] + [NUL], PrintFields(fields[1..]) + [NUL], rest);
      Regroup(fields[0] + [NUL], PrintFields(fields[1..]), [NUL]);
      FirstPiece(fields[0], tail);
      NextPiece(fields[0], Split(tail), acc);
      FieldsAreReadBack(fields[1..], rest, acc + [fields[0]]);
      NextField(acc, fields);
    }
  }

  // The last piece is empty: it ends a record without fields, which is none.
  lemma {:induction false} RecordsAreReadBack(records: seq<seq<string>>)
    requires AreRecords(records)
    ensures Records(Split(Print(records)), []) == records + [[]]
  {
    if records == [] {
      NextPiece("", [], []);
    } else {
      FieldsAreReadBack(records[0], Print(records[1..]), []);
      RecordsAreReadBack(records[1..]);
      assert [] + records[0] == records[0];
      assert [records[0]] + (records[1..] + [[]]) == records + [[]];
    }
  }

  predicate Kept(fields: seq<string>) {
    fields != [] && PathOf(fields).Some? && PathOf(fields).value != "" && !Skipped(fields)
  }

  function Flags(records: seq<seq<string>>): (r: seq<bool>)
    ensures |r| == |records| && forall i :: 0 <= i < |records| ==> r[i] == Kept(records[i])
  {
    if records == [] then [] else [Kept(records[0])] + Flags(records[1..])
  }

  // The directories of the records at `at`, record 0 being the root if it comes first of all.
  ghost predicate Shows(records: seq<seq<string>>, first: bool, entries: seq<Entry>, at: seq<nat>) {
    && |entries| == |at|
    && forall k :: 0 <= k < |at| ==>
         && at[k] < |records| && records[at[k]] != [] && PathOf(records[at[k]]).Some?
         && entries[k] == Entry(PathOf(records[at[k]]).value, if first && at[k] == 0 then Root else Worktree)
  }

  lemma ShowsInFront(records: seq<seq<string>>, first: bool, rest: seq<Entry>, at: seq<nat>)
    requires records != [] && records[0] != [] && Shows(records[1..], false, rest, at)
    ensures Shows(records, first, EntryOf(records[0], first) + rest, InFront(Kept(records[0]), at))
  {
    var n, all := if Kept(records[0]) then 1 else 0, InFront(Kept(records[0]), at);
    forall k | n <= k < |all|
      ensures all[k] == at[k - n] + 1 && all[k] < |records| && records[all[k]] == records[1..][at[k - n]]
    {
    }
  }

  lemma {:induction false} EntriesAreTheKeptRecords(records: seq<seq<string>>, first: bool) returns (at: seq<nat>)
    requires forall i :: 0 <= i < |records| ==> records[i] != []
    ensures Selects(Flags(records), at) && Shows(records, first, Entries(records, first), at)
  {
    if records == [] {
      at := [];
    } else {
      var rest := EntriesAreTheKeptRecords(records[1..], false);
      SelectsInFront(Kept(records[0]), Flags(records[1..]), rest);
      ShowsInFront(records, first, Entries(records[1..], false), rest);
      at := InFront(Kept(records[0]), rest);
    }
  }

  lemma {:induction false} NoEntryForNoFields(records: seq<seq<string>>, first: bool)
    ensures Entries(records + [[]], first) == Entries(records, first)
  {
    if records != [] {
      assert (records + [[]])[1..] == records[1..] + [[]];
      NoEntryForNoFields(records[1..], first && records[0] == []);
    } else {
      assert (records + [[]])[1..] == [];
    }
  }

  lemma KeptIs(fields: seq<string>)
    requires fields != []
    ensures Kept(fields) <==>
      && |fields[0]| > 9 && fields[0][..9] == "worktree "
      && forall j :: 0 <= j < |fields| ==> fields[j] != "bare" && fields[j] != "prunable" && !("prunable " <= fields[j])
    ensures Kept(fields) ==> PathOf(fields) == Some(fields[0][9..])
  {
  }

  // Printing any records and parsing the text back lists exactly those that begin with a worktree's path and have
  // no field that is `bare` or says `prunable`, in order, and calls none but the first record the root.
  lemma ListReadsBackWhatGitPrints(records: seq<seq<string>>) returns (at: seq<nat>)
    requires AreRecords(records)
    ensures var entries := Entries(Records(Split(Print(records)), []), true);
      && |entries| == |at| && (forall j, k :: 0 <= j < k < |at| ==> at[j] < at[k])
      && (forall k :: 0 <= k < |at| ==>
            && at[k] < |records| && |records[at[k]][0]| > 9
            && entries[k] == Entry(records[at[k]][0][9..], if at[k] == 0 then Root else Worktree))
    ensures forall i :: 0 <= i < |records| ==>
      (i in at <==>
         && |records[i][0]| > 9 && records[i][0][..9] == "worktree "
         && forall j :: 0 <= j < |records[i]| ==>
              records[i][j] != "bare" && records[i][j] != "prunable" && !("prunable " <= records[i][j]))
  {
    RecordsAreReadBack(records);
    NoEntryForNoFields(records, true);
    at := EntriesAreTheKeptRecords(records, true);
    forall i | 0 <= i < |records|
      ensures i in at <==> Kept(records[i])
    {
      assert Flags(records)[i] <==> Kept(records[i]);
    }
    forall i | 0 <= i < |records|
      ensures Kept(records[i]) <==>
         && |records[i][0]| > 9 && records[i][0][..9] == "worktree "
         && forall j :: 0 <= j < |records[i]| ==>
              records[i][j] != "bare" && records[i][j] != "prunable" && !("prunable " <= records[i][j])
      ensures Kept(records[i]) ==> PathOf(records[i]) == Some(records[i][0][9..])
    {
      KeptIs(records[i]);
    }
  }
}
