/** Cancelling background commands: a one-way latch, a locked set of child ids, a check before each
    spawn and a second look at the latch after a child id is published.

    Any number of worker threads and the cancelling thread interleave one atomic step at a time: an
    atomic load or store, one locked section, or one spawn. Child ids are never reused. */
module Cancellation {
  type Pid = nat

  // `Run` is Cmd::run, `Batch` is Cmd::run_concurrently, `Pipe` is Cmd::pipe_into.
  datatype Kind = Run | Batch | Pipe

  // One call: the calling thread's flags, and for each command whether it is marked finish_once_started.
  datatype Job = Job(kind: Kind, foreground: bool, uninterruptible: bool, finishOnce: seq<bool>) {
    predicate Valid() {
      && (kind.Run? ==> |finishOnce| == 1)
      && (kind.Pipe? ==> |finishOnce| == 2)
    }

    predicate Cancellable() {
      !foreground && !uninterruptible
    }

    // pipe_into registers both children whatever their finish_once_started marks say.
    predicate Tracked(i: nat)
      requires i < |finishOnce|
    {
      Cancellable() && (kind.Pipe? || !finishOnce[i])
    }
  }

  // Where a worker stands. `i` is the command at hand, `chunk` how many of its chunk were attempted.
  datatype Pc =
    | Idle
    | Parked(job: Job)                                           // waiting for a permit
    | Ready(job: Job, i: nat, chunk: nat)                        // about to look at the latch
    | Cleared(job: Job, i: nat, chunk: nat, late: bool)          // looked; `late` if the latch was already set
    | Unpublished(job: Job, i: nat, chunk: nat, pid: Pid)        // spawned, id not in the set yet
    | Published(job: Job, i: nat, chunk: nat, pid: Pid)          // in the set, about to look again
    | Owing(job: Job, i: nat, chunk: nat, pid: Pid)              // looked again and owes a signal
    | Waiting(job: Job, i: nat)                                  // reaping children, oldest first

  datatype Worker = Worker(pc: Pc, live: seq<Pid>) {
    predicate HoldsPermit() {
      !pc.Idle? && !pc.Parked? && !pc.job.foreground
    }

    predicate Registering(pid: Pid) {
      (pc.Unpublished? || pc.Published? || pc.Owing?) && pc.pid == pid
    }
  }

  // What is remembered of a spawn. `late`: the latch was already set at the check before it.
  datatype Birth = Birth(owner: nat, job: Job, i: nat, late: bool) {
    predicate Tracked() {
      i < |job.finishOnce| && job.Tracked(i)
    }
  }

  // Which halves of the protocol are present; the code has both.
  datatype Design = Design(reread: bool, sweep: bool)

  // What the threads share. `swept`: some sweep that followed a store has returned.
  datatype Shared = Shared(
    design: Design,
    limit: nat,
    permits: nat,
    latch: bool,
    swept: bool,
    pids: set<Pid>,
    signalled: set<Pid>,
    nextPid: Pid,
    born: map<Pid, Birth>)

  datatype State = State(sh: Shared, workers: seq<Worker>)

  // One atomic step of a worker. `ok`: the other preconditions hold, or the spawn succeeds.
  datatype Move =
    | Start(job: Job)
    | Acquire
    | Check(ok: bool)
    | Spawn(ok: bool)
    | Insert
    | Reread
    | Signal
    | Reap
    | NextChunk
    | Finish

  datatype Action = StoreLatch | Sweep | Act(w: nat, move: Move)

  function Init(design: Design, n: nat, limit: nat): State {
    State(Shared(design, limit, limit, false, false, {}, {}, 0, map[]), seq(n, _ => Worker(Idle, [])))
  }

  predicate CanMove(sh: Shared, k: Worker, m: Move) {
    match m
    case Start(job) => k.pc.Idle? && job.Valid()
    case Acquire => k.pc.Parked? && (k.pc.job.foreground || sh.permits > 0)
    case Check(_) => k.pc.Ready?
    case Spawn(_) => k.pc.Cleared? && k.pc.i < |k.pc.job.finishOnce|
    case Insert => k.pc.Unpublished?
    case Reread => k.pc.Published?
    case Signal => k.pc.Owing?
    case Reap => k.pc.Waiting? && k.live != []
    case NextChunk => k.pc.Waiting? && k.live == [] && k.pc.i < |k.pc.job.finishOnce|
    case Finish => k.pc.Waiting? && k.live == [] && k.pc.i >= |k.pc.job.finishOnce|
  }

  predicate Enabled(s: State, a: Action) {
    match a
    case StoreLatch => true
    case Sweep => s.sh.latch
    case Act(w, m) => w < |s.workers| && CanMove(s.sh, s.workers[w], m)
  }

  // Where a worker goes once command `i` is spawned and registered, or has failed without ending the call.
  function AfterChild(limit: nat, job: Job, i: nat, chunk: nat): Pc {
    if i + 1 >= |job.finishOnce| then Waiting(job, i + 1)
    else if job.kind.Pipe? then Cleared(job, i + 1, chunk + 1, false)  // the sink is not checked against the latch
    else if chunk + 1 >= limit then Waiting(job, i + 1)
    else Ready(job, i + 1, chunk + 1)
  }

  // A batch goes on past a failed command; a run or a pipeline gives up.
  function AfterFailure(limit: nat, job: Job, i: nat, chunk: nat): Pc {
    if job.kind.Batch? then AfterChild(limit, job, i, chunk) else Waiting(job, |job.finishOnce|)
  }

  // The worker after a move, and what the threads share after it.
  function Moved(sh: Shared, k: Worker, m: Move): Worker
    requires CanMove(sh, k, m)
  {
    match m
    case Start(job) => k.(pc := Parked(job))
    case Acquire => k.(pc := if |k.pc.job.finishOnce| == 0 then Waiting(k.pc.job, 0) else Ready(k.pc.job, 0, 0))
    case Check(ok) =>
      if ok && !(k.pc.job.Cancellable() && sh.latch) then k.(pc := Cleared(k.pc.job, k.pc.i, k.pc.chunk, sh.latch))
      else k.(pc := AfterFailure(sh.limit, k.pc.job, k.pc.i, k.pc.chunk))
    case Spawn(ok) =>
      if !ok then k.(pc := AfterFailure(sh.limit, k.pc.job, k.pc.i, k.pc.chunk))
      else if k.pc.job.Tracked(k.pc.i) then k.(pc := Unpublished(k.pc.job, k.pc.i, k.pc.chunk, sh.nextPid))
      else Worker(AfterChild(sh.limit, k.pc.job, k.pc.i, k.pc.chunk), k.live + [sh.nextPid])
    case Insert => Worker(Published(k.pc.job, k.pc.i, k.pc.chunk, k.pc.pid), k.live + [k.pc.pid])
    case Reread =>
      if sh.design.reread && sh.latch then k.(pc := Owing(k.pc.job, k.pc.i, k.pc.chunk, k.pc.pid))
      else k.(pc := AfterChild(sh.limit, k.pc.job, k.pc.i, k.pc.chunk))
    case Signal => k.(pc := AfterChild(sh.limit, k.pc.job, k.pc.i, k.pc.chunk))
    case Reap => k.(live := k.live[1..])
    case NextChunk => k.(pc := Ready(k.pc.job, k.pc.i, 0))
    case Finish => k.(pc := Idle)
  }

  function Updated(sh: Shared, w: nat, k: Worker, m: Move): Shared
    requires CanMove(sh, k, m)
  {
    match m
    case Acquire => if k.pc.job.foreground then sh else sh.(permits := sh.permits - 1)
    case Spawn(ok) =>
      if !ok then sh
      else sh.(nextPid := sh.nextPid + 1, born := sh.born[sh.nextPid := Birth(w, k.pc.job, k.pc.i, k.pc.late)])
    case Insert => sh.(pids := sh.pids + {k.pc.pid})
    case Signal => sh.(signalled := sh.signalled + {k.pc.pid})
    case Reap => sh.(pids := sh.pids - {k.live[0]})
    case Finish => if k.pc.job.foreground then sh else sh.(permits := sh.permits + 1)
    case _ => sh
  }

  function Apply(s: State, a: Action): State
    requires Enabled(s, a)
  {
    match a
    case StoreLatch => s.(sh := s.sh.(latch := true))
    case Sweep =>
      var signalled := if s.sh.design.sweep then s.sh.signalled + s.sh.pids else s.sh.signalled;
      s.(sh := s.sh.(swept := true, signalled := signalled))
    case Act(w, m) =>
      State(Updated(s.sh, w, s.workers[w], m), s.workers[w := Moved(s.sh, s.workers[w], m)])
  }

  // Every run: a sequence of enabled steps, in any interleaving.
  predicate IsRun(s: State, run: seq<Action>)
    decreases |run|
  {
    run == [] || (Enabled(s, run[0]) && IsRun(Apply(s, run[0]), run[1..]))
  }

  function Exec(s: State, run: seq<Action>): State
    requires IsRun(s, run)
    decreases |run|
  {
    if run == [] then s else Exec(Apply(s, run[0]), run[1..])
  }

  // ---------------------------------------------------------------- the invariant

  function Holders(ws: seq<Worker>): nat {
    if ws == [] then 0 else (if ws[0].HoldsPermit() then 1 else 0) + Holders(ws[1..])
  }

  lemma {:induction false} HoldersUpdate(ws: seq<Worker>, w: nat, k: Worker)
    requires w < |ws|
    ensures Holders(ws[w := k]) + (if ws[w].HoldsPermit() then 1 else 0)
         == Holders(ws) + (if k.HoldsPermit() then 1 else 0)
  {
    if w > 0 {
      HoldersUpdate(ws[1..], w - 1, k);
      assert ws[w := k][1..] == ws[1..][w - 1 := k];
    } else {
      assert ws[w := k][1..] == ws[1..];
    }
  }

  ghost predicate PcOk(sh: Shared, k: Worker) {
    match k.pc
    case Idle => k.live == []
    case Parked(job) => job.Valid() && k.live == []
    case Ready(job, i, chunk) =>
      job.Valid() && i < |job.finishOnce| && (job.kind.Batch? ==> |k.live| <= chunk < sh.limit)
    case Cleared(job, i, chunk, late) =>
      job.Valid() && i < |job.finishOnce| && (late ==> !job.Cancellable()) &&
      (job.kind.Batch? ==> |k.live| <= chunk < sh.limit)
    case Unpublished(job, i, chunk, _) =>
      job.Valid() && i < |job.finishOnce| && job.Tracked(i) && (job.kind.Batch? ==> |k.live| <= chunk < sh.limit)
    case Waiting(job, i) => job.Valid() && (job.kind.Batch? ==> |k.live| <= sh.limit)
    case _ => // Published or Owing
      k.pc.job.Valid() && k.pc.i < |k.pc.job.finishOnce| && k.pc.job.Tracked(k.pc.i) &&
      (k.pc.job.kind.Batch? ==> |k.live| <= k.pc.chunk + 1 <= sh.limit) && (k.pc.Owing? ==> sh.latch)
  }

  ghost predicate Ascending(live: seq<Pid>) {
    forall i, j :: 0 <= i < j < |live| ==> live[i] < live[j]
  }

  lemma AscendingStays(live: seq<Pid>, pid: Pid)
    requires Ascending(live)
    ensures (forall p :: p in live ==> p < pid) ==> Ascending(live + [pid])
    ensures live != [] ==>
      Ascending(live[1..]) && live[0] !in live[1..] && forall p :: p in live[1..] ==> p in live
  {
    assert forall i :: 0 <= i < |live| ==> live[i] in live;
  }

  // The children worker `w` still has: its own, in spawn order, listed if they are to be.
  ghost predicate LiveOk(sh: Shared, w: nat, k: Worker) {
    && Ascending(k.live)
    && (forall p :: p in k.live ==> p in sh.born && sh.born[p].owner == w && (sh.born[p].Tracked() ==> p in sh.pids))
  }

  ghost predicate RegisteringOk(sh: Shared, w: nat, k: Worker) {
    forall p :: k.Registering(p) ==>
      && p in sh.born && sh.born[p].owner == w && sh.born[p].Tracked()
      && (k.pc.Unpublished? ==> p !in sh.pids && forall q :: q in k.live ==> q < p)
      && (!k.pc.Unpublished? ==> p in k.live && p in sh.pids)
  }

  ghost predicate WorkerOk(sh: Shared, w: nat, k: Worker) {
    PcOk(sh, k) && LiveOk(sh, w, k) && RegisteringOk(sh, w, k)
  }

  ghost predicate BirthOk(b: Birth) {
    b.i < |b.job.finishOnce| && (b.late ==> !b.job.Cancellable())
  }

  ghost predicate SharedOk(sh: Shared) {
    && sh.limit >= 1
    && (sh.swept ==> sh.latch)
    && (!sh.latch ==> sh.signalled == {})
    && (forall p :: p in sh.born ==> p < sh.nextPid && BirthOk(sh.born[p]))
    && (forall p :: p in sh.pids ==> p in sh.born && sh.born[p].Tracked())
    && (forall p :: p in sh.signalled ==> p in sh.born && sh.born[p].Tracked())
  }

  ghost predicate BeingRegistered(s: State, p: Pid) {
    p in s.sh.born && s.sh.born[p].owner < |s.workers| && s.workers[s.sh.born[p].owner].Registering(p)
  }

  // After a sweep, a listed child is signalled unless its worker is still registering it.
  ghost predicate SweepOk(s: State) {
    s.sh.swept && s.sh.design == Design(true, true) ==>
      forall p :: p in s.sh.pids && p !in s.sh.signalled ==> BeingRegistered(s, p)
  }

  ghost predicate Inv(s: State) {
    && SharedOk(s.sh)
    && s.sh.permits + Holders(s.workers) == s.sh.limit
    && (forall w :: 0 <= w < |s.workers| ==> WorkerOk(s.sh, w, s.workers[w]))
    && SweepOk(s)
  }

  // Going on to the next command keeps the chunk bound.
  lemma AfterChildOk(sh: Shared, job: Job, i: nat, chunk: nat, live: seq<Pid>)
    requires job.Valid() && i < |job.finishOnce|
    requires job.kind.Batch? ==> |live| <= chunk + 1 <= sh.limit
    ensures PcOk(sh, Worker(AfterChild(sh.limit, job, i, chunk), live))
  {
  }

  lemma PcStaysOk(sh: Shared, w: nat, k: Worker, m: Move)
    requires sh.limit >= 1 && CanMove(sh, k, m) && PcOk(sh, k)
    ensures PcOk(Updated(sh, w, k, m), Moved(sh, k, m))
  {
    if m.Check? || m.Spawn? || m.Reread? || m.Signal? {
      AfterChildOk(sh, k.pc.job, k.pc.i, k.pc.chunk, Moved(sh, k, m).live);
    }
  }

  lemma LiveStaysOk(sh: Shared, w: nat, k: Worker, m: Move)
    requires SharedOk(sh) && CanMove(sh, k, m) && WorkerOk(sh, w, k)
    ensures LiveOk(Updated(sh, w, k, m), w, Moved(sh, k, m))
  {
    if m.Reap? {
      AscendingStays(k.live, 0);
    } else if m.Insert? {
      assert k.Registering(k.pc.pid);
      AscendingStays(k.live, k.pc.pid);
    } else if m.Spawn? {
      AscendingStays(k.live, sh.nextPid);
    } else {
      assert Moved(sh, k, m).live == k.live;
    }
  }

  lemma RegisteringStaysOk(sh: Shared, w: nat, k: Worker, m: Move)
    requires SharedOk(sh) && CanMove(sh, k, m) && WorkerOk(sh, w, k)
    ensures RegisteringOk(Updated(sh, w, k, m), w, Moved(sh, k, m))
  {
    if m.Insert? || m.Reread? || m.Signal? {
      assert k.Registering(k.pc.pid);
    }
  }

  lemma SharedStaysOk(sh: Shared, w: nat, k: Worker, m: Move)
    requires SharedOk(sh) && CanMove(sh, k, m) && WorkerOk(sh, w, k)
    ensures SharedOk(Updated(sh, w, k, m))
  {
    if m.Insert? || m.Signal? {
      assert k.Registering(k.pc.pid);
    }
  }

  // A move touches no id in the set but the mover's own.
  lemma OthersStayOk(sh: Shared, w: nat, k: Worker, m: Move, v: nat, other: Worker)
    requires SharedOk(sh) && CanMove(sh, k, m) && WorkerOk(sh, w, k) && WorkerOk(sh, v, other) && v != w
    ensures WorkerOk(Updated(sh, w, k, m), v, other)
  {
    if m.Insert? {
      assert k.Registering(k.pc.pid);
    } else if m.Reap? {
      assert k.live[0] in k.live;
    }
  }

  // A child that stops registering has been signalled, or the latch was still clear at the second look.
  lemma SweepStaysOk(s: State, w: nat, m: Move)
    requires Inv(s) && w < |s.workers| && CanMove(s.sh, s.workers[w], m)
    ensures SweepOk(Apply(s, Act(w, m)))
  {
    var sh, k, s' := s.sh, s.workers[w], Apply(s, Act(w, m));
    assert WorkerOk(sh, w, k);
    if sh.swept && sh.design == Design(true, true) {
      forall p | p in s'.sh.pids && p !in s'.sh.signalled
        ensures BeingRegistered(s', p)
      {
        if m.Insert? && p == k.pc.pid {
          assert k.Registering(p);
        } else {
          StillRegistering(s, w, m, p);
        }
      }
    }
  }

  lemma StillRegistering(s: State, w: nat, m: Move, p: Pid)
    requires SharedOk(s.sh) && w < |s.workers| && CanMove(s.sh, s.workers[w], m) && WorkerOk(s.sh, w, s.workers[w])
    requires s.sh.latch && s.sh.design.reread
    requires BeingRegistered(s, p) && p in s.sh.pids && p !in Updated(s.sh, w, s.workers[w], m).signalled
    ensures BeingRegistered(Apply(s, Act(w, m)), p)
  {
  }

  lemma MoveKeepsInv(s: State, w: nat, m: Move)
    requires Inv(s) && w < |s.workers| && CanMove(s.sh, s.workers[w], m)
    ensures Inv(Apply(s, Act(w, m)))
  {
    var sh, k := s.sh, s.workers[w];
    assert WorkerOk(sh, w, k);
    SweepStaysOk(s, w, m);
    PermitsStay(s, w, m);
    SharedStaysOk(sh, w, k, m);
    MoverStaysOk(sh, w, k, m);
    forall v | 0 <= v < |s.workers| && v != w
      ensures WorkerOk(Updated(sh, w, k, m), v, s.workers[v])
    {
      OthersStayOk(sh, w, k, m, v, s.workers[v]);
    }
  }

  lemma MoverStaysOk(sh: Shared, w: nat, k: Worker, m: Move)
    requires SharedOk(sh) && CanMove(sh, k, m) && WorkerOk(sh, w, k)
    ensures WorkerOk(Updated(sh, w, k, m), w, Moved(sh, k, m))
  {
    PcStaysOk(sh, w, k, m);
    LiveStaysOk(sh, w, k, m);
    RegisteringStaysOk(sh, w, k, m);
  }

  lemma PermitsStay(s: State, w: nat, m: Move)
    requires w < |s.workers| && CanMove(s.sh, s.workers[w], m)
    ensures var s' := Apply(s, Act(w, m));
      s'.sh.permits + Holders(s'.workers) == s.sh.permits + Holders(s.workers)
  {
    HoldersUpdate(s.workers, w, Moved(s.sh, s.workers[w], m));
  }

  lemma CancelKeepsInv(s: State, a: Action)
    requires Inv(s) && Enabled(s, a) && !a.Act?
    ensures Inv(Apply(s, a))
  {
    forall v | 0 <= v < |s.workers|
      ensures WorkerOk(Apply(s, a).sh, v, s.workers[v])
    {
      CancelSparesWorker(s.sh, Apply(s, a).sh, v, s.workers[v]);
    }
  }

  // A worker relies on no signal, and on no clear latch.
  lemma CancelSparesWorker(sh: Shared, next: Shared, w: nat, k: Worker)
    requires WorkerOk(sh, w, k) && next == sh.(latch := next.latch, swept := next.swept, signalled := next.signalled)
    requires sh.latch ==> next.latch
    ensures WorkerOk(next, w, k)
  {
  }

  lemma StepKeepsInv(s: State, a: Action)
    requires Inv(s) && Enabled(s, a)
    ensures Inv(Apply(s, a))
  {
    if a.Act? {
      MoveKeepsInv(s, a.w, a.move);
    } else {
      CancelKeepsInv(s, a);
    }
  }

  lemma {:induction false} RunKeepsInv(s: State, run: seq<Action>)
    requires Inv(s) && IsRun(s, run)
    ensures Inv(Exec(s, run))
    decreases |run|
  {
    if run != [] {
      StepKeepsInv(s, run[0]);
      RunKeepsInv(Apply(s, run[0]), run[1..]);
    }
  }

  lemma InitInv(design: Design, n: nat, limit: nat)
    requires limit >= 1
    ensures Inv(Init(design, n, limit))
  {
    HoldersInit(n);
  }

  lemma {:induction false} HoldersInit(n: nat)
    ensures Holders(seq(n, _ => Worker(Idle, []))) == 0
  {
    if n > 0 {
      HoldersInit(n - 1);
      assert seq(n, _ => Worker(Idle, []))[1..] == seq(n - 1, _ => Worker(Idle, []));
    }
  }

  // ---------------------------------------------------------------- what holds of every run

  const CODE := Design(true, true)

  // In every run, with or without either half of the protocol, a living child that its worker has done with
  // registering is listed exactly when it is subject to cancellation.
  lemma ListedExactlyWhenSubject(design: Design, n: nat, limit: nat, run: seq<Action>)
    requires limit >= 1 && IsRun(Init(design, n, limit), run)
    ensures var s := Exec(Init(design, n, limit), run);
      forall w, p :: 0 <= w < |s.workers| && p in s.workers[w].live && !s.workers[w].Registering(p) ==>
        && p in s.sh.born && s.sh.born[p].owner == w && s.sh.born[p].i < |s.sh.born[p].job.finishOnce|
        && (p in s.sh.pids <==>
              && !s.sh.born[p].job.foreground && !s.sh.born[p].job.uninterruptible
              && (s.sh.born[p].job.kind.Pipe? || !s.sh.born[p].job.finishOnce[s.sh.born[p].i]))
  {
    InitInv(design, n, limit);
    RunKeepsInv(Init(design, n, limit), run);
    var s := Exec(Init(design, n, limit), run);
    forall w, p | 0 <= w < |s.workers| && p in s.workers[w].live
      ensures p in s.sh.born && s.sh.born[p].owner == w && (s.sh.born[p].Tracked() ==> p in s.sh.pids)
    {
      assert WorkerOk(s.sh, w, s.workers[w]);
    }
  }

  // Once a sweep has returned, every living child that is subject to cancellation has been signalled,
  // except the one each worker may still be registering; so has every id still listed, but for those.
  lemma NoOrphanAfterSweep(n: nat, limit: nat, run: seq<Action>)
    requires limit >= 1 && IsRun(Init(CODE, n, limit), run)
    ensures var s := Exec(Init(CODE, n, limit), run);
      s.sh.swept ==>
        && (forall w, p :: 0 <= w < |s.workers| && p in s.workers[w].live ==> p in s.sh.born)
        && (forall w, p ::
              0 <= w < |s.workers| && p in s.workers[w].live && !s.workers[w].Registering(p) ==>
                var b := s.sh.born[p];
                b.i < |b.job.finishOnce|
                && (!b.job.foreground && !b.job.uninterruptible && (b.job.kind.Pipe? || !b.job.finishOnce[b.i])
                    ==> p in s.sh.signalled))
        && (forall p :: p in s.sh.pids ==> p in s.sh.signalled || BeingRegistered(s, p))
  {
    InitInv(CODE, n, limit);
    RunKeepsInv(Init(CODE, n, limit), run);
    var s := Exec(Init(CODE, n, limit), run);
    DesignIsConstant(Init(CODE, n, limit), run);
    forall w, p | 0 <= w < |s.workers| && p in s.workers[w].live
      ensures p in s.sh.born && s.sh.born[p].owner == w && (s.sh.born[p].Tracked() ==> p in s.sh.pids)
    {
      assert WorkerOk(s.sh, w, s.workers[w]);
    }
  }

  lemma {:induction false} DesignIsConstant(s: State, run: seq<Action>)
    requires IsRun(s, run)
    ensures Exec(s, run).sh.design == s.sh.design && Exec(s, run).sh.limit == s.sh.limit
    decreases |run|
  {
    if run != [] {
      DesignIsConstant(Apply(s, run[0]), run[1..]);
    }
  }

  // A command on a cancellable thread whose check came after the latch is never spawned. (The sink of a
  // pipeline has no check of its own: its birth is never `late`, and NoOrphanAfterSweep covers it.)
  lemma NoSpawnAfterLateCheck(design: Design, n: nat, limit: nat, run: seq<Action>)
    requires limit >= 1 && IsRun(Init(design, n, limit), run)
    ensures var s := Exec(Init(design, n, limit), run);
      forall p :: p in s.sh.born && s.sh.born[p].late ==>
        s.sh.born[p].job.foreground || s.sh.born[p].job.uninterruptible
  {
    InitInv(design, n, limit);
    RunKeepsInv(Init(design, n, limit), run);
  }

  // The latch stops nobody else: a foreground or uninterruptible call whose other preconditions hold goes on
  // to spawn, and so does a background one while the latch is clear. A command that is stopped ends a run or a
  // pipeline, and in a batch only itself.
  lemma CheckStopsOnlyTheCancelled(sh: Shared, k: Worker, ok: bool)
    requires k.pc.Ready? && k.pc.i < |k.pc.job.finishOnce|
    ensures Moved(sh, k, Check(ok)).pc.Cleared? <==>
      ok && (!sh.latch || k.pc.job.foreground || k.pc.job.uninterruptible)
    ensures !Moved(sh, k, Check(ok)).pc.Cleared? && !k.pc.job.kind.Batch? ==>
      Moved(sh, k, Check(ok)).pc == Waiting(k.pc.job, |k.pc.job.finishOnce|)
    ensures !Moved(sh, k, Check(ok)).pc.Cleared? && k.pc.job.kind.Batch? ==>
      var next := Moved(sh, k, Check(ok)).pc;
      (next.Ready? || next.Waiting?) && next.job == k.pc.job && next.i == k.pc.i + 1
  {
  }

  // Only cancellable children are ever signalled, and none before the latch is set: never a foreground
  // or uninterruptible one, and a finish_once_started one only inside a pipeline.
  lemma OnlyCancellableChildrenAreSignalled(design: Design, n: nat, limit: nat, run: seq<Action>)
    requires limit >= 1 && IsRun(Init(design, n, limit), run)
    ensures var s := Exec(Init(design, n, limit), run);
      forall p :: p in s.sh.signalled ==>
        && s.sh.latch && p in s.sh.born && s.sh.born[p].i < |s.sh.born[p].job.finishOnce|
        && !s.sh.born[p].job.foreground && !s.sh.born[p].job.uninterruptible
        && (s.sh.born[p].job.finishOnce[s.sh.born[p].i] ==> s.sh.born[p].job.kind.Pipe?)
  {
    InitInv(design, n, limit);
    RunKeepsInv(Init(design, n, limit), run);
  }

  ghost function PastTheSemaphore(ws: seq<Worker>): set<nat> {
    set w | 0 <= w < |ws| && !ws[w].pc.Idle? && !ws[w].pc.Parked? && !ws[w].pc.job.foreground
  }

  lemma OneMorePast(ws: seq<Worker>, k: Worker)
    ensures |PastTheSemaphore(ws + [k])| == |PastTheSemaphore(ws)| + if k.HoldsPermit() then 1 else 0
  {
    var some, all := PastTheSemaphore(ws), PastTheSemaphore(ws + [k]);
    assert |ws| !in some;
    if k.HoldsPermit() {
      assert all == some + {|ws|};
    } else {
      assert all == some;
    }
  }

  lemma {:induction false} HoldersCounted(ws: seq<Worker>)
    ensures |PastTheSemaphore(ws)| == Holders(ws)
    decreases |ws|
  {
    if ws == [] {
      assert PastTheSemaphore(ws) == {};
    } else {
      var n := |ws| - 1;
      HoldersCounted(ws[..n]);
      HoldersPush(ws[..n], ws[n]);
      OneMorePast(ws[..n], ws[n]);
      assert ws[..n] + [ws[n]] == ws;
    }
  }

  lemma {:induction false} HoldersPush(ws: seq<Worker>, k: Worker)
    ensures Holders(ws + [k]) == Holders(ws) + if k.HoldsPermit() then 1 else 0
  {
    if ws == [] {
      assert ws + [k] == [k] && [k][1..] == [];
    } else {
      HoldersPush(ws[1..], k);
      assert (ws + [k])[1..] == ws[1..] + [k];
    }
  }

  // At most `limit` background calls are past the semaphore, and a batch never has more than `limit`
  // children at once.
  lemma PermitsBoundTheFanOut(design: Design, n: nat, limit: nat, run: seq<Action>)
    requires limit >= 1 && IsRun(Init(design, n, limit), run)
    ensures var s := Exec(Init(design, n, limit), run);
      && Holders(s.workers) + s.sh.permits == limit
      && |set w | 0 <= w < |s.workers| && !s.workers[w].pc.Idle? && !s.workers[w].pc.Parked?
                 && !s.workers[w].pc.job.foreground| <= limit
      && (forall w :: 0 <= w < |s.workers| && !s.workers[w].pc.Idle? && s.workers[w].pc.job.kind.Batch? ==>
            |s.workers[w].live| <= limit)
  {
    InitInv(design, n, limit);
    RunKeepsInv(Init(design, n, limit), run);
    DesignIsConstant(Init(design, n, limit), run);
    var s := Exec(Init(design, n, limit), run);
    HoldersCounted(s.workers);
    assert PastTheSemaphore(s.workers) == set w | 0 <= w < |s.workers| && !s.workers[w].pc.Idle?
      && !s.workers[w].pc.Parked? && !s.workers[w].pc.job.foreground;
    forall w | 0 <= w < |s.workers| && !s.workers[w].pc.Idle? && s.workers[w].pc.job.kind.Batch?
      ensures |s.workers[w].live| <= limit
    {
      assert WorkerOk(s.sh, w, s.workers[w]);
    }
  }

  // ---------------------------------------------------------------- neither half is enough

  // A settled child, listed and never signalled, after a sweep has returned.
  ghost predicate Missed(s: State, w: nat, p: Pid) {
    && s.sh.swept && w < |s.workers| && p in s.workers[w].live && s.workers[w].pc.Waiting?
    && p in s.sh.pids && p !in s.sh.signalled
  }

  const COMMAND := Job(Run, false, false, [false])

  ghost predicate Reaches(s0: State, run: seq<Action>, s: State) {
    IsRun(s0, run) && Exec(s0, run) == s
  }

  lemma {:induction false} Then(s0: State, run: seq<Action>, s: State, a: Action)
    requires Reaches(s0, run, s) && Enabled(s, a)
    ensures Reaches(s0, run + [a], Apply(s, a))
    decreases |run|
  {
    if run == [] {
      assert [a][1..] == [];
    } else {
      Then(Apply(s0, run[0]), run[1..], s, a);
      assert (run + [a])[1..] == run[1..] + [a];
    }
  }

  function At(design: Design, permits: nat, latch: bool, swept: bool, pids: set<Pid>, spawned: bool, k: Worker): State {
    var born := if spawned then map[0 := Birth(0, COMMAND, 0, false)] else map[];
    State(Shared(design, 1, permits, latch, swept, pids, {}, if spawned then 1 else 0, born), [k])
  }

  // One worker takes the permit and finds the latch clear.
  lemma FirstLook(d: Design) returns (run: seq<Action>)
    ensures Reaches(Init(d, 1, 1), run, At(d, 0, false, false, {}, false, Worker(Cleared(COMMAND, 0, 0, false), [])))
  {
    run := [];
    assert Init(d, 1, 1) == At(d, 1, false, false, {}, false, Worker(Idle, []));
    Then(Init(d, 1, 1), run, Init(d, 1, 1), Act(0, Start(COMMAND)));
    run := run + [Act(0, Start(COMMAND))];
    Then(Init(d, 1, 1), run, At(d, 1, false, false, {}, false, Worker(Parked(COMMAND), [])), Act(0, Acquire));
    run := run + [Act(0, Acquire)];
    Then(Init(d, 1, 1), run, At(d, 0, false, false, {}, false, Worker(Ready(COMMAND, 0, 0), [])), Act(0, Check(true)));
    run := run + [Act(0, Check(true))];
  }

  // Having found the latch clear, it spawns its child, lists it and takes no second look that matters.
  lemma Register(d: Design, before: seq<Action>, latch: bool, swept: bool) returns (run: seq<Action>)
    requires !d.reread || !latch
    requires Reaches(Init(d, 1, 1), before,
                     At(d, 0, latch, swept, {}, false, Worker(Cleared(COMMAND, 0, 0, false), [])))
    ensures Reaches(Init(d, 1, 1), run, At(d, 0, latch, swept, {0}, true, Worker(Waiting(COMMAND, 1), [0])))
  {
    var s := At(d, 0, latch, swept, {}, false, Worker(Cleared(COMMAND, 0, 0, false), []));
    Then(Init(d, 1, 1), before, s, Act(0, Spawn(true)));
    run := before + [Act(0, Spawn(true))];
    assert Apply(s, Act(0, Spawn(true))) == At(d, 0, latch, swept, {}, true, Worker(Unpublished(COMMAND, 0, 0, 0), []));
    s := Apply(s, Act(0, Spawn(true)));
    Then(Init(d, 1, 1), run, s, Act(0, Insert));
    run := run + [Act(0, Insert)];
    assert s.sh.pids + {0} == {0} && s.workers[0].live + [0] == [0];
    assert Apply(s, Act(0, Insert)) == At(d, 0, latch, swept, {0}, true, Worker(Published(COMMAND, 0, 0, 0), [0]));
    s := Apply(s, Act(0, Insert));
    Then(Init(d, 1, 1), run, s, Act(0, Reread));
    run := run + [Act(0, Reread)];
  }

  // Without the second look: the check passes, the latch is set and the sweep runs, then the child appears.
  lemma SweepAloneMissesAChild() returns (run: seq<Action>)
    ensures IsRun(Init(Design(false, true), 1, 1), run) && Missed(Exec(Init(Design(false, true), 1, 1), run), 0, 0)
  {
    var d, k := Design(false, true), Worker(Cleared(COMMAND, 0, 0, false), []);
    run := FirstLook(d);
    Then(Init(d, 1, 1), run, At(d, 0, false, false, {}, false, k), StoreLatch);
    run := run + [StoreLatch];
    Then(Init(d, 1, 1), run, At(d, 0, true, false, {}, false, k), Sweep);
    run := run + [Sweep];
    var nobody: set<Pid> := {};
    assert nobody + nobody == nobody;
    run := Register(d, run, true, true);
  }

  // Without the sweep: the child is fully registered before the latch is set.
  lemma RereadAloneMissesAChild() returns (run: seq<Action>)
    ensures IsRun(Init(Design(true, false), 1, 1), run) && Missed(Exec(Init(Design(true, false), 1, 1), run), 0, 0)
  {
    var d, k := Design(true, false), Worker(Waiting(COMMAND, 1), [0]);
    run := FirstLook(d);
    run := Register(d, run, false, false);
    Then(Init(d, 1, 1), run, At(d, 0, false, false, {0}, true, k), StoreLatch);
    run := run + [StoreLatch];
    Then(Init(d, 1, 1), run, At(d, 0, true, false, {0}, true, k), Sweep);
    run := run + [Sweep];
  }

  // ---------------------------------------------------------------- the two functions as code

  // The globals, with the steps of other threads made explicit between the atomic steps of one.
  class Registry {
    var pids: set<Pid>
    var cancelled: bool
    var signalled: set<Pid>
    ghost var swept: bool

    constructor ()
      ensures pids == {} && !cancelled && signalled == {} && !swept
    {
      pids, cancelled, signalled, swept := {}, false, {}, false;
    }

    // Any steps of the other threads. They list and unlist only their own children, never `mine`; the
    // latch only goes up, and a sweep that returns has signalled whatever was listed when it ran.
    method Interfere(mine: set<Pid>)
      requires swept ==> cancelled
      modifies this
      ensures (old(cancelled) ==> cancelled) && (old(swept) ==> swept) && (swept ==> cancelled)
      ensures forall p :: p in mine ==> (p in pids <==> p in old(pids))
      ensures old(signalled) <= signalled
      ensures swept && !old(swept) ==> forall p :: p in mine && p in pids ==> p in signalled
    {
      var others: set<Pid>, hit: set<Pid> := *, *;
      pids, signalled := (pids * mine) + (others - mine), signalled + hit;
      if * {
        cancelled := true;
        if * {
          signalled, swept := signalled + pids, true;
        }
      }
    }

    // Nothing is signalled before the latch is set.
    method SignalBackgroundPid(pid: Pid)
      requires cancelled
      modifies this`signalled
      ensures signalled == old(signalled) + {pid}
    {
      signalled := signalled + {pid};
    }

    // Lists a fresh child. Whatever the other threads do meanwhile, once a sweep has returned the child
    // has its signal.
    method TrackIfCancellable(pid: Pid, foreground: bool, uninterruptible: bool) returns (guarded: bool)
      requires swept ==> cancelled
      modifies this
      ensures guarded <==> !foreground && !uninterruptible
      ensures guarded ==> pid in pids && (swept ==> pid in signalled)
      ensures !guarded ==> pids == old(pids) && signalled == old(signalled)
    {
      guarded := !foreground && !uninterruptible;
      if guarded {
        pids := pids + {pid};
        Interfere({pid});
        var seen := cancelled;
        Interfere({pid});
        if seen {
          SignalBackgroundPid(pid);
          Interfere({pid});
        }
      }
    }

    // Sets the latch, then signals every listed child under the lock.
    method CancelBackgroundCommands()
      requires swept ==> cancelled
      modifies this
      ensures cancelled && swept && pids <= signalled && old(signalled) <= signalled
    {
      cancelled := true;
      Interfere({});
      var left := pids;
      while left != {}
        invariant left <= pids && pids - left <= signalled
        invariant cancelled && old(signalled) <= signalled
        modifies this`signalled
        decreases left
      {
        var pid :| pid in left;
        SignalBackgroundPid(pid);
        left := left - {pid};
      }
      swept := true;
    }
  }
}
