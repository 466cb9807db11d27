/** The copy's changes to its destination: each directory is checked, then made; then come the leaves, whose calls
    interleave. */
module ContainedCopy {
  import opened Common
  import opened Containment
  import opened SequentialPass
  import opened ParallelPass
  import opened PassRaces

  datatype Mkdir = MadeDir | MissingParent | OtherFailure

  // Directories have been made within the root, or on the way to it, and the root is still where it was.
  ghost predicate Made(was: Fs, now: Fs, root: Path, place: Place) {
    Keeps(was, now) && OnlyTheWayTo(was, now, place) && RootAt(now, root, place)
  }

  ghost predicate FirstWithin(fs: Fs, dirs: seq<Path>, n: nat, place: Place)
    requires n <= |dirs|
  {
    forall j :: 0 <= j < n ==> DirWithin(fs, dirs[j], place)
  }

  class Destination {
    var fs: Fs

    // `mkdir`: it follows links to the parent, and never one that has the name itself.
    method Mkdir(path: Path) returns (r: Mkdir)
      requires WellFormed(fs) && NoUp(path)
      modifies this
      ensures WellFormed(fs)
      ensures r.MadeDir? ==> path != [] && MadeLast(old(fs), fs, path)
      ensures !r.MadeDir? ==> fs == old(fs)
      ensures r.MissingParent? ==> path != [] && Canonicalize(fs, path).None?
    {
      if path == [] {
        return OtherFailure;
      }
      var parent, name := path[..|path| - 1], path[|path| - 1].name;
      assert parent + [path[|path| - 1]] == path;
      match Canonicalize(fs, parent) {
        case None =>
          // Loops of links and files in the way are other failures.
          var notFound: bool := *;
          NoParentNoChild(fs, path);
          r := if notFound then MissingParent else OtherFailure;
        case Some(place) =>
          var refused: bool := *;
          if refused || fs[place] != Dir || place + [name] in fs {
            return OtherFailure;
          }
          MadeAtParent(fs, parent, name, place);
          OneMoreName(fs, path);
          fs := fs[place + [name] := Dir];
          r := MadeDir;
      }
    }

    method CreateDirAll(path: Path) returns (ok: bool)
      requires WellFormed(fs) && NoUp(path)
      modifies this
      ensures WellFormed(fs) && Grew(old(fs), fs, path)
      ensures ok ==> Canonicalize(fs, path) == Some(Target(old(fs), path)) && fs[Target(old(fs), path)] == Dir
      decreases |path|
    {
      ghost var was := fs;
      var r := Mkdir(path);
      match r {
        case MadeDir =>
          MadeLastGrew(was, fs, path);
          return true;
        case OtherFailure =>
          ok := Canonicalize(fs, path).Some? && fs[Canonicalize(fs, path).value] == Dir;
          if ok {
            ExistingIsTarget(fs, path);
          }
          return;
        case MissingParent =>
      }
      ok := CreateDirAll(path[..|path| - 1]);
      GrewOneName(was, fs, path);
      if !ok {
        return;
      }
      // The parent is new and empty, so a second refusal stands.
      ghost var between := fs;
      r := Mkdir(path);
      if r.MadeDir? {
        ThenMadeLast(was, between, fs, path);
      }
      ok := r.MadeDir?;
    }

    method EnsureWithin(path: Path, root: Path) returns (ok: bool)
      ensures ok <==> Canonical(fs, root) <= Canonical(fs, path)
    {
      var canonicalRoot := ResolveWithParents(fs, root);
      var canonicalPath := ResolveWithParents(fs, path);
      ok := canonicalRoot <= canonicalPath;
    }

    // The directories of the walk, each checked just before it is made. Nothing changes outside the root
    // but for directories made on the way to it, which an existing root has none of, and every directory
    // made or found lies within.
    method MakeDirs(dirs: seq<Path>, root: Path, ghost place: Place) returns (ok: bool)
      requires WellFormed(fs) && RootAt(fs, root, place)
      requires forall dir :: dir in dirs ==> NoUp(dir)
      modifies this
      ensures WellFormed(fs) && Keeps(old(fs), fs) && OnlyTheWayTo(old(fs), fs, place)
      ensures place in old(fs) ==> SameOutside(old(fs), fs, place)
      ensures ok ==> forall dir :: dir in dirs ==> DirWithin(fs, dir, place)
    {
      ok := MakeEach(dirs, root, place);
      if place in old(fs) {
        NoWayToMake(old(fs), fs, place);
      }
    }

    method MakeEach(dirs: seq<Path>, root: Path, ghost place: Place) returns (ok: bool)
      requires WellFormed(fs) && RootAt(fs, root, place)
      requires forall dir :: dir in dirs ==> NoUp(dir)
      modifies this
      ensures WellFormed(fs) && Made(old(fs), fs, root, place)
      ensures ok ==> FirstWithin(fs, dirs, |dirs|, place)
    {
      var i := 0;
      while i < |dirs|
        invariant 0 <= i <= |dirs| && WellFormed(fs) && Made(old(fs), fs, root, place)
        invariant FirstWithin(fs, dirs, i, place)
      {
        ghost var before := fs;
        ok := MakeDir(dirs, i, root, place);
        MadeTwice(old(fs), before, fs, root, place);
        if !ok {
          return;
        }
        i := i + 1;
      }
      ok := true;
    }

    method MakeDir(dirs: seq<Path>, i: nat, root: Path, ghost place: Place) returns (ok: bool)
      requires i < |dirs| && WellFormed(fs) && RootAt(fs, root, place) && NoUp(dirs[i])
      requires FirstWithin(fs, dirs, i, place)
      modifies this
      ensures WellFormed(fs) && Made(old(fs), fs, root, place)
      ensures ok ==> FirstWithin(fs, dirs, i + 1, place)
    {
      var dir := dirs[i];
      ok := EnsureWithin(dir, root);
      if !ok {
        return;
      }
      ghost var was := fs;
      ok := CreateDirAll(dir);
      GrewOnTheWay(was, fs, dir, root, place);
      DirsStay(was, fs, dirs, i, place);
    }

    // The leaves' calls in whatever order the threads come to make them, and with whatever answers. Once a leaf
    // has failed the pass may end at any time.
    method CopyLeaves(leaves: seq<Leaf>, force: bool) returns (pcs: seq<Pc>, ghost run: seq<Step>)
      modifies this
      ensures IsRun(Job(leaves, force), Init(old(fs), Job(leaves, force)), run) && Own(run)
      ensures Exec(Job(leaves, force), Init(old(fs), Job(leaves, force)), run) == State(fs, pcs)
      ensures |pcs| == |leaves| && (NoneFailed(State(fs, pcs)) ==> AllFinished(State(fs, pcs)))
    {
      ghost var job, start := Job(leaves, force), Init(fs, Job(leaves, force));
      pcs, run := seq(|leaves|, _ => Start), [];
      var failed := false;
      while true
        invariant |pcs| == |leaves| && Own(run) && IsRun(job, start, run) && Exec(job, start, run) == State(fs, pcs)
        invariant failed ==> !NoneFailed(State(fs, pcs))
        decreases Work(pcs)
      {
        var stop: bool := *;
        if (failed && stop) || forall i :: 0 <= i < |pcs| ==> pcs[i].Finished? {
          return;
        }
        var i :| 0 <= i < |pcs| && !pcs[i].Finished?;
        var turn: Turn := *;
        if !MayTurn(fs, leaves[i], pcs[i], turn) {
          turn := Goes;
        }
        var next := CallOf(fs, leaves[i], force, pcs[i], turn);
        OneMore(job, start, run, Call(i, turn));
        CallDoesWork(fs, leaves[i], force, pcs[i], turn);
        WorkUpdate(pcs, i, next.pc);
        StillFailed(fs, pcs, next.fs, i, next.pc);
        fs, pcs, run := next.fs, pcs[i := next.pc], run + [Call(i, turn)];
        failed := failed || next.pc == Finished(Failed);
      }
    }

    // A whole copy. `made` is the destination once its directories are made. Wherever the copy stops, and
    // whatever fails, nothing outside the root has changed but for what was made on the way to it, if in `made`
    // the leaves are tame; and if they are apart, a copy without a failure has put every leaf in its place.
    method CopyInto(dirs: seq<Path>, leaves: seq<Leaf>, root: Path, force: bool)
      returns (ok: bool, pcs: seq<Pc>, ghost made: Fs, ghost place: Place)
      requires WellFormed(fs) && (Canonicalize(fs, root).Some? || NoUp(root))
      requires forall dir :: dir in dirs ==> NoUp(dir)
      requires forall leaf :: leaf in leaves ==> leaf.node != Dir && leaf.dir in dirs
      modifies this
      ensures RootAt(old(fs), root, place)
      ensures WellFormed(made) && Keeps(old(fs), made) && OnlyTheWayTo(old(fs), made, place)
      ensures place in old(fs) ==> SameOutside(old(fs), made, place)
      ensures Tame(made, Job(leaves, force)) ==> SameOutside(made, fs, place) && (!force ==> Keeps(made, fs))
      ensures ok ==> forall leaf :: leaf in leaves ==> place <= PlaceOf(made, leaf)
      ensures ok && Apart(made, Job(leaves, force)) ==> EndsAsDue(made, Job(leaves, force), State(fs, pcs))
    {
      pcs := [];
      place := RootHasAPlace(fs, root);
      ok := MakeDirs(dirs, root, place);
      made := fs;
      if !ok {
        return;
      }
      assert forall leaf :: leaf in leaves ==> DirWithin(made, leaf.dir, place);
      ghost var run;
      pcs, run := CopyLeaves(leaves, force);
      ok := forall i :: 0 <= i < |pcs| ==> pcs[i] != Finished(Failed);
      CopiedWithin(made, Job(leaves, force), run, place);
    }
  }

  lemma StillFailed(fs: Fs, pcs: seq<Pc>, next: Fs, i: nat, pc: Pc)
    requires i < |pcs| && !pcs[i].Finished?
    ensures !NoneFailed(State(fs, pcs)) || pc == Finished(Failed) ==> !NoneFailed(State(next, pcs[i := pc]))
  {
    if j :| 0 <= j < |pcs| && pcs[j] == Finished(Failed) {
      assert pcs[i := pc][j] == Finished(Failed);
    }
    assert pcs[i := pc][i] == pc;
  }

  lemma CopiedWithin(made: Fs, job: Job, run: seq<Step>, place: Place)
    requires WellFormed(made) && IsRun(job, Init(made, job), run) && Own(run)
    requires forall leaf :: leaf in job.leaves ==> leaf.node != Dir && DirWithin(made, leaf.dir, place)
    ensures var s := Exec(job, Init(made, job), run);
      && (Tame(made, job) ==> SameOutside(made, s.fs, place) && (!job.force ==> Keeps(made, s.fs)))
      && (Apart(made, job) && AllFinished(s) && NoneFailed(s) ==> EndsAsDue(made, job, s))
    ensures forall leaf :: leaf in job.leaves ==> place <= PlaceOf(made, leaf)
  {
    if Tame(made, job) {
      TamePassStaysWithin(made, job, run, place);
    }
    var s := Exec(job, Init(made, job), run);
    if Apart(made, job) && AllFinished(s) && NoneFailed(s) {
      EveryRunEndsAsEveryOrder(made, job, run, job.leaves);
    }
  }

  lemma MadeTwice(a: Fs, b: Fs, c: Fs, root: Path, place: Place)
    requires Made(a, b, root, place) && Made(b, c, root, place)
    ensures Made(a, c, root, place)
  {
  }
}
