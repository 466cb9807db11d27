/** What the parallel pass comes to: that it ends, that its runs end as the leaves taken one after another do, and
    the runs in which leaves get in each other's way. */
module PassRaces {
  import opened Common
  import opened Containment
  import opened SequentialPass
  import opened ParallelPass
  import F = FixedPlaces

  // ---------------------------------------------------------------- every run ends

  function Rank(pc: Pc): nat {
    match pc
    case Start => 5
    case Ready(_) => 4
    case Library(_) => 3
    case NewFile(_) => 2
    case Setting => 1
    case Finished(_) => 0
  }

  function Work(pcs: seq<Pc>): nat {
    if pcs == [] then 0 else Rank(pcs[0]) + Work(pcs[1..])
  }

  lemma {:induction false} WorkUpdate(pcs: seq<Pc>, i: nat, pc: Pc)
    requires i < |pcs|
    ensures Work(pcs[i := pc]) + Rank(pcs[i]) == Work(pcs) + Rank(pc)
  {
    var next := pcs[i := pc];
    if i == 0 {
      assert next[1..] == pcs[1..];
    } else {
      WorkUpdate(pcs[1..], i - 1, pc);
      assert next[1..] == pcs[1..][i - 1 := pc];
    }
  }

  lemma CallDoesWork(fs: Fs, leaf: Leaf, force: bool, pc: Pc, turn: Turn)
    requires !pc.Finished? && MayTurn(fs, leaf, pc, turn)
    ensures Rank(CallOf(fs, leaf, force, pc, turn).pc) < Rank(pc)
  {
  }

  // However the calls fall, the pass makes at most five for each leaf.
  lemma {:induction false} PassEnds(fs: Fs, job: Job, run: seq<Step>)
    requires IsRun(job, Init(fs, job), run) && Own(run)
    ensures Work(Exec(job, Init(fs, job), run).pcs) + |run| <= 5 * |job.leaves|
    ensures |Exec(job, Init(fs, job), run).pcs| == |job.leaves|
    decreases |run|
  {
    if run == [] {
      AllToDo(Init(fs, job).pcs);
    } else {
      var front, last := run[..|run| - 1], run[|run| - 1];
      OneLess(job, Init(fs, job), run);
      PassEnds(fs, job, front);
      var s := Exec(job, Init(fs, job), front);
      CallDoesWork(s.fs, job.leaves[last.i], job.force, s.pcs[last.i], last.turn);
      WorkUpdate(s.pcs, last.i, CallOf(s.fs, job.leaves[last.i], job.force, s.pcs[last.i], last.turn).pc);
    }
  }

  lemma {:induction false} AllToDo(pcs: seq<Pc>)
    requires forall pc :: pc in pcs ==> pc.Start?
    ensures Work(pcs) == 5 * |pcs|
  {
    if pcs != [] {
      assert pcs[0] in pcs && forall pc :: pc in pcs[1..] ==> pc in pcs;
      AllToDo(pcs[1..]);
    }
  }

  // A run goes on to its end; a leaf that has finished stays as it is.
  lemma {:induction false} Completed(fs: Fs, job: Job, run: seq<Step>, s: State) returns (more: seq<Step>, t: State)
    requires ComesTo(fs, job, run, s) && |s.pcs| == |job.leaves|
    ensures ComesTo(fs, job, more, t) && |t.pcs| == |job.leaves| && AllFinished(t)
    ensures forall i :: 0 <= i < |s.pcs| && s.pcs[i].Finished? ==> t.pcs[i] == s.pcs[i]
    decreases Work(s.pcs)
  {
    if i :| 0 <= i < |s.pcs| && !s.pcs[i].Finished? {
      var next := Apply(job, s, Call(i, Goes));
      more := Further(fs, job, run, s, i, Goes);
      CallDoesWork(s.fs, job.leaves[i], job.force, s.pcs[i], Goes);
      WorkUpdate(s.pcs, i, next.pcs[i]);
      more, t := Completed(fs, job, more, next);
    } else {
      more, t := run, s;
    }
  }

  // ---------------------------------------------------------------- one end

  ghost predicate EndsAsDue(fs: Fs, job: Job, s: State) {
    && |s.pcs| == |job.leaves| && s.fs == Over(fs, job.leaves, job.force)
    && forall i :: 0 <= i < |s.pcs| ==> s.pcs[i] == Finished(Due(fs, job, i))
  }

  ghost predicate EveryRunEndsAsDue(fs: Fs, job: Job) {
    forall run :: IsRun(job, Init(fs, job), run) && Own(run) && Calm(run) && AllFinished(Exec(job, Init(fs, job), run))
      ==> EndsAsDue(fs, job, Exec(job, Init(fs, job), run))
  }

  // All complete runs end in one state, every leaf copied that can be, exactly when the leaves are apart.
  lemma EveryRunEndsAsDueExactlyWhenApart(fs: Fs, job: Job)
    requires Usable(fs, job.leaves)
    ensures EveryRunEndsAsDue(fs, job) <==> Apart(fs, job)
  {
    if Apart(fs, job) {
      forall run | IsRun(job, Init(fs, job), run) && Own(run) && Calm(run) && AllFinished(Exec(job, Init(fs, job), run))
        ensures EndsAsDue(fs, job, Exec(job, Init(fs, job), run))
      {
        RunIsDue(fs, job, true, run);
        DueEnds(fs, job, true, Exec(job, Init(fs, job), run));
      }
    } else {
      var run, s := NotApart(fs, job);
      var i :| 0 <= i < |s.pcs| && s.pcs[i].Finished? && s.pcs[i].outcome != Due(fs, job, i);
      var more, t := Completed(fs, job, run, s);
      assert t.pcs[i] == s.pcs[i];
    }
  }

  lemma OverIsKept(fs: Fs, job: Job, front: seq<Leaf>, i: nat)
    requires Usable(fs, job.leaves) && Apart(fs, job) && i < |job.leaves| && Kept(fs, job, Over(fs, front, job.force))
    ensures Kept(fs, job, Over(fs, front + [job.leaves[i]], job.force))
    ensures Put(Over(fs, front, job.force), job.leaves[i], job.force)
      == Some(Over(fs, front + [job.leaves[i]], job.force))
  {
    var g, leaf := Over(fs, front, job.force), job.leaves[i];
    assert leaf in job.leaves && IsPlace(fs, job, LeafPlace(fs, job, i));
    assert !Blocked(fs, job.leaves[i], job.force);
    OverPush(fs, front, leaf, job.force);
    KeptLeads(fs, job, g, i);
    if LeafPlace(fs, job, i) in g ==> job.force && g[LeafPlace(fs, job, i)] != Dir {
      CouldPut(fs, job, g, LeafPlace(fs, job, i));
    }
    assert !Changed(fs, g, LeafPlace(fs, job, i)) || CanPut(fs, job.force, LeafPlace(fs, job, i));
    KeptStep(fs, job, g, Over(fs, front + [leaf], job.force), LeafPlace(fs, job, i));
  }

  // Taken one after another, in any order, the leaves come to their own places.
  lemma {:induction false} OrderIsOver(fs: Fs, job: Job, done: seq<Leaf>)
    requires Usable(fs, job.leaves) && Apart(fs, job) && forall leaf :: leaf in done ==> leaf in job.leaves
    ensures Kept(fs, job, Over(fs, done, job.force))
    ensures RunPass(fs, done, job.force) == Some(Over(fs, done, job.force))
    decreases |done|
  {
    if done == [] {
      assert Fixed(fs, done) == [];
    } else {
      var front, last := done[..|done| - 1], done[|done| - 1];
      assert done == front + [last] && last in done && forall leaf :: leaf in front ==> leaf in done;
      OrderIsOver(fs, job, front);
      var i :| 0 <= i < |job.leaves| && job.leaves[i] == last;
      OverIsKept(fs, job, front, i);
      RunPassPush(fs, front, last, job.force);
    }
  }

  lemma SameFixed(fs: Fs, a: seq<Leaf>, b: seq<Leaf>)
    requires forall leaf :: leaf in a ==> leaf in b
    ensures forall x :: x in Fixed(fs, a) ==> x in Fixed(fs, b)
  {
    forall x | x in Fixed(fs, a)
      ensures x in Fixed(fs, b)
    {
      var i :| 0 <= i < |a| && Fixed(fs, a)[i] == x;
      assert a[i] in b;
      var j :| 0 <= j < |b| && b[j] == a[i];
      assert Fixed(fs, b)[j] == x;
    }
  }

  lemma OverReordered(fs: Fs, job: Job, order: seq<Leaf>)
    requires Apart(fs, job) && Reordered(job.leaves, order)
    ensures Over(fs, order, job.force) == Over(fs, job.leaves, job.force)
  {
    var a, b := Fixed(fs, job.leaves), Fixed(fs, order);
    PartOf(job.leaves, order);
    PartOf(order, job.leaves);
    SameFixed(fs, job.leaves, order);
    SameFixed(fs, order, job.leaves);
    FixedAgrees(fs, job);
    F.AgreeReordered(fs, a, b, job.force);
    F.AgreeingLeavesSettle(fs, a, job.force);
    F.AgreeingLeavesSettle(fs, b, job.force);
    F.SettledOnce(fs, a, b, job.force, Over(fs, job.leaves, job.force), Over(fs, order, job.force));
  }

  // Leaves that are apart: however the threads' calls interleave, a run in which none fails ends as the leaves
  // taken one after another do, in whatever order.
  lemma EveryRunEndsAsEveryOrder(fs: Fs, job: Job, run: seq<Step>, order: seq<Leaf>)
    requires Usable(fs, job.leaves) && Apart(fs, job) && Reordered(job.leaves, order)
    requires IsRun(job, Init(fs, job), run) && Own(run)
    requires AllFinished(Exec(job, Init(fs, job), run)) && NoneFailed(Exec(job, Init(fs, job), run))
    ensures RunPass(fs, order, job.force) == Some(Exec(job, Init(fs, job), run).fs)
    ensures EndsAsDue(fs, job, Exec(job, Init(fs, job), run))
  {
    RunIsDue(fs, job, false, run);
    DueEnds(fs, job, false, Exec(job, Init(fs, job), run));
    PartOf(order, job.leaves);
    OrderIsOver(fs, job, order);
    OverReordered(fs, job, order);
  }

  // How a leaf that has lost a race ends: a file whose name is taken by then is skipped, and one whose directory is
  // gone, unless it has removed something; a link fails either way, and so does a copy that is gone when its mode
  // is to be set.
  lemma LostRaces(fs: Fs, leaf: Leaf, force: bool, removed: bool)
    requires leaf.node != Dir
    ensures leaf.node.File? && Seek(fs, leaf.dir).At? && PlaceOf(fs, leaf) in fs ==>
      && CallOf(fs, leaf, force, Ready(removed), Goes) == Next(fs, Finished(Skipped))
      && CallOf(fs, leaf, force, NewFile(removed), Goes) == Next(fs, Finished(Skipped))
    ensures leaf.node.File? && Seek(fs, leaf.dir) == NoEntry ==>
      && CallOf(fs, leaf, force, Ready(removed), Goes) == Next(fs, Finished(if removed then Failed else Skipped))
      && CallOf(fs, leaf, force, NewFile(removed), Goes) == Next(fs, Finished(if removed then Failed else Skipped))
    ensures leaf.node.Link? ==>
      Seek(fs, leaf.dir) == NoEntry || (Seek(fs, leaf.dir).At? && PlaceOf(fs, leaf) in fs) ==>
      CallOf(fs, leaf, force, Ready(removed), Goes) == Next(fs, Finished(Failed))
    ensures Seek(fs, leaf.dir).At? && PlaceOf(fs, leaf) !in fs ==>
      CallOf(fs, leaf, force, Setting, Goes) == Next(fs, Finished(Failed))
  {
    if Seek(fs, leaf.dir).At? && PlaceOf(fs, leaf) !in fs {
      HomeCall(fs, leaf, force, Setting, Goes);
    }
  }

  // ---------------------------------------------------------------- a destination without links on the way

  lemma {:induction false} PlainHead(path: Path)
    requires NoUp(path) && path != []
    ensures Plain(path) == [path[0].name] + Plain(path[1..])
    decreases |path|
  {
    var front := path[..|path| - 1];
    if front != [] {
      PlainHead(front);
      assert front[1..] == path[1..][..|path| - 2];
    }
  }

  // A path that goes through no link leads where it says.
  lemma {:induction false} ResolvesPlainly(fs: Fs, at: Place, path: Path, links: nat)
    requires NoUp(path) && LinksUsed(fs, at, path, links) == {} && Resolve(fs, at, path, links).Some?
    ensures Resolve(fs, at, path, links).value.place == at + Plain(path)
    decreases |path|
  {
    if path != [] {
      var child := at + [path[0].name];
      PlainHead(path);
      ResolvesPlainly(fs, child, path[1..], links);
      Regroup(at, [path[0].name], Plain(path[1..]));
    }
  }

  lemma PlainOnce(a: Path, b: Path)
    requires NoUp(a) && NoUp(b) && Plain(a) == Plain(b)
    ensures a == b
  {
    NamesPlain([], a);
    NamesPlain([], b);
    assert Names([]) == [] && [] + a == a && [] + b == b && [] + Plain(a) == Plain(a) && [] + Plain(b) == Plain(b);
  }

  lemma SameEnd(a: Place, x: string, b: Place, y: string)
    ensures a + [x] == b + [y] ==> a == b && x == y
  {
    assert (a + [x])[..|a|] == a && (b + [y])[..|b|] == b && (a + [x])[|a|] == x && (b + [y])[|b|] == y;
  }

  ghost predicate ReachedPlainly(fs: Fs, leaf: Leaf) {
    NoUp(leaf.dir) && LinksUsed(fs, [], leaf.dir, MAX_LINKS) == {}
  }

  lemma PlacesDiffer(fs: Fs, x: Leaf, y: Leaf)
    requires Usable(fs, [x, y]) && ReachedPlainly(fs, x) && ReachedPlainly(fs, y) && FullPath(x) != FullPath(y)
    ensures PlaceOf(fs, x) != PlaceOf(fs, y)
  {
    assert x in [x, y] && y in [x, y];
    ResolvesPlainly(fs, [], x.dir, MAX_LINKS);
    ResolvesPlainly(fs, [], y.dir, MAX_LINKS);
    SameEnd(Plain(x.dir), x.name, Plain(y.dir), y.name);
    assert [] + Plain(x.dir) == Plain(x.dir) && [] + Plain(y.dir) == Plain(y.dir);
    if Plain(x.dir) == Plain(y.dir) {
      PlainOnce(x.dir, y.dir);
    }
  }

  // Where no directory of the destination is reached through a link, leaves of different paths are apart, as long
  // as `force` finds no directory in a leaf's place.
  lemma DistinctPathsAreApart(fs: Fs, job: Job)
    requires Usable(fs, job.leaves) && (forall leaf :: leaf in job.leaves ==> ReachedPlainly(fs, leaf))
    requires forall i, j :: 0 <= i < j < |job.leaves| ==> FullPath(job.leaves[i]) != FullPath(job.leaves[j])
    ensures Apart(fs, job) <==> forall leaf :: leaf in job.leaves ==> !Blocked(fs, leaf, job.force)
  {
    forall i, j | 0 <= i < j < |job.leaves|
      ensures LeafPlace(fs, job, i) != LeafPlace(fs, job, j)
    {
      assert job.leaves[i] in job.leaves && job.leaves[j] in job.leaves;
      PlacesDiffer(fs, job.leaves[i], job.leaves[j]);
    }
    forall j | 0 <= j < |job.leaves|
      ensures LinksUsed(fs, [], job.leaves[j].dir, MAX_LINKS) == {}
    {
      assert job.leaves[j] in job.leaves;
    }
  }

  // ---------------------------------------------------------------- a byte copy through another leaf's link

  // A file and a link for one place that can be had: the file's clone is refused, the link is put there, and the
  // byte copy writes to wherever it leads.
  lemma WritesThroughTheLink(fs: Fs, job: Job, i: nat, j: nat, out: Place) returns (run: seq<Step>, s: State)
    requires Usable(fs, job.leaves) && WaysClear(fs, job) && i < |job.leaves| && j < |job.leaves|
    requires job.leaves[i].node.Link? && job.leaves[j].node.File? && LeafPlace(fs, job, i) == LeafPlace(fs, job, j)
    requires CanPut(fs, job.force, LeafPlace(fs, job, i))
    requires Open(fs[LeafPlace(fs, job, i) := job.leaves[i].node], [], FullPath(job.leaves[j]), MAX_LINKS) == Opens(out)
    ensures ComesTo(fs, job, run, s)
    ensures s.fs == fs[LeafPlace(fs, job, i) := job.leaves[i].node][out := job.leaves[j].node]
  {
    run, s := LinkUnderTheByteCopy(fs, job, i, j);
    run := Further(fs, job, run, s, j, Goes);
    s := Apply(job, s, Call(j, Goes));
  }

  // So where that is outside the root, the pass can leave it, whatever it checked before.
  lemma LinkAndFileCanLeaveTheRoot(fs: Fs, job: Job, i: nat, j: nat, out: Place, root: Place)
    returns (run: seq<Step>, s: State)
    requires Usable(fs, job.leaves) && WaysClear(fs, job) && i < |job.leaves| && j < |job.leaves|
    requires job.leaves[i].node.Link? && job.leaves[j].node.File? && LeafPlace(fs, job, i) == LeafPlace(fs, job, j)
    requires CanPut(fs, job.force, LeafPlace(fs, job, i))
    requires Open(fs[LeafPlace(fs, job, i) := job.leaves[i].node], [], FullPath(job.leaves[j]), MAX_LINKS) == Opens(out)
    requires !(root <= out) && (out in fs ==> fs[out] != job.leaves[j].node)
    ensures ComesTo(fs, job, run, s) && !SameOutside(fs, s.fs, root)
  {
    run, s := WritesThroughTheLink(fs, job, i, j, out);
    assert s.fs[out] == job.leaves[j].node;
  }

  // Within "R", `b` leads to the directory `a`.
  const SHARED: Fs := map[
    [] := Dir, ["out"] := Dir, ["out", "x"] := File("old"), ["R"] := Dir, ["R", "a"] := Dir,
    ["R", "b"] := Link(false, [Name("a")])]

  const A: Path := [Name("R"), Name("a")]
  const B: Path := [Name("R"), Name("b")]

  const LINK_TO_X := Link(true, [Name("out"), Name("x")])

  lemma ThroughName(fs: Fs, at: Place, name: string, rest: Path, links: nat)
    requires at in fs && fs[at] == Dir && at + [name] in fs && !fs[at + [name]].Link?
    ensures Resolve(fs, at, [Name(name)] + rest, links) == Resolve(fs, at + [name], rest, links)
    ensures fs[at + [name]] == Dir ==>
      Open(fs, at, [Name(name)] + rest, links) == Open(fs, at + [name], rest, links)
  {
    assert ([Name(name)] + rest)[1..] == rest;
  }

  lemma ThroughLink(fs: Fs, at: Place, name: string, rest: Path, links: nat)
    requires at in fs && fs[at] == Dir && at + [name] in fs && fs[at + [name]].Link? && links > 0
    ensures var link := fs[at + [name]];
      && Resolve(fs, at, [Name(name)] + rest, links)
           == Resolve(fs, if link.absolute then [] else at, link.target + rest, links - 1)
      && Open(fs, at, [Name(name)] + rest, links)
           == Open(fs, if link.absolute then [] else at, link.target + rest, links - 1)
  {
    assert ([Name(name)] + rest)[1..] == rest;
  }

  ghost predicate DirAt(fs: Fs, place: Place) {
    place in fs && fs[place] == Dir
  }

  // As in `SHARED`, whatever else there is.
  ghost predicate HasAAndB(fs: Fs) {
    && DirAt(fs, []) && DirAt(fs, ["R"]) && DirAt(fs, ["R", "a"])
    && ["R", "b"] in fs && fs[["R", "b"]] == Link(false, [Name("a")])
  }

  lemma ResolvesA(fs: Fs)
    requires HasAAndB(fs)
    ensures Resolve(fs, [], A, MAX_LINKS) == Some(Reached(["R", "a"], MAX_LINKS))
  {
    assert [] + ["R"] == ["R"] && ["R"] + ["a"] == ["R", "a"];
    assert A == [Name("R")] + ([Name("a")] + []);
    ThroughName(fs, [], "R", [Name("a")] + [], MAX_LINKS);
    ThroughName(fs, ["R"], "a", [], MAX_LINKS);
  }

  lemma ResolvesB(fs: Fs)
    requires HasAAndB(fs)
    ensures Resolve(fs, [], B, MAX_LINKS) == Some(Reached(["R", "a"], MAX_LINKS - 1))
  {
    assert [] + ["R"] == ["R"] && ["R"] + ["a"] == ["R", "a"] && ["R"] + ["b"] == ["R", "b"];
    assert B == [Name("R")] + ([Name("b")] + []);
    ThroughName(fs, [], "R", [Name("b")] + [], MAX_LINKS);
    ThroughLink(fs, ["R"], "b", [], MAX_LINKS);
    assert [Name("a")] + [] == [Name("a")];
    ThroughName(fs, ["R"], "a", [], MAX_LINKS - 1);
  }

  lemma SharedIsWellFormed()
    ensures WellFormed(SHARED)
  {
    assert Parent(["out"]) == [] && Parent(["R"]) == [] && Parent(["out", "x"]) == ["out"];
    assert Parent(["R", "a"]) == ["R"] && Parent(["R", "b"]) == ["R"];
  }

  lemma SharedDirs()
    ensures WellFormed(SHARED) && HasAAndB(SHARED)
    ensures Canonicalize(SHARED, A) == Some(["R", "a"]) == Canonicalize(SHARED, B)
  {
    SharedIsWellFormed();
    ResolvesA(SHARED);
    ResolvesB(SHARED);
  }

  lemma InShared(x: Leaf, y: Leaf)
    requires x.dir == A && y.dir == B && x.name == y.name && x.node != Dir && y.node != Dir
    ensures Usable(SHARED, [x, y]) && PlaceOf(SHARED, x) == ["R", "a", x.name] == PlaceOf(SHARED, y)
    ensures forall leaf :: leaf in [x, y] ==> DirWithin(SHARED, leaf.dir, ["R"])
  {
    SharedDirs();
    assert ["R", "a"] + [x.name] == ["R", "a", x.name];
  }

  lemma OpensX(fs: Fs)
    requires HasAAndB(fs) && ["R", "a", "f"] in fs && fs[["R", "a", "f"]] == LINK_TO_X
    requires DirAt(fs, ["out"]) && ["out", "x"] in fs && fs[["out", "x"]].File?
    ensures Open(fs, [], B + [Name("f")], MAX_LINKS) == Opens(["out", "x"])
  {
    ResolvesB(fs);
    OpenAppend(fs, [], B, [Name("f")], MAX_LINKS);
    assert ["R", "a"] + ["f"] == ["R", "a", "f"] && [Name("f")] == [Name("f")] + [];
    ThroughLink(fs, ["R", "a"], "f", [], MAX_LINKS - 1);
    OpensOut(fs, MAX_LINKS - 2);
  }

  lemma OpensOut(fs: Fs, links: nat)
    requires DirAt(fs, []) && DirAt(fs, ["out"]) && ["out", "x"] in fs && fs[["out", "x"]].File?
    ensures Open(fs, [], LINK_TO_X.target + [], links) == Opens(["out", "x"])
  {
    assert LINK_TO_X.target + [] == [Name("out")] + [Name("x")] && [] + ["out"] == ["out"];
    ThroughName(fs, [], "out", [Name("x")], links);
    assert ["out"] + ["x"] == ["out", "x"];
  }

  // Without `force`, and with every directory within the root: the file "out/x" is overwritten.
  lemma PassWithoutForceCanLeaveTheRoot() returns (run: seq<Step>, s: State)
    ensures var leaves := [Leaf(A, "f", LINK_TO_X), Leaf(B, "f", File("new"))];
      && Usable(SHARED, leaves) && (forall leaf :: leaf in leaves ==> DirWithin(SHARED, leaf.dir, ["R"]))
      && ComesTo(SHARED, Job(leaves, false), run, s)
      && s.fs == SHARED[["R", "a", "f"] := LINK_TO_X][["out", "x"] := File("new")]
      && !SameOutside(SHARED, s.fs, ["R"]) && !Keeps(SHARED, s.fs)
  {
    var leaves := [Leaf(A, "f", LINK_TO_X), Leaf(B, "f", File("new"))];
    InShared(leaves[0], leaves[1]);
    OpensX(SHARED[["R", "a", "f"] := LINK_TO_X]);
    run, s := WritesThroughTheLink(SHARED, Job(leaves, false), 0, 1, ["out", "x"]);
    assert s.fs[["out", "x"]] == File("new") && SHARED[["out", "x"]] == File("old");
    assert ["out", "x"][0] != ["R"][0];
  }

  // Two links that are the same, for one free place: one after another they come to one destination, and yet the
  // pass can fail.
  lemma EqualLinksCanFail() returns (run: seq<Step>, s: State)
    ensures var leaves := [Leaf(A, "f", LINK_TO_X), Leaf(B, "f", LINK_TO_X)];
      && Usable(SHARED, leaves)
      && RunPass(SHARED, leaves, false) == RunPass(SHARED, [leaves[1], leaves[0]], false)
      && RunPass(SHARED, leaves, false) == Some(SHARED[["R", "a", "f"] := LINK_TO_X])
      && ComesTo(SHARED, Job(leaves, false), run, s) && |s.pcs| == 2 && s.pcs[1] == Finished(Failed)
  {
    var x, y := Leaf(A, "f", LINK_TO_X), Leaf(B, "f", LINK_TO_X);
    InShared(x, y);
    run, s := SecondIsMissed(SHARED, Job([x, y], false), 0, 1);
    TwoOfOnePlace(SHARED, x, y);
    TwoOfOnePlace(SHARED, y, x);
  }

  lemma TwoOfOnePlace(fs: Fs, x: Leaf, y: Leaf)
    requires Usable(fs, [x, y]) && PlaceOf(fs, x) == PlaceOf(fs, y) && PlaceOf(fs, x) !in fs
    ensures RunPass(fs, [x, y], false) == Some(fs[PlaceOf(fs, x) := x.node])
  {
    var next := fs[PlaceOf(fs, x) := x.node];
    assert x in [x, y] && y in [x, y] && [x, y][1..] == [y] && [y][1..] == [];
    ResolvesAsItGrows(fs, next, [], y.dir, MAX_LINKS);
    assert Put(next, y, false) == Some(next);
    assert RunPass(next, [], false) == Some(next);
    assert RunPass(next, [y], false) == Some(next);
  }

  // ---------------------------------------------------------------- links that are replaced on the way

  // Where a link in `root` leads by way of another, `p`, which is as given.
  lemma ByWayOf(fs: Fs, root: string, p: string, q: string, link: Node, to: Place)
    requires [] in fs && fs[[]] == Dir && [root] in fs && fs[[root]] == Dir && to in fs && fs[to] == Dir && |to| > 0
    requires [root, p] in fs && fs[[root, p]] == link && link.Link? && |link.target| == 1 && link.target[0].Name?
    requires to == (if link.absolute then [] else [root]) + [link.target[0].name]
    requires [root, q] in fs && fs[[root, q]] == Link(false, [Name(p)])
    ensures Canonicalize(fs, [Name(root), Name(q)]) == Some(to)
    ensures Canonicalize(fs, [Name(root)]) == Some([root])
  {
    assert [] + [root] == [root] && [root] + [p] == [root, p] && [root] + [q] == [root, q];
    assert [Name(root)] + [Name(q)] == [Name(root), Name(q)] && [Name(root)] + [] == [Name(root)];
    ThroughName(fs, [], root, [Name(q)], MAX_LINKS);
    ThroughName(fs, [], root, [], MAX_LINKS);
    assert [Name(q)] + [] == [Name(q)] && [Name(p)] + [] == [Name(p)];
    ThroughLink(fs, [root], q, [], MAX_LINKS);
    ThroughLink(fs, [root], p, [], MAX_LINKS - 1);
    var from: Place := if link.absolute then [] else [root];
    assert link.target + [] == [Name(link.target[0].name)] + [];
    ThroughName(fs, from, link.target[0].name, [], MAX_LINKS - 2);
  }

  const LINK_TO_OUT := Link(true, [Name("out")])

  // Within "R", `q` leads to `p` and `p` to the directory `r`.
  const BEFORE: Fs := map[
    [] := Dir, ["out"] := Dir, ["R"] := Dir, ["R", "r"] := Dir,
    ["R", "p"] := Link(false, [Name("r")]), ["R", "q"] := Link(false, [Name("p")])]

  const NEW_P := Leaf([Name("R")], "p", LINK_TO_OUT)
  const NEW_F := Leaf([Name("R"), Name("q")], "f", File(""))

  lemma BeforeIsWellFormed()
    ensures WellFormed(BEFORE)
  {
    assert Parent(["out"]) == [] && Parent(["R"]) == [];
    assert Parent(["R", "r"]) == ["R"] && Parent(["R", "p"]) == ["R"] && Parent(["R", "q"]) == ["R"];
  }

  const OLD_P := Leaf([Name("R")], "p", Link(false, [Name("r")]))

  // As in `BEFORE`, whatever else there is.
  ghost predicate LikeBefore(fs: Fs) {
    && WellFormed(fs) && DirAt(fs, ["out"]) && DirAt(fs, ["R"]) && DirAt(fs, ["R", "r"])
    && ["R", "p"] in fs && fs[["R", "p"]] == OLD_P.node
    && ["R", "q"] in fs && fs[["R", "q"]] == Link(false, [Name("p")])
    && ["out", "f"] !in fs && ["R", "r", "f"] !in fs
  }

  lemma BeforeIsLikeBefore()
    ensures LikeBefore(BEFORE)
  {
    BeforeIsWellFormed();
  }

  lemma PlacesBefore(fs: Fs)
    requires LikeBefore(fs)
    ensures Canonicalize(fs, NEW_P.dir) == Some(["R"]) && Canonicalize(fs, NEW_F.dir) == Some(["R", "r"])
    ensures PlaceOf(fs, NEW_P) == ["R", "p"] == PlaceOf(fs, OLD_P) && PlaceOf(fs, NEW_F) == ["R", "r", "f"]
    ensures Usable(fs, [NEW_P, NEW_F]) && Usable(fs, [OLD_P, NEW_F])
  {
    ByWayOf(fs, "R", "p", "q", Link(false, [Name("r")]), ["R", "r"]);
    assert ["R"] + ["p"] == ["R", "p"] && ["R", "r"] + ["f"] == ["R", "r", "f"];
  }

  // A call of a leaf whose place is free, or may be freed, in whatever has become of the destination.
  lemma CallThere(fs: Fs, job: Job, run: seq<Step>, s: State, i: nat, place: Place) returns (more: seq<Step>, t: State)
    requires ComesTo(fs, job, run, s) && i < |s.pcs| == |job.leaves| && job.leaves[i].node != Dir && job.force
    requires Seek(s.fs, job.leaves[i].dir) == At(Parent(place)) && place == Parent(place) + [job.leaves[i].name]
    requires (s.pcs[i].Start? && LinkAt(s.fs, place)) || (s.pcs[i].Ready? && place !in s.fs)
      || (s.pcs[i].Start? && place !in s.fs)
    ensures ComesTo(fs, job, more, t)
    ensures t.fs == if s.pcs[i].Start? then s.fs - {place} else s.fs[place := job.leaves[i].node]
    ensures t.pcs == s.pcs[i := if s.pcs[i].Start? then Ready(place in s.fs)
      else if job.leaves[i].node.Link? then Finished(Copied) else Setting]
  {
    HomeCall(s.fs, job.leaves[i], job.force, s.pcs[i], Goes);
    t := Apply(job, s, Call(i, Goes));
    more := Further(fs, job, run, s, i, Goes);
  }

  lemma CallsThere(fs: Fs, job: Job, run: seq<Step>, s: State, i: nat, place: Place) returns (more: seq<Step>, t: State)
    requires ComesTo(fs, job, run, s) && i < |s.pcs| == |job.leaves| && job.leaves[i].node != Dir && job.force
    requires Seek(s.fs, job.leaves[i].dir) == At(Parent(place)) && place == Parent(place) + [job.leaves[i].name]
    requires Seek(s.fs - {place}, job.leaves[i].dir) == At(Parent(place))
    requires s.pcs[i].Start? && (place in s.fs ==> s.fs[place].Link?)
    ensures ComesTo(fs, job, more, t) && t.fs == s.fs[place := job.leaves[i].node]
    ensures t.pcs == s.pcs[i := if job.leaves[i].node.Link? then Finished(Copied) else Setting]
  {
    more, t := CallThere(fs, job, run, s, i, place);
    FreedAndFilled(s.fs, place, job.leaves[i].node);
    more, t := CallThere(fs, job, more, t, i, place);
  }

  lemma RootLeads(fs: Fs)
    requires DirAt(fs, []) && DirAt(fs, ["R"])
    ensures Seek(fs, [Name("R")]) == At(["R"])
  {
    assert [] + ["R"] == ["R"] && [Name("R")] == [Name("R")] + [];
    ThroughName(fs, [], "R", [], MAX_LINKS);
  }

  lemma LinkReplaced(fs: Fs, job: Job) returns (run: seq<Step>, s: State)
    requires LikeBefore(fs) && job == Job([NEW_P, NEW_F], true)
    ensures ComesTo(fs, job, run, s)
    ensures s == State(fs[["R", "p"] := LINK_TO_OUT], [Finished(Copied), Start])
  {
    PlacesBefore(fs);
    RootLeads(fs);
    RootLeads(fs - {["R", "p"]});
    run := Nothing(fs, job);
    run, s := CallsThere(fs, job, run, Init(fs, job), 0, ["R", "p"]);
  }

  lemma FileGoesOut(fs: Fs, job: Job) returns (run: seq<Step>, s: State)
    requires LikeBefore(fs) && job == Job([NEW_P, NEW_F], true)
    ensures ComesTo(fs, job, run, s) && s.fs == fs[["R", "p"] := LINK_TO_OUT][["out", "f"] := File("")]
  {
    run, s := LinkReplaced(fs, job);
    ByWayOf(s.fs, "R", "p", "q", LINK_TO_OUT, ["out"]);
    assert ["out"] + ["f"] == ["out", "f"];
    assert s.fs - {["out", "f"]} == s.fs;
    run, s := CallsThere(fs, job, run, s, 1, ["out", "f"]);
  }

  // With `force`, both directories pass the check, and the two leaves are for different places; but one replaces a
  // link on the other's way, and the file goes to "out".
  lemma ForcedPassCanLeaveTheRoot() returns (run: seq<Step>, s: State)
    ensures Usable(BEFORE, [NEW_P, NEW_F]) && PlaceOf(BEFORE, NEW_P) != PlaceOf(BEFORE, NEW_F)
    ensures forall leaf :: leaf in [NEW_P, NEW_F] ==> DirWithin(BEFORE, leaf.dir, ["R"])
    ensures ComesTo(BEFORE, Job([NEW_P, NEW_F], true), run, s) && ["out", "f"] in s.fs
    ensures !SameOutside(BEFORE, s.fs, ["R"])
  {
    BeforeIsLikeBefore();
    PlacesBefore(BEFORE);
    run, s := FileGoesOut(BEFORE, Job([NEW_P, NEW_F], true));
    assert ["out", "f"][0] != ["R"][0] && ["out", "f"] !in BEFORE;
  }

  lemma GapAtP(fs: Fs, job: Job)
    requires LikeBefore(fs) && job == Job([OLD_P, NEW_F], true)
    ensures Usable(fs, job.leaves) && LeafPlace(fs, job, 0) == ["R", "p"] && LinkAt(fs, ["R", "p"])
    ensures ["R", "p"] in LinksUsed(fs, [], job.leaves[1].dir, MAX_LINKS)
  {
    PlacesBefore(fs);
    ThroughP(fs);
  }

  // Of two leaves, the second, a file, is missed while the first's link is gone.
  lemma SecondInTheGap(fs: Fs, job: Job, place: Place) returns (run: seq<Step>, s: State)
    requires Usable(fs, job.leaves) && job.force && |job.leaves| == 2 && job.leaves[1].node.File?
    requires LeafPlace(fs, job, 0) == place && LinkAt(fs, place)
    requires place in LinksUsed(fs, [], job.leaves[1].dir, MAX_LINKS)
    ensures ComesTo(fs, job, run, s) && s == State(fs - {place}, [Ready(true), Finished(Skipped)])
  {
    run, s := MissedInTheGap(fs, job, 0, 1);
  }

  lemma PutBack(fs: Fs, place: Place)
    requires place in fs
    ensures (fs - {place})[place := fs[place]] == fs
  {
  }

  lemma LinkPutBack(fs: Fs, job: Job) returns (run: seq<Step>, s: State)
    requires LikeBefore(fs) && job == Job([OLD_P, NEW_F], true)
    ensures ComesTo(fs, job, run, s) && s == State(fs, [Finished(Copied), Finished(Skipped)])
  {
    GapAtP(fs, job);
    run, s := SecondInTheGap(fs, job, ["R", "p"]);
    RootLeads(s.fs);
    PutBack(fs, ["R", "p"]);
    run, s := CallThere(fs, job, run, s, 0, ["R", "p"]);
  }

  // With `force`, a link that is replaced by the same link: the file that is reached through it is skipped while
  // the link is gone, and the pass ends without it and without a failure.
  lemma FileIsMissedInTheGap() returns (run: seq<Step>, s: State)
    ensures Usable(BEFORE, [OLD_P, NEW_F]) && PlaceOf(BEFORE, OLD_P) != PlaceOf(BEFORE, NEW_F)
    ensures ComesTo(BEFORE, Job([OLD_P, NEW_F], true), run, s)
    ensures s == State(BEFORE, [Finished(Copied), Finished(Skipped)])
  {
    BeforeIsLikeBefore();
    PlacesBefore(BEFORE);
    run, s := LinkPutBack(BEFORE, Job([OLD_P, NEW_F], true));
  }

  lemma ThroughP(fs: Fs)
    requires LikeBefore(fs)
    ensures ["R", "p"] in LinksUsed(fs, [], NEW_F.dir, MAX_LINKS)
  {
    assert [] + ["R"] == ["R"] && ["R"] + ["p"] == ["R", "p"] && ["R"] + ["q"] == ["R", "q"];
    assert NEW_F.dir[1..] == [Name("q")] && [Name("q")][1..] == [] && [Name("p")] + [] == [Name("p")];
  }

  // ---------------------------------------------------------------- what another process puts in the way

  // The clone was refused for want of support, and then an entry appeared at `place`.
  ghost predicate AppearedAfterRefusal(run: seq<Step>, place: Place) {
    exists m, n :: 0 <= m < n < |run| && run[m] == Call(0, Unsupported) && run[n].Appears? && run[n].place == place
  }

  ghost predicate WasRefused(run: seq<Step>) {
    Call(0, Unsupported) in run
  }

  // Before the byte copy everything beside the leaf's place is there still, and so is what may not be replaced.
  ghost predicate Standing(fs: Fs, job: Job, place: Place, s: State) {
    && |s.pcs| == 1 && (s.pcs[0].Start? || s.pcs[0].Ready? || s.pcs[0].Library?)
    && (forall p :: p in fs && (p != place || !CanPut(fs, job.force, place)) ==> p in s.fs && s.fs[p] == fs[p])
    && (!s.pcs[0].Start? ==> CanPut(fs, job.force, place))
    && (forall p :: p in s.fs && p !in fs ==> s.fs[p] != Dir)
  }

  lemma StandingLeads(fs: Fs, job: Job, s: State)
    requires |job.leaves| == 1 && Usable(fs, job.leaves) && WaysClear(fs, job)
    requires Standing(fs, job, LeafPlace(fs, job, 0), s)
    ensures Seek(s.fs, job.leaves[0].dir).At? && PlaceOf(s.fs, job.leaves[0]) == LeafPlace(fs, job, 0)
  {
    var dir := job.leaves[0].dir;
    assert job.leaves[0] in job.leaves;
    LinksUsedAreThere(fs, [], dir, MAX_LINKS);
    assert job.force ==> LeafPlace(fs, job, 0) !in LinksUsed(fs, [], dir, MAX_LINKS);
    WayStays(fs, s.fs, [], dir, MAX_LINKS);
  }

  // What there is to know of a run that has not come to the byte copy, or has just come to it.
  ghost predicate Telling(run: seq<Step>, place: Place, s: State)
    requires |s.pcs| == 1
  {
    if s.pcs[0].Library? then WasRefused(run) && (place in s.fs <==> AppearedAfterRefusal(run, place))
    else !WasRefused(run)
  }

  lemma TellsOfAppearing(front: seq<Step>, step: Step, place: Place, s: State, t: State)
    requires |s.pcs| == 1 && t.pcs == s.pcs && step.Appears? && Telling(front, place, s)
    requires t.fs == s.fs[step.place := step.node]
    ensures Telling(front + [step], place, t)
  {
    var run := front + [step];
    assert WasRefused(run) <==> WasRefused(front);
    if AppearedAfterRefusal(front, place) {
      var m, n :| 0 <= m < n < |front| && front[m] == Call(0, Unsupported)
        && front[n].Appears? && front[n].place == place;
      assert run[m] == front[m] && run[n] == front[n];
    }
    if AppearedAfterRefusal(run, place) && step.place != place {
      var m, n :| 0 <= m < n < |run| && run[m] == Call(0, Unsupported) && run[n].Appears? && run[n].place == place;
      assert front[m] == run[m] && front[n] == run[n];
    }
    if WasRefused(front) && step.place == place {
      var m :| 0 <= m < |front| && front[m] == Call(0, Unsupported);
      assert run[m] == front[m] && run[|front|] == step;
    }
  }

  lemma AppearedAfterAll(front: seq<Step>, step: Step, place: Place)
    requires AppearedAfterRefusal(front + [step], place)
    ensures WasRefused(front)
  {
    var run := front + [step];
    var m, n :| 0 <= m < n < |run| && run[m] == Call(0, Unsupported) && run[n].Appears? && run[n].place == place;
    assert front[m] == run[m];
  }

  lemma NotRefusedYet(front: seq<Step>, turn: Turn, place: Place)
    requires !WasRefused(front)
    ensures !AppearedAfterRefusal(front + [Call(0, turn)], place)
    ensures WasRefused(front + [Call(0, turn)]) <==> turn == Unsupported
  {
    if AppearedAfterRefusal(front + [Call(0, turn)], place) {
      AppearedAfterAll(front, Call(0, turn), place);
    }
    var run := front + [Call(0, turn)];
    assert run[|front|] == Call(0, turn) && forall x :: x in run ==> x in front || x == Call(0, turn);
  }

  lemma StandingCall(fs: Fs, job: Job, s: State, turn: Turn)
    requires |job.leaves| == 1 && Usable(fs, job.leaves) && WaysClear(fs, job)
    requires Standing(fs, job, LeafPlace(fs, job, 0), s) && Enabled(job, s, Call(0, turn)) && !s.pcs[0].Library?
    requires !OwnFault(turn)
    ensures var t := Apply(job, s, Call(0, turn));
      (t.pcs[0].Start? || t.pcs[0].Ready? || t.pcs[0].Library?) ==>
        && Standing(fs, job, LeafPlace(fs, job, 0), t)
        && (t.pcs[0].Library? <==> turn == Unsupported) && (turn == Unsupported ==> LeafPlace(fs, job, 0) !in t.fs)
  {
    assert job.leaves[0] in job.leaves;
    StandingLeads(fs, job, s);
    HomeCall(s.fs, job.leaves[0], job.force, s.pcs[0], turn);
  }

  lemma {:induction false} RunIsTelling(fs: Fs, job: Job, run: seq<Step>)
    requires |job.leaves| == 1 && Usable(fs, job.leaves) && WaysClear(fs, job)
    requires IsRun(job, Init(fs, job), run) && Calm(run)
    requires var pc := Exec(job, Init(fs, job), run).pcs; |pc| == 1 && (pc[0].Start? || pc[0].Ready? || pc[0].Library?)
    ensures Standing(fs, job, LeafPlace(fs, job, 0), Exec(job, Init(fs, job), run))
    ensures Telling(run, LeafPlace(fs, job, 0), Exec(job, Init(fs, job), run))
    decreases |run|
  {
    if run != [] {
      var front, last := run[..|run| - 1], run[|run| - 1];
      OneLess(job, Init(fs, job), run);
      var s := Exec(job, Init(fs, job), front);
      assert run == front + [last];
      if last.Call? {
        CallDoesWork(s.fs, job.leaves[0], job.force, s.pcs[0], last.turn);
        RunIsTelling(fs, job, front);
        StandingCall(fs, job, s, last.turn);
        NotRefusedYet(front, last.turn, LeafPlace(fs, job, 0));
      } else {
        RunIsTelling(fs, job, front);
        TellsOfAppearing(front, last, LeafPlace(fs, job, 0), s, Apply(job, s, last));
      }
    }
  }

  // One leaf, of which no call fails by itself, and other processes that may put anything anywhere between its
  // calls: its byte copy finds an entry, which then is another's, exactly when its clone was refused for want of
  // support and the entry appeared after that.
  lemma AnothersEntryIsOpenedExactlyWhen(fs: Fs, job: Job, run: seq<Step>)
    requires |job.leaves| == 1 && Usable(fs, job.leaves) && WaysClear(fs, job)
    requires IsRun(job, Init(fs, job), run) && Calm(run)
    requires |Exec(job, Init(fs, job), run).pcs| == 1 && Exec(job, Init(fs, job), run).pcs[0].Library?
    ensures WasRefused(run)
    ensures LeafPlace(fs, job, 0) in Exec(job, Init(fs, job), run).fs
      <==> AppearedAfterRefusal(run, LeafPlace(fs, job, 0))
  {
    RunIsTelling(fs, job, run);
  }

  // No other call replaces anything, but for the removal that `force` asks for.
  lemma OnlyTheByteCopyReplaces(fs: Fs, leaf: Leaf, force: bool, pc: Pc, turn: Turn)
    requires !pc.Finished? && !pc.Library? && !(pc.Start? && force)
    ensures Keeps(fs, CallOf(fs, leaf, force, pc, turn).fs)
  {
  }

  // Such a run, for any file at a free place: what another process put there is written over, or through if it
  // is a link that leads to `out`, and the copy goes on to report success.
  lemma ByteCopyReplacesAnothers(fs: Fs, leaf: Leaf, node: Node, out: Place) returns (run: seq<Step>, s: State)
    requires Usable(fs, [leaf]) && leaf.node.File? && PlaceOf(fs, leaf) !in fs && node != Dir
    requires Open(fs[PlaceOf(fs, leaf) := node], [], FullPath(leaf), MAX_LINKS) == Opens(out)
    ensures var job := Job([leaf], false);
      IsRun(job, Init(fs, job), run) && Calm(run) && s == Exec(job, Init(fs, job), run)
    ensures s == State(fs[PlaceOf(fs, leaf) := node][out := leaf.node], [Setting])
  {
    var job, place := Job([leaf], false), PlaceOf(fs, leaf);
    run := Nothing(fs, job);
    run, s := Freed(fs, job, run, Init(fs, job), 0);
    run, s := Refused(fs, job, run, s, 0);
    assert s.fs == fs;
    DirIsParent(fs, leaf);
    OneMore(job, Init(fs, job), run, Appears(place, node));
    run, s := run + [Appears(place, node)], Apply(job, s, Appears(place, node));
    OneMore(job, Init(fs, job), run, Call(0, Goes));
    run, s := run + [Call(0, Goes)], Apply(job, s, Call(0, Goes));
  }

  lemma DirIsParent(fs: Fs, leaf: Leaf)
    requires Usable(fs, [leaf])
    ensures PlaceOf(fs, leaf) != [] && Parent(PlaceOf(fs, leaf)) in fs && fs[Parent(PlaceOf(fs, leaf))] == Dir
  {
    assert leaf in [leaf];
    assert Parent(PlaceOf(fs, leaf)) == Canonicalize(fs, leaf.dir).value;
  }

  // A file put there by another is where the byte copy writes.
  lemma AnothersFileIsOpened(fs: Fs, leaf: Leaf, node: Node)
    requires Usable(fs, [leaf]) && PlaceOf(fs, leaf) !in fs && node.File?
    ensures Open(fs[PlaceOf(fs, leaf) := node], [], FullPath(leaf), MAX_LINKS) == Opens(PlaceOf(fs, leaf))
  {
    var more := fs[PlaceOf(fs, leaf) := node];
    assert leaf in [leaf];
    ResolvesAsItGrows(fs, more, [], leaf.dir, MAX_LINKS);
    OpenAppend(more, [], leaf.dir, [Name(leaf.name)], MAX_LINKS);
    assert [Name(leaf.name)][1..] == [];
  }
}
