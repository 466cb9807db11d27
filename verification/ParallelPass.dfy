/** The parallel pass as its threads run it: each leaf is a series of system calls, and those of different
    leaves come in any order. A call resolves the leaf's path when it is made. */
module ParallelPass {
  import opened Common
  import opened Containment
  import opened SequentialPass
  import F = FixedPlaces

  datatype Outcome = Copied | Skipped | Failed

  // Where the copy of one leaf is: before it looks for the destination or removes it; before its clone or its
  // symlink; before the library's byte copy, or the copy to a new file; before it sets the copy's mode.
  datatype Pc =
    | Start
    | Ready(removed: bool)
    | Library(removed: bool)
    | NewFile(removed: bool)
    | Setting
    | Finished(outcome: Outcome)

  // What the system makes of a call that could succeed: a clone may be refused for want of support or of
  // permission, and so may opening for the byte copy for want of permission. Any call may fail by itself:
  // a clone so that the library goes on to its byte copy, a byte copy with a part written.
  datatype Turn = Goes | Unsupported | Denied | Trips | Breaks(part: nat)

  datatype Step = Call(i: nat, turn: Turn) | Appears(place: Place, node: Node)

  datatype State = State(fs: Fs, pcs: seq<Pc>)

  datatype Job = Job(leaves: seq<Leaf>, force: bool)

  datatype Next = Next(fs: Fs, pc: Pc)

  // ---------------------------------------------------------------- the calls

  datatype Found = At(dir: Place) | NoEntry | Unreachable

  function Seek(fs: Fs, dir: Path): Found {
    match Canonicalize(fs, dir)
    case Some(place) => if fs[place] == Dir then At(place) else Unreachable
    case None => if Missing(fs, [], dir, MAX_LINKS) then NoEntry else Unreachable
  }

  datatype Opened = Opens(place: Place) | NoName | Refuses

  // Opening a file to write, which makes one where the last name is missing and follows a link there.
  function Open(fs: Fs, at: Place, path: Path, links: nat): Opened
    decreases links, |path|
  {
    if path == [] || at !in fs || fs[at] != Dir then Refuses
    else
      match path[0]
      case Up => Open(fs, Parent(at), path[1..], links)
      case Name(name) =>
        var child := at + [name];
        if child !in fs then if |path| == 1 then Opens(child) else NoName
        else
          match fs[child]
          case Link(absolute, target) =>
            if links == 0 then Refuses
            else Open(fs, if absolute then [] else at, target + path[1..], links - 1)
          case File(_) => if |path| == 1 then Opens(child) else Refuses
          case Dir => Open(fs, child, path[1..], links)
  }

  function FullPath(leaf: Leaf): Path {
    leaf.dir + [Name(leaf.name)]
  }

  // A name that is not found counts as a vanished source, unless the leaf has removed something.
  function Vanished(removed: bool): Pc {
    Finished(if removed then Failed else Skipped)
  }

  function Looked(fs: Fs, leaf: Leaf): Next {
    match Seek(fs, leaf.dir)
    case At(dir) => Next(fs, if dir + [leaf.name] in fs then Finished(Skipped) else Ready(false))
    case _ => Next(fs, Ready(false))
  }

  function Removed(fs: Fs, leaf: Leaf): Next {
    match Seek(fs, leaf.dir)
    case At(dir) =>
      var place := dir + [leaf.name];
      if place !in fs then Next(fs, Ready(false))
      else if fs[place] == Dir then Next(fs, Finished(Failed))
      else Next(fs - {place}, Ready(true))
    case NoEntry => Next(fs, Ready(false))
    case Unreachable => Next(fs, Finished(Failed))
  }

  function Linked(fs: Fs, leaf: Leaf): Next {
    match Seek(fs, leaf.dir)
    case At(dir) =>
      var place := dir + [leaf.name];
      if place in fs then Next(fs, Finished(Failed)) else Next(fs[place := leaf.node], Finished(Copied))
    case _ => Next(fs, Finished(Failed))
  }

  // A failure that the clone library does not pass on leads to its byte copy.
  function Cloned(fs: Fs, leaf: Leaf, removed: bool, turn: Turn): Next {
    match Seek(fs, leaf.dir)
    case At(dir) =>
      var place := dir + [leaf.name];
      if turn == Trips then Next(fs, Library(removed))
      else if place in fs then Next(fs, Finished(Skipped))
      else if turn == Unsupported then Next(fs, Library(removed))
      else if turn == Denied then Next(fs, NewFile(removed))
      else Next(fs[place := leaf.node], Setting)
    case NoEntry => Next(fs, Vanished(removed))
    case Unreachable => Next(fs, Library(removed))
  }

  function ByteCopied(fs: Fs, leaf: Leaf, removed: bool, turn: Turn): Next {
    if turn == Denied then Next(fs, NewFile(removed))
    else
      match Open(fs, [], FullPath(leaf), MAX_LINKS)
      case Opens(place) =>
        if turn.Breaks? && leaf.node.File? && turn.part <= |leaf.node.content| then
          Next(fs[place := File(leaf.node.content[..turn.part])], Finished(Failed))
        else if turn.Breaks? then Next(fs, Finished(Failed))
        else Next(fs[place := leaf.node], Setting)
      case NoName => Next(fs, Vanished(removed))
      case Refuses => Next(fs, Finished(Failed))
  }

  function RenamedInto(fs: Fs, leaf: Leaf, removed: bool): Next {
    match Seek(fs, leaf.dir)
    case At(dir) =>
      var place := dir + [leaf.name];
      if place in fs then Next(fs, Finished(Skipped)) else Next(fs[place := leaf.node], Setting)
    case NoEntry => Next(fs, Vanished(removed))
    case Unreachable => Next(fs, Finished(Failed))
  }

  // The mode is set through a link too.
  function ModeSet(fs: Fs, leaf: Leaf): Next {
    Next(fs, Finished(if Canonicalize(fs, FullPath(leaf)).Some? then Copied else Failed))
  }

  function CallOf(fs: Fs, leaf: Leaf, force: bool, pc: Pc, turn: Turn): Next
    requires !pc.Finished?
  {
    if turn.Breaks? && !pc.Library? then Next(fs, Finished(Failed))
    else
      match pc
      case Start => if force then Removed(fs, leaf) else Looked(fs, leaf)
      case Ready(removed) => if leaf.node.Link? then Linked(fs, leaf) else Cloned(fs, leaf, removed, turn)
      case Library(removed) => ByteCopied(fs, leaf, removed, turn)
      case NewFile(removed) => RenamedInto(fs, leaf, removed)
      case Setting => ModeSet(fs, leaf)
  }

  // ---------------------------------------------------------------- runs

  // Only a clone that finds its name free is refused, and only a clone or an opening is denied.
  predicate MayTurn(fs: Fs, leaf: Leaf, pc: Pc, turn: Turn) {
    match turn
    case Unsupported => pc.Ready? && leaf.node.File? && FreeName(fs, leaf)
    case Denied => pc.Library? || (pc.Ready? && leaf.node.File? && FreeName(fs, leaf))
    case Trips => pc.Ready? && leaf.node.File?
    case _ => true
  }

  predicate FreeName(fs: Fs, leaf: Leaf) {
    var found := Seek(fs, leaf.dir);
    found.At? && found.dir + [leaf.name] !in fs
  }

  predicate Enabled(job: Job, s: State, step: Step) {
    match step
    case Call(i, turn) =>
      i < |s.pcs| == |job.leaves| && !s.pcs[i].Finished? && MayTurn(s.fs, job.leaves[i], s.pcs[i], turn)
    case Appears(place, node) =>
      place !in s.fs && place != [] && Parent(place) in s.fs && s.fs[Parent(place)] == Dir && node != Dir
  }

  function Apply(job: Job, s: State, step: Step): State
    requires Enabled(job, s, step)
  {
    match step
    case Call(i, turn) =>
      var next := CallOf(s.fs, job.leaves[i], job.force, s.pcs[i], turn);
      State(next.fs, s.pcs[i := next.pc])
    case Appears(place, node) => s.(fs := s.fs[place := node])
  }

  function Init(fs: Fs, job: Job): State {
    State(fs, seq(|job.leaves|, _ => Start))
  }

  predicate IsRun(job: Job, s: State, run: seq<Step>)
    decreases |run|
  {
    run == [] || (Enabled(job, s, run[0]) && IsRun(job, Apply(job, s, run[0]), run[1..]))
  }

  function Exec(job: Job, s: State, run: seq<Step>): State
    requires IsRun(job, s, run)
    decreases |run|
  {
    if run == [] then s else Exec(job, Apply(job, s, run[0]), run[1..])
  }

  // Nobody but the pass acts.
  predicate Own(run: seq<Step>) {
    forall k :: 0 <= k < |run| ==> run[k].Call?
  }

  // No call fails by itself.
  predicate Calm(run: seq<Step>) {
    forall k :: 0 <= k < |run| && run[k].Call? ==> !OwnFault(run[k].turn)
  }

  predicate OwnFault(turn: Turn) {
    turn.Trips? || turn.Breaks?
  }

  predicate AllFinished(s: State) {
    forall i :: 0 <= i < |s.pcs| ==> s.pcs[i].Finished?
  }

  // One step more.
  lemma {:induction false} OneMore(job: Job, s: State, run: seq<Step>, step: Step)
    requires IsRun(job, s, run) && Enabled(job, Exec(job, s, run), step)
    ensures IsRun(job, s, run + [step])
    ensures Exec(job, s, run + [step]) == Apply(job, Exec(job, s, run), step)
    decreases |run|
  {
    if run == [] {
      assert [step][1..] == [];
    } else {
      assert (run + [step])[1..] == run[1..] + [step];
      OneMore(job, Apply(job, s, run[0]), run[1..], step);
    }
  }

  // What comes before the last step.
  lemma {:induction false} OneLess(job: Job, s: State, run: seq<Step>)
    requires IsRun(job, s, run) && run != []
    ensures var front := run[..|run| - 1];
      IsRun(job, s, front) && Enabled(job, Exec(job, s, front), run[|run| - 1])
      && Exec(job, s, run) == Apply(job, Exec(job, s, front), run[|run| - 1])
    decreases |run|
  {
    var front := run[..|run| - 1];
    if |run| == 1 {
      assert front == [] && run[1..] == [];
    } else {
      assert front[1..] == run[1..][..|run| - 2];
      OneLess(job, Apply(job, s, run[0]), run[1..]);
    }
  }

  // ---------------------------------------------------------------- paths that stay what they were

  // Without a link that it goes through a path leads nowhere.
  lemma {:induction false} GoneOnTheWay(fs: Fs, place: Place, at: Place, path: Path, links: nat)
    requires place in LinksUsed(fs, at, path, links) && place in fs && fs[place].Link?
    ensures Resolve(fs - {place}, at, path, links) == None && Missing(fs - {place}, at, path, links)
    decreases links, |path|
  {
    match path[0]
    case Up => GoneOnTheWay(fs, place, Parent(at), path[1..], links);
    case Name(name) =>
      var child := at + [name];
      if child != place {
        match fs[child]
        case Link(absolute, target) =>
          GoneOnTheWay(fs, place, if absolute then [] else at, target + path[1..], links - 1);
        case Dir => GoneOnTheWay(fs, place, child, path[1..], links);
        case File(_) =>
      }
  }

  lemma {:induction false} OpenAppend(fs: Fs, at: Place, a: Path, b: Path, links: nat)
    requires b != []
    requires var r := Resolve(fs, at, a, links); r.Some? && r.value.place in fs && fs[r.value.place] == Dir
    ensures var r := Resolve(fs, at, a, links).value;
      Open(fs, at, a + b, links) == Open(fs, r.place, b, r.links)
    decreases links, |a|
  {
    if a == [] {
      assert a + b == b;
    } else {
      assert (a + b)[1..] == a[1..] + b;
      match a[0]
      case Up => OpenAppend(fs, Parent(at), a[1..], b, links);
      case Name(name) =>
        var child := at + [name];
        match fs[child]
        case Link(absolute, target) =>
          Regroup(target, a[1..], b);
          OpenAppend(fs, if absolute then [] else at, target + a[1..], b, links - 1);
        case Dir => OpenAppend(fs, child, a[1..], b, links);
        case File(_) =>
    }
  }

  // ---------------------------------------------------------------- a call at the leaf's own place

  function Placed(fs: Fs, place: Place, node: Node, removed: bool, turn: Turn): Next {
    if turn == Trips then Next(fs, Library(removed))
    else if place in fs then Next(fs, Finished(Skipped))
    else if turn == Unsupported then Next(fs, Library(removed))
    else if turn == Denied then Next(fs, NewFile(removed))
    else Next(fs[place := node], Setting)
  }

  function Written(fs: Fs, place: Place, node: Node, removed: bool, turn: Turn): Next {
    if turn == Denied then Next(fs, NewFile(removed))
    else if place in fs && fs[place] == Dir then Next(fs, Finished(Failed))
    else if turn.Breaks? && node.File? && turn.part <= |node.content| then
      Next(fs[place := File(node.content[..turn.part])], Finished(Failed))
    else if turn.Breaks? then Next(fs, Finished(Failed))
    else Next(fs[place := node], Setting)
  }

  // What a call does while its path leads to `place` and no link is there to be written through.
  function AtHome(fs: Fs, place: Place, node: Node, force: bool, pc: Pc, turn: Turn): Next
    requires !pc.Finished?
  {
    if turn.Breaks? && !pc.Library? then Next(fs, Finished(Failed))
    else
      match pc
      case Start =>
        if place !in fs then Next(fs, Ready(false))
        else if !force then Next(fs, Finished(Skipped))
        else if fs[place] == Dir then Next(fs, Finished(Failed))
        else Next(fs - {place}, Ready(true))
      case Ready(removed) =>
        if !node.Link? then Placed(fs, place, node, removed, turn)
        else if place in fs then Next(fs, Finished(Failed))
        else Next(fs[place := node], Finished(Copied))
      case Library(removed) => Written(fs, place, node, removed, turn)
      case NewFile(_) => Placed(fs, place, node, false, Goes)
      case Setting => Next(fs, Finished(if place in fs then Copied else Failed))
  }

  predicate LinkAt(fs: Fs, place: Place) {
    place in fs && fs[place].Link?
  }

  lemma HomeCall(fs: Fs, leaf: Leaf, force: bool, pc: Pc, turn: Turn)
    requires !pc.Finished? && Seek(fs, leaf.dir).At? && leaf.node != Dir
    requires (pc.Library? || pc.Setting?) ==> !LinkAt(fs, PlaceOf(fs, leaf))
    ensures CallOf(fs, leaf, force, pc, turn) == AtHome(fs, PlaceOf(fs, leaf), leaf.node, force, pc, turn)
  {
    var r := Resolve(fs, [], leaf.dir, MAX_LINKS).value;
    assert [Name(leaf.name)][1..] == [];
    if pc.Library? {
      OpenAppend(fs, [], leaf.dir, [Name(leaf.name)], MAX_LINKS);
    } else if pc.Setting? {
      ResolveAppend(fs, [], leaf.dir, [Name(leaf.name)], MAX_LINKS);
    }
  }

  // ---------------------------------------------------------------- what the pass leaves alone

  predicate Changed(fs: Fs, g: Fs, p: Place) {
    !(p in fs <==> p in g) || (p in fs && g[p] != fs[p])
  }

  // A leaf may end up at `p`: nothing is there, or `force` may remove it.
  predicate CanPut(fs: Fs, force: bool, p: Place) {
    p in fs ==> force && fs[p] != Dir
  }

  function LeafPlace(fs: Fs, job: Job, i: nat): Place
    requires i < |job.leaves|
  {
    PlaceOf(fs, job.leaves[i])
  }

  predicate IsPlace(fs: Fs, job: Job, p: Place) {
    exists i :: 0 <= i < |job.leaves| && LeafPlace(fs, job, i) == p
  }

  // With `force`, no leaf's place is a link that a leaf's directory is reached through, whatever is put there.
  ghost predicate WaysClear(fs: Fs, job: Job) {
    job.force ==> forall i, j :: 0 <= i < |job.leaves| && 0 <= j < |job.leaves| ==>
      LeafPlace(fs, job, i) !in LinksUsed(fs, [], job.leaves[j].dir, MAX_LINKS)
  }

  // Only leaves' places have changed, and no directory has.
  ghost predicate Kept(fs: Fs, job: Job, g: Fs) {
    forall p :: Changed(fs, g, p) ==>
      CanPut(fs, job.force, p) && IsPlace(fs, job, p) && (p in g ==> g[p] != Dir)
  }

  predicate UnderWay(pc: Pc) {
    !pc.Start? && !pc.Finished?
  }

  ghost predicate KeptState(fs: Fs, job: Job, s: State) {
    && |s.pcs| == |job.leaves| && Kept(fs, job, s.fs)
    && forall i :: 0 <= i < |s.pcs| && UnderWay(s.pcs[i]) ==> CanPut(fs, job.force, LeafPlace(fs, job, i))
  }

  lemma PlaceIsOnNoWay(fs: Fs, job: Job, p: Place, j: nat)
    requires WaysClear(fs, job) && job.force && IsPlace(fs, job, p) && j < |job.leaves|
    ensures p !in LinksUsed(fs, [], job.leaves[j].dir, MAX_LINKS)
  {
  }

  // Then every leaf's directory leads where it led.
  lemma KeptLeads(fs: Fs, job: Job, g: Fs, i: nat)
    requires Usable(fs, job.leaves) && WaysClear(fs, job) && Kept(fs, job, g) && i < |job.leaves|
    ensures Canonicalize(g, job.leaves[i].dir) == Canonicalize(fs, job.leaves[i].dir)
    ensures Seek(g, job.leaves[i].dir).At? && PlaceOf(g, job.leaves[i]) == LeafPlace(fs, job, i)
  {
    var dir := job.leaves[i].dir;
    assert job.leaves[i] in job.leaves;
    LinksUsedAreThere(fs, [], dir, MAX_LINKS);
    forall p | p in fs && (fs[p] == Dir || p in LinksUsed(fs, [], dir, MAX_LINKS))
      ensures p in g && g[p] == fs[p]
    {
      if job.force && IsPlace(fs, job, p) {
        PlaceIsOnNoWay(fs, job, p, i);
      }
    }
    WayStays(fs, g, [], dir, MAX_LINKS);
  }

  // A call at `place` changes that place only, and never makes a directory there.
  ghost predicate OnlyAt(g: Fs, h: Fs, place: Place) {
    (forall p :: Changed(g, h, p) ==> p == place) && (Changed(g, h, place) && place in h ==> h[place] != Dir)
  }

  lemma HomeEffect(g: Fs, place: Place, node: Node, force: bool, pc: Pc, turn: Turn)
    requires !pc.Finished? && node != Dir
    ensures var next := AtHome(g, place, node, force, pc, turn);
      && OnlyAt(g, next.fs, place)
      && (pc.Start? && (Changed(g, next.fs, place) || UnderWay(next.pc)) ==> place in g ==> force && g[place] != Dir)
  {
  }

  lemma KeptStep(fs: Fs, job: Job, g: Fs, h: Fs, place: Place)
    requires Kept(fs, job, g) && OnlyAt(g, h, place)
    requires Changed(g, h, place) ==> CanPut(fs, job.force, place) && IsPlace(fs, job, place)
    ensures Kept(fs, job, h)
  {
    forall p | Changed(fs, h, p)
      ensures CanPut(fs, job.force, p) && IsPlace(fs, job, p) && (p in h ==> h[p] != Dir)
    {
      assert Changed(fs, g, p) || Changed(g, h, p);
    }
  }

  // What may be put where it now can could be at first.
  lemma CouldPut(fs: Fs, job: Job, g: Fs, p: Place)
    requires Kept(fs, job, g) && (p in g ==> job.force && g[p] != Dir)
    ensures CanPut(fs, job.force, p)
  {
    assert Changed(fs, g, p) || !Changed(fs, g, p);
  }

  lemma HomeCallOf(fs: Fs, job: Job, s: State, i: nat, turn: Turn)
    requires Usable(fs, job.leaves) && WaysClear(fs, job) && KeptState(fs, job, s) && Enabled(job, s, Call(i, turn))
    requires (s.pcs[i].Library? || s.pcs[i].Setting?) ==> !LinkAt(s.fs, LeafPlace(fs, job, i))
    ensures var next := AtHome(s.fs, LeafPlace(fs, job, i), job.leaves[i].node, job.force, s.pcs[i], turn);
      Apply(job, s, Call(i, turn)) == State(next.fs, s.pcs[i := next.pc])
    ensures job.leaves[i].node != Dir
  {
    assert job.leaves[i] in job.leaves;
    KeptLeads(fs, job, s.fs, i);
    HomeCall(s.fs, job.leaves[i], job.force, s.pcs[i], turn);
  }

  lemma KeptCall(fs: Fs, job: Job, s: State, i: nat, turn: Turn)
    requires Usable(fs, job.leaves) && WaysClear(fs, job) && KeptState(fs, job, s) && Enabled(job, s, Call(i, turn))
    requires (s.pcs[i].Library? || s.pcs[i].Setting?) ==> !LinkAt(s.fs, LeafPlace(fs, job, i))
    ensures KeptState(fs, job, Apply(job, s, Call(i, turn)))
  {
    var place, node := LeafPlace(fs, job, i), job.leaves[i].node;
    HomeCallOf(fs, job, s, i, turn);
    HomeEffect(s.fs, place, node, job.force, s.pcs[i], turn);
    var next := AtHome(s.fs, place, node, job.force, s.pcs[i], turn);
    if place in s.fs ==> job.force && s.fs[place] != Dir {
      CouldPut(fs, job, s.fs, place);
    }
    assert IsPlace(fs, job, place);
    KeptStep(fs, job, s.fs, next.fs, place);
  }

  lemma InitIsKept(fs: Fs, job: Job)
    ensures KeptState(fs, job, Init(fs, job))
  {
  }

  // ---------------------------------------------------------------- every call at the leaf's own place

  // No link and file are for one place that can be had.
  ghost predicate LinksApart(fs: Fs, job: Job) {
    forall i, j :: 0 <= i < |job.leaves| && 0 <= j < |job.leaves| && job.leaves[i].node.Link?
      && job.leaves[j].node.File? && CanPut(fs, job.force, LeafPlace(fs, job, i))
      ==> LeafPlace(fs, job, i) != LeafPlace(fs, job, j)
  }

  ghost predicate Tame(fs: Fs, job: Job) {
    WaysClear(fs, job) && LinksApart(fs, job)
  }

  // What follows a link is made where there is none.
  ghost predicate Straight(fs: Fs, job: Job, s: State) {
    && |s.pcs| == |job.leaves|
    && forall i :: 0 <= i < |s.pcs| && !s.pcs[i].Finished? ==>
         && Canonicalize(s.fs, job.leaves[i].dir) == Canonicalize(fs, job.leaves[i].dir)
         && (s.pcs[i].Library? || s.pcs[i].Setting? ==> !LinkAt(s.fs, LeafPlace(fs, job, i)))
  }

  ghost predicate EveryRunStraight(fs: Fs, job: Job) {
    forall run :: IsRun(job, Init(fs, job), run) && Own(run) ==> Straight(fs, job, Exec(job, Init(fs, job), run))
  }

  ghost predicate TamePc(fs: Fs, job: Job, s: State, i: nat)
    requires i < |s.pcs| == |job.leaves|
  {
    && (UnderWay(s.pcs[i]) && !s.pcs[i].Ready? ==> job.leaves[i].node.File?)
    && (UnderWay(s.pcs[i]) && job.leaves[i].node.File? ==> !LinkAt(s.fs, LeafPlace(fs, job, i)))
  }

  ghost predicate TameState(fs: Fs, job: Job, s: State) {
    && KeptState(fs, job, s)
    && forall i :: 0 <= i < |s.pcs| ==> TamePc(fs, job, s, i)
  }

  // A link is only ever put at a place for which there is no file.
  lemma NoLinkAppears(fs: Fs, job: Job, s: State, i: nat, turn: Turn, j: nat)
    requires Usable(fs, job.leaves) && Tame(fs, job) && TameState(fs, job, s) && Enabled(job, s, Call(i, turn))
    requires j < |s.pcs| && job.leaves[j].node.File? && CanPut(fs, job.force, LeafPlace(fs, job, j))
    requires !LinkAt(s.fs, LeafPlace(fs, job, j))
    ensures !LinkAt(Apply(job, s, Call(i, turn)).fs, LeafPlace(fs, job, j))
  {
    assert TamePc(fs, job, s, i);
    HomeCallOf(fs, job, s, i, turn);
    HomeEffect(s.fs, LeafPlace(fs, job, i), job.leaves[i].node, job.force, s.pcs[i], turn);
    assert job.leaves[i].node.Link? ==> LeafPlace(fs, job, i) != LeafPlace(fs, job, j);
  }

  lemma TameSelf(fs: Fs, job: Job, s: State, i: nat, turn: Turn)
    requires Usable(fs, job.leaves) && Tame(fs, job) && TameState(fs, job, s) && Enabled(job, s, Call(i, turn))
    ensures TamePc(fs, job, Apply(job, s, Call(i, turn)), i)
  {
    assert TamePc(fs, job, s, i);
    HomeCallOf(fs, job, s, i, turn);
    HomeEffect(s.fs, LeafPlace(fs, job, i), job.leaves[i].node, job.force, s.pcs[i], turn);
  }

  lemma TameCall(fs: Fs, job: Job, s: State, i: nat, turn: Turn)
    requires Usable(fs, job.leaves) && Tame(fs, job) && TameState(fs, job, s) && Enabled(job, s, Call(i, turn))
    ensures TameState(fs, job, Apply(job, s, Call(i, turn)))
  {
    var t := Apply(job, s, Call(i, turn));
    assert TamePc(fs, job, s, i);
    KeptCall(fs, job, s, i, turn);
    forall j | 0 <= j < |t.pcs|
      ensures TamePc(fs, job, t, j)
    {
      if j == i {
        TameSelf(fs, job, s, i, turn);
      } else {
        assert s.pcs[j] == t.pcs[j] && TamePc(fs, job, s, j);
        if UnderWay(s.pcs[j]) && job.leaves[j].node.File? {
          NoLinkAppears(fs, job, s, i, turn, j);
        }
      }
    }
  }

  lemma {:induction false} RunIsTame(fs: Fs, job: Job, run: seq<Step>)
    requires Usable(fs, job.leaves) && Tame(fs, job) && IsRun(job, Init(fs, job), run) && Own(run)
    ensures TameState(fs, job, Exec(job, Init(fs, job), run))
    decreases |run|
  {
    if run == [] {
      InitIsKept(fs, job);
    } else {
      var front, last := run[..|run| - 1], run[|run| - 1];
      OneLess(job, Init(fs, job), run);
      RunIsTame(fs, job, front);
      TameCall(fs, job, Exec(job, Init(fs, job), front), last.i, last.turn);
    }
  }

  // ---------------------------------------------------------------- runs made step by step

  // A run that has come to `s`, in which no call failed by itself.
  ghost predicate ComesTo(fs: Fs, job: Job, run: seq<Step>, s: State) {
    IsRun(job, Init(fs, job), run) && Own(run) && Calm(run) && Exec(job, Init(fs, job), run) == s
  }

  lemma Nothing(fs: Fs, job: Job) returns (run: seq<Step>)
    ensures ComesTo(fs, job, run, Init(fs, job))
  {
    run := [];
  }

  lemma Further(fs: Fs, job: Job, run: seq<Step>, s: State, i: nat, turn: Turn) returns (more: seq<Step>)
    requires ComesTo(fs, job, run, s) && Enabled(job, s, Call(i, turn)) && !OwnFault(turn)
    ensures ComesTo(fs, job, more, Apply(job, s, Call(i, turn)))
  {
    OneMore(job, Init(fs, job), run, Call(i, turn));
    more := run + [Call(i, turn)];
  }

  // One more call at the leaf's own place.
  lemma FurtherAtHome(fs: Fs, job: Job, run: seq<Step>, s: State, i: nat, turn: Turn)
    returns (more: seq<Step>, t: State)
    requires Usable(fs, job.leaves) && WaysClear(fs, job) && KeptState(fs, job, s) && ComesTo(fs, job, run, s)
    requires i < |s.pcs| && !s.pcs[i].Finished?
    requires (s.pcs[i].Library? || s.pcs[i].Setting?) ==> !LinkAt(s.fs, LeafPlace(fs, job, i))
    requires turn.Goes? ||
      (turn.Unsupported? && s.pcs[i].Ready? && job.leaves[i].node.File? && LeafPlace(fs, job, i) !in s.fs)
    ensures ComesTo(fs, job, more, t) && KeptState(fs, job, t)
    ensures var next := AtHome(s.fs, LeafPlace(fs, job, i), job.leaves[i].node, job.force, s.pcs[i], turn);
      t == State(next.fs, s.pcs[i := next.pc])
  {
    KeptLeads(fs, job, s.fs, i);
    HomeCallOf(fs, job, s, i, turn);
    KeptCall(fs, job, s, i, turn);
    t := Apply(job, s, Call(i, turn));
    more := Further(fs, job, run, s, i, turn);
  }

  // The first call of a leaf that finds its place free, or frees it.
  lemma Freed(fs: Fs, job: Job, run: seq<Step>, s: State, i: nat) returns (more: seq<Step>, t: State)
    requires Usable(fs, job.leaves) && WaysClear(fs, job) && KeptState(fs, job, s) && ComesTo(fs, job, run, s)
    requires i < |s.pcs| && s.pcs[i].Start? && CanPut(s.fs, job.force, LeafPlace(fs, job, i))
    ensures ComesTo(fs, job, more, t) && KeptState(fs, job, t)
    ensures t.fs == s.fs - {LeafPlace(fs, job, i)} && t.pcs[i].Ready? && t.pcs == s.pcs[i := t.pcs[i]]
  {
    more, t := FurtherAtHome(fs, job, run, s, i, Goes);
  }

  lemma Filled(fs: Fs, job: Job, run: seq<Step>, s: State, i: nat) returns (more: seq<Step>, t: State)
    requires Usable(fs, job.leaves) && WaysClear(fs, job) && KeptState(fs, job, s) && ComesTo(fs, job, run, s)
    requires i < |s.pcs| && s.pcs[i].Ready? && LeafPlace(fs, job, i) !in s.fs
    ensures ComesTo(fs, job, more, t) && KeptState(fs, job, t)
    ensures t.fs == s.fs[LeafPlace(fs, job, i) := job.leaves[i].node]
    ensures t.pcs == s.pcs[i := if job.leaves[i].node.Link? then Finished(Copied) else Setting]
  {
    more, t := FurtherAtHome(fs, job, run, s, i, Goes);
  }

  lemma Refused(fs: Fs, job: Job, run: seq<Step>, s: State, i: nat) returns (more: seq<Step>, t: State)
    requires Usable(fs, job.leaves) && WaysClear(fs, job) && KeptState(fs, job, s) && ComesTo(fs, job, run, s)
    requires i < |s.pcs| && s.pcs[i].Ready? && job.leaves[i].node.File? && LeafPlace(fs, job, i) !in s.fs
    ensures ComesTo(fs, job, more, t) && KeptState(fs, job, t)
    ensures t == State(s.fs, s.pcs[i := Library(s.pcs[i].removed)])
  {
    more, t := FurtherAtHome(fs, job, run, s, i, Unsupported);
  }

  // A call of a leaf that finds its place taken.
  lemma Taken(fs: Fs, job: Job, run: seq<Step>, s: State, i: nat) returns (more: seq<Step>, t: State)
    requires Usable(fs, job.leaves) && WaysClear(fs, job) && KeptState(fs, job, s) && ComesTo(fs, job, run, s)
    requires i < |s.pcs| && LeafPlace(fs, job, i) in s.fs && (s.pcs[i].Ready? || (s.pcs[i].Start? && !job.force))
    ensures ComesTo(fs, job, more, t) && KeptState(fs, job, t) && t.fs == s.fs
    ensures t.pcs == s.pcs[i := Finished(if s.pcs[i].Ready? && job.leaves[i].node.Link? then Failed else Skipped)]
  {
    more, t := FurtherAtHome(fs, job, run, s, i, Goes);
  }

  // A leaf's link is gone for a while, and with it the way to any directory reached through it.
  lemma LinkGone(fs: Fs, job: Job, i: nat) returns (run: seq<Step>, s: State)
    requires Usable(fs, job.leaves) && job.force && i < |job.leaves| && LinkAt(fs, LeafPlace(fs, job, i))
    ensures ComesTo(fs, job, run, s) && s == State(fs - {LeafPlace(fs, job, i)}, Init(fs, job).pcs[i := Ready(true)])
    ensures forall j :: 0 <= j < |job.leaves| ==>
      LeafPlace(fs, job, i) in LinksUsed(fs, [], job.leaves[j].dir, MAX_LINKS) ==>
        Seek(s.fs, job.leaves[j].dir) == NoEntry
  {
    assert job.leaves[i] in job.leaves;
    HomeCall(fs, job.leaves[i], true, Start, Goes);
    run := Nothing(fs, job);
    run := Further(fs, job, run, Init(fs, job), i, Goes);
    s := Apply(job, Init(fs, job), Call(i, Goes));
    forall j | 0 <= j < |job.leaves| && LeafPlace(fs, job, i) in LinksUsed(fs, [], job.leaves[j].dir, MAX_LINKS)
      ensures Seek(s.fs, job.leaves[j].dir) == NoEntry
    {
      GoneOnTheWay(fs, LeafPlace(fs, job, i), [], job.leaves[j].dir, MAX_LINKS);
    }
  }

  // A file's clone is refused where nothing is.
  lemma RefusedClone(fs: Fs, job: Job, j: nat) returns (run: seq<Step>, s: State)
    requires Usable(fs, job.leaves) && WaysClear(fs, job) && j < |job.leaves| && job.leaves[j].node.File?
    requires CanPut(fs, job.force, LeafPlace(fs, job, j))
    ensures ComesTo(fs, job, run, s) && KeptState(fs, job, s) && s.fs == fs - {LeafPlace(fs, job, j)}
    ensures |s.pcs| == |job.leaves| && s.pcs[j].Library? && s.pcs == Init(fs, job).pcs[j := s.pcs[j]]
  {
    run := Nothing(fs, job);
    run, s := Freed(fs, job, run, Init(fs, job), j);
    run, s := Refused(fs, job, run, s, j);
  }

  lemma FreedAndFilled(fs: Fs, place: Place, node: Node)
    ensures fs - {place} - {place} == fs - {place} && (fs - {place})[place := node] == fs[place := node]
  {
  }

  // Then a link is put there.
  lemma LinkUnderTheByteCopy(fs: Fs, job: Job, i: nat, j: nat) returns (run: seq<Step>, s: State)
    requires Usable(fs, job.leaves) && WaysClear(fs, job) && i < |job.leaves| && j < |job.leaves|
    requires job.leaves[i].node.Link? && job.leaves[j].node.File? && LeafPlace(fs, job, i) == LeafPlace(fs, job, j)
    requires CanPut(fs, job.force, LeafPlace(fs, job, i))
    ensures ComesTo(fs, job, run, s) && s.fs == fs[LeafPlace(fs, job, i) := job.leaves[i].node]
    ensures |s.pcs| == |job.leaves| && s.pcs[i] == Finished(Copied) && s.pcs[j].Library?
  {
    assert i != j;
    run, s := RefusedClone(fs, job, j);
    FreedAndFilled(fs, LeafPlace(fs, job, i), job.leaves[i].node);
    run, s := Freed(fs, job, run, s, i);
    run, s := Filled(fs, job, run, s, i);
  }

  lemma LinkOnAWay(fs: Fs, job: Job, i: nat, j: nat) returns (run: seq<Step>)
    requires Usable(fs, job.leaves) && job.force && i < |job.leaves| && j < |job.leaves|
    requires LeafPlace(fs, job, i) in LinksUsed(fs, [], job.leaves[j].dir, MAX_LINKS)
    ensures IsRun(job, Init(fs, job), run) && Own(run) && !Straight(fs, job, Exec(job, Init(fs, job), run))
  {
    LinksUsedAreThere(fs, [], job.leaves[j].dir, MAX_LINKS);
    assert job.leaves[j] in job.leaves;
    var s;
    run, s := LinkGone(fs, job, i);
  }

  lemma NotTame(fs: Fs, job: Job) returns (run: seq<Step>)
    requires Usable(fs, job.leaves) && !Tame(fs, job)
    ensures IsRun(job, Init(fs, job), run) && Own(run) && !Straight(fs, job, Exec(job, Init(fs, job), run))
  {
    if !WaysClear(fs, job) {
      var i, j :| 0 <= i < |job.leaves| && 0 <= j < |job.leaves|
        && LeafPlace(fs, job, i) in LinksUsed(fs, [], job.leaves[j].dir, MAX_LINKS);
      run := LinkOnAWay(fs, job, i, j);
    } else {
      var i, j :| 0 <= i < |job.leaves| && 0 <= j < |job.leaves| && job.leaves[i].node.Link?
        && job.leaves[j].node.File? && CanPut(fs, job.force, LeafPlace(fs, job, i))
        && LeafPlace(fs, job, i) == LeafPlace(fs, job, j);
      var s;
      run, s := LinkUnderTheByteCopy(fs, job, i, j);
    }
  }

  // In every run, whatever fails, every call reaches the leaf's own place and none goes through a link there,
  // exactly when no leaf's link is on a leaf's way, if `force` removes it, and no link and file are for one
  // place that can be had.
  lemma EveryRunIsStraightExactlyWhenTame(fs: Fs, job: Job)
    requires Usable(fs, job.leaves)
    ensures EveryRunStraight(fs, job) <==> Tame(fs, job)
  {
    if Tame(fs, job) {
      forall run | IsRun(job, Init(fs, job), run) && Own(run)
        ensures Straight(fs, job, Exec(job, Init(fs, job), run))
      {
        RunIsTame(fs, job, run);
        TameIsStraight(fs, job, Exec(job, Init(fs, job), run));
      }
    } else {
      var run := NotTame(fs, job);
    }
  }

  lemma TameIsStraight(fs: Fs, job: Job, s: State)
    requires Usable(fs, job.leaves) && Tame(fs, job) && TameState(fs, job, s)
    ensures Straight(fs, job, s)
  {
    forall i | 0 <= i < |s.pcs| && !s.pcs[i].Finished?
      ensures Canonicalize(s.fs, job.leaves[i].dir) == Canonicalize(fs, job.leaves[i].dir)
      ensures s.pcs[i].Library? || s.pcs[i].Setting? ==> !LinkAt(s.fs, LeafPlace(fs, job, i))
    {
      assert TamePc(fs, job, s, i);
      KeptLeads(fs, job, s.fs, i);
    }
  }

  // Then nothing outside the root changes, at any time, whatever fails; and without `force` nothing that was
  // there.
  lemma TamePassStaysWithin(fs: Fs, job: Job, run: seq<Step>, root: Place)
    requires Usable(fs, job.leaves) && Tame(fs, job) && IsRun(job, Init(fs, job), run) && Own(run)
    requires forall leaf :: leaf in job.leaves ==> DirWithin(fs, leaf.dir, root)
    ensures var s := Exec(job, Init(fs, job), run);
      SameOutside(fs, s.fs, root) && (!job.force ==> Keeps(fs, s.fs))
  {
    RunIsTame(fs, job, run);
    var s := Exec(job, Init(fs, job), run);
    forall p | Changed(fs, s.fs, p)
      ensures root <= p && (!job.force ==> p !in fs)
    {
      var i :| 0 <= i < |job.leaves| && LeafPlace(fs, job, i) == p;
      assert job.leaves[i] in job.leaves;
      assert p[..|p| - 1] == Canonicalize(fs, job.leaves[i].dir).value;
    }
    assert forall p :: !(root <= p) ==> !Changed(fs, s.fs, p);
    assert !job.force ==> forall p :: p in fs ==> !Changed(fs, s.fs, p);
  }

  // ---------------------------------------------------------------- one outcome, whatever the interleaving

  // Leaves for one place find it taken; and with `force` no directory is in a leaf's place, and no leaf's link
  // is on a leaf's way.
  ghost predicate Apart(fs: Fs, job: Job) {
    && WaysClear(fs, job)
    && (forall i :: 0 <= i < |job.leaves| ==> !Blocked(fs, job.leaves[i], job.force))
    && forall i, j :: 0 <= i < j < |job.leaves| && CanPut(fs, job.force, LeafPlace(fs, job, i)) ==>
         LeafPlace(fs, job, i) != LeafPlace(fs, job, j)
  }

  // What is to become of a leaf: it is skipped only where something is there and may stay.
  function Due(fs: Fs, job: Job, i: nat): Outcome
    requires i < |job.leaves|
  {
    if !job.force && LeafPlace(fs, job, i) in fs then Skipped else Copied
  }

  ghost predicate NoneFailed(s: State) {
    forall i :: 0 <= i < |s.pcs| ==> s.pcs[i] != Finished(Failed)
  }

  // So far every leaf has come to what is due, unless its own call failed by itself; and when all have, the
  // destination holds every leaf at the place it had at first.
  ghost predicate AsDue(fs: Fs, job: Job, calm: bool, s: State) {
    && |s.pcs| == |job.leaves|
    && (calm ==> NoneFailed(s))
    && (forall i :: 0 <= i < |s.pcs| && s.pcs[i].Finished? && !s.pcs[i].outcome.Failed? ==>
          s.pcs[i].outcome == Due(fs, job, i))
    && (AllFinished(s) && NoneFailed(s) ==> s.fs == Over(fs, job.leaves, job.force))
  }

  ghost predicate EveryRunAsDue(fs: Fs, job: Job) {
    forall run :: IsRun(job, Init(fs, job), run) && Own(run) ==>
      AsDue(fs, job, Calm(run), Exec(job, Init(fs, job), run))
  }

  ghost predicate DuePc(fs: Fs, job: Job, calm: bool, s: State, i: nat)
    requires i < |s.pcs| == |job.leaves|
  {
    var place := LeafPlace(fs, job, i);
    match s.pcs[i]
    case Start => !Changed(fs, s.fs, place)
    case Setting => place in s.fs && s.fs[place] == job.leaves[i].node
    case Finished(outcome) =>
      (match outcome
       case Copied => CanPut(fs, job.force, place) && place in s.fs && s.fs[place] == job.leaves[i].node
       case Skipped => !job.force && place in fs
       case Failed => !calm)
    case _ => place !in s.fs
  }

  ghost predicate DueState(fs: Fs, job: Job, calm: bool, s: State) {
    TameState(fs, job, s) && forall i :: 0 <= i < |s.pcs| ==> DuePc(fs, job, calm, s, i)
  }

  lemma ApartIsTame(fs: Fs, job: Job)
    requires Apart(fs, job)
    ensures Tame(fs, job)
  {
  }

  lemma DueSelf(fs: Fs, job: Job, calm: bool, s: State, i: nat, turn: Turn)
    requires Usable(fs, job.leaves) && Apart(fs, job) && DueState(fs, job, calm, s)
    requires Enabled(job, s, Call(i, turn)) && (calm ==> !OwnFault(turn))
    ensures DuePc(fs, job, calm, Apply(job, s, Call(i, turn)), i)
  {
    assert DuePc(fs, job, calm, s, i) && TamePc(fs, job, s, i);
    var place := LeafPlace(fs, job, i);
    HomeCallOf(fs, job, s, i, turn);
    assert !Blocked(fs, job.leaves[i], job.force);
    if place in s.fs ==> job.force && s.fs[place] != Dir {
      CouldPut(fs, job, s.fs, place);
    }
  }

  lemma NothingDone(fs: Fs, job: Job, calm: bool, s: State, i: nat, turn: Turn)
    requires Usable(fs, job.leaves) && Apart(fs, job) && DueState(fs, job, calm, s) && Enabled(job, s, Call(i, turn))
    requires !CanPut(fs, job.force, LeafPlace(fs, job, i))
    ensures Apply(job, s, Call(i, turn)).fs == s.fs
  {
    assert DuePc(fs, job, calm, s, i) && TamePc(fs, job, s, i) && !Blocked(fs, job.leaves[i], job.force);
    HomeCallOf(fs, job, s, i, turn);
  }

  // Another leaf's call leaves the place alone: it has a place of its own, or finds this one taken.
  lemma DueOther(fs: Fs, job: Job, calm: bool, s: State, i: nat, turn: Turn, j: nat)
    requires Usable(fs, job.leaves) && Apart(fs, job) && DueState(fs, job, calm, s)
    requires Enabled(job, s, Call(i, turn)) && j < |s.pcs| && j != i
    ensures DuePc(fs, job, calm, Apply(job, s, Call(i, turn)), j)
  {
    var t, place := Apply(job, s, Call(i, turn)), LeafPlace(fs, job, i);
    assert DuePc(fs, job, calm, s, j) && TamePc(fs, job, s, i) && t.pcs[j] == s.pcs[j];
    if CanPut(fs, job.force, place) {
      assert place != LeafPlace(fs, job, j);
      HomeCallOf(fs, job, s, i, turn);
      HomeEffect(s.fs, place, job.leaves[i].node, job.force, s.pcs[i], turn);
      assert !Changed(s.fs, t.fs, LeafPlace(fs, job, j));
    } else {
      NothingDone(fs, job, calm, s, i, turn);
    }
  }

  lemma DueCall(fs: Fs, job: Job, calm: bool, s: State, i: nat, turn: Turn)
    requires Usable(fs, job.leaves) && Apart(fs, job) && DueState(fs, job, calm, s)
    requires Enabled(job, s, Call(i, turn)) && (calm ==> !OwnFault(turn))
    ensures DueState(fs, job, calm, Apply(job, s, Call(i, turn)))
  {
    ApartIsTame(fs, job);
    TameCall(fs, job, s, i, turn);
    forall j | 0 <= j < |s.pcs|
      ensures DuePc(fs, job, calm, Apply(job, s, Call(i, turn)), j)
    {
      if j == i {
        DueSelf(fs, job, calm, s, i, turn);
      } else {
        DueOther(fs, job, calm, s, i, turn, j);
      }
    }
  }

  lemma {:induction false} RunIsDue(fs: Fs, job: Job, calm: bool, run: seq<Step>)
    requires Usable(fs, job.leaves) && Apart(fs, job) && IsRun(job, Init(fs, job), run) && Own(run)
    requires calm ==> Calm(run)
    ensures DueState(fs, job, calm, Exec(job, Init(fs, job), run))
    decreases |run|
  {
    if run == [] {
      InitIsKept(fs, job);
    } else {
      var front, last := run[..|run| - 1], run[|run| - 1];
      OneLess(job, Init(fs, job), run);
      RunIsDue(fs, job, calm, front);
      DueCall(fs, job, calm, Exec(job, Init(fs, job), front), last.i, last.turn);
    }
  }

  lemma FixedAgrees(fs: Fs, job: Job)
    requires Apart(fs, job)
    ensures F.Agree(fs, Fixed(fs, job.leaves), job.force)
    ensures forall p :: F.Present(Fixed(fs, job.leaves), p) <==> IsPlace(fs, job, p)
  {
    var fixed := Fixed(fs, job.leaves);
    forall i, j | 0 <= i < |fixed| && 0 <= j < |fixed| && fixed[i].target == fixed[j].target
      ensures fixed[i].entry == fixed[j].entry || (!job.force && fixed[i].target in fs)
    {
      assert !Blocked(fs, job.leaves[i], job.force);
      assert LeafPlace(fs, job, i) == LeafPlace(fs, job, j);
    }
    forall p
      ensures F.Present(fixed, p) <==> IsPlace(fs, job, p)
    {
      assert forall i :: 0 <= i < |fixed| ==> fixed[i].target == LeafPlace(fs, job, i);
    }
  }

  lemma EndAt(fs: Fs, job: Job, calm: bool, s: State, i: nat)
    requires Apart(fs, job) && DueState(fs, job, calm, s) && i < |s.pcs|
    requires s.pcs[i].Finished? && !s.pcs[i].outcome.Failed?
    ensures var place := LeafPlace(fs, job, i);
      place in s.fs && s.fs[place] == if !job.force && place in fs then fs[place] else job.leaves[i].node
  {
    assert DuePc(fs, job, calm, s, i);
    assert !Changed(fs, s.fs, LeafPlace(fs, job, i)) || CanPut(fs, job.force, LeafPlace(fs, job, i));
  }

  lemma EndElsewhere(fs: Fs, job: Job, g: Fs, p: Place)
    requires Kept(fs, job, g) && !IsPlace(fs, job, p)
    ensures (p in g <==> p in fs) && (p in fs ==> g[p] == fs[p])
  {
    assert !Changed(fs, g, p);
  }

  lemma EndSettles(fs: Fs, job: Job, calm: bool, s: State)
    requires Apart(fs, job) && DueState(fs, job, calm, s) && AllFinished(s) && NoneFailed(s)
    ensures F.Settled(fs, Fixed(fs, job.leaves), job.force, s.fs)
  {
    var fixed := Fixed(fs, job.leaves);
    FixedAgrees(fs, job);
    forall i | 0 <= i < |fixed|
      ensures fixed[i].target in s.fs && s.fs[fixed[i].target] ==
        if !job.force && fixed[i].target in fs then fs[fixed[i].target] else fixed[i].entry
    {
      EndAt(fs, job, calm, s, i);
    }
    forall p
      ensures p in s.fs <==> p in fs || F.Present(fixed, p)
      ensures p in fs && !F.Present(fixed, p) ==> s.fs[p] == fs[p]
    {
      if !F.Present(fixed, p) {
        EndElsewhere(fs, job, s.fs, p);
      }
    }
  }

  lemma DueEnds(fs: Fs, job: Job, calm: bool, s: State)
    requires Apart(fs, job) && DueState(fs, job, calm, s)
    ensures AsDue(fs, job, calm, s)
  {
    forall i | 0 <= i < |s.pcs| && s.pcs[i].Finished?
      ensures s.pcs[i].outcome.Failed? ==> !calm
      ensures !s.pcs[i].outcome.Failed? ==> s.pcs[i].outcome == Due(fs, job, i)
    {
      assert DuePc(fs, job, calm, s, i);
    }
    if AllFinished(s) && NoneFailed(s) {
      FixedAgrees(fs, job);
      F.AgreeingLeavesSettle(fs, Fixed(fs, job.leaves), job.force);
      EndSettles(fs, job, calm, s);
      F.SettledOnce(fs, Fixed(fs, job.leaves), Fixed(fs, job.leaves), job.force, s.fs, Over(fs, job.leaves, job.force));
    }
  }

  // A leaf has come to something else, for good.
  ghost predicate Undue(fs: Fs, job: Job, s: State) {
    |s.pcs| == |job.leaves| && exists i :: 0 <= i < |s.pcs| && s.pcs[i].Finished? && s.pcs[i].outcome != Due(fs, job, i)
  }

  lemma NotAsDue(fs: Fs, job: Job, s: State)
    requires Undue(fs, job, s)
    ensures !AsDue(fs, job, true, s)
  {
    var i :| 0 <= i < |s.pcs| && s.pcs[i].Finished? && s.pcs[i].outcome != Due(fs, job, i);
    assert s.pcs[i] == Finished(s.pcs[i].outcome);
  }

  lemma IsUndue(fs: Fs, job: Job, s: State, i: nat)
    requires i < |s.pcs| == |job.leaves| && s.pcs[i].Finished? && s.pcs[i].outcome != Due(fs, job, i)
    ensures Undue(fs, job, s)
  {
  }

  lemma StoppedAtDirectory(fs: Fs, job: Job, run: seq<Step>, s: State, i: nat) returns (more: seq<Step>, t: State)
    requires Usable(fs, job.leaves) && WaysClear(fs, job) && KeptState(fs, job, s) && ComesTo(fs, job, run, s)
    requires i < |s.pcs| && s.pcs[i].Start? && job.force
    requires LeafPlace(fs, job, i) in s.fs && s.fs[LeafPlace(fs, job, i)] == Dir
    ensures ComesTo(fs, job, more, t) && t == State(s.fs, s.pcs[i := Finished(Failed)])
  {
    more, t := FurtherAtHome(fs, job, run, s, i, Goes);
  }

  // A directory is in a leaf's place.
  lemma FailsAtDirectory(fs: Fs, job: Job, i: nat) returns (run: seq<Step>, s: State)
    requires Usable(fs, job.leaves) && WaysClear(fs, job) && i < |job.leaves| && Blocked(fs, job.leaves[i], job.force)
    ensures ComesTo(fs, job, run, s) && Undue(fs, job, s)
  {
    run := Nothing(fs, job);
    run, s := StoppedAtDirectory(fs, job, run, Init(fs, job), i);
    IsUndue(fs, job, s, i);
  }

  lemma {:induction false} SeekIsCall(fs: Fs, leaf: Leaf, force: bool, pc: Pc)
    requires Seek(fs, leaf.dir) == NoEntry && leaf.node != Dir && (pc.Ready? || (pc.Start? && force))
    ensures CallOf(fs, leaf, force, pc, Goes) == Next(fs,
      if pc.Start? then Ready(false) else if leaf.node.Link? then Finished(Failed) else Vanished(pc.removed))
  {
  }

  lemma FurtherInTheGap(fs: Fs, job: Job, run: seq<Step>, s: State, j: nat) returns (more: seq<Step>, t: State)
    requires ComesTo(fs, job, run, s) && j < |s.pcs| == |job.leaves| && job.leaves[j].node != Dir
    requires Seek(s.fs, job.leaves[j].dir) == NoEntry && (s.pcs[j].Ready? || (s.pcs[j].Start? && job.force))
    ensures ComesTo(fs, job, more, t)
    ensures t == State(s.fs, s.pcs[j := if s.pcs[j].Start? then Ready(false)
      else if job.leaves[j].node.Link? then Finished(Failed) else Vanished(s.pcs[j].removed)])
  {
    SeekIsCall(s.fs, job.leaves[j], job.force, s.pcs[j]);
    t := Apply(job, s, Call(j, Goes));
    more := Further(fs, job, run, s, j, Goes);
  }

  // While a link is gone, a leaf that is reached through it is skipped, or fails.
  lemma MissedInTheGap(fs: Fs, job: Job, i: nat, j: nat) returns (run: seq<Step>, s: State)
    requires Usable(fs, job.leaves) && job.force && i < |job.leaves| && j < |job.leaves|
    requires LinkAt(fs, LeafPlace(fs, job, i))
    requires LeafPlace(fs, job, i) in LinksUsed(fs, [], job.leaves[j].dir, MAX_LINKS)
    ensures ComesTo(fs, job, run, s) && Undue(fs, job, s)
    ensures |s.pcs| == |job.leaves| && s.fs == fs - {LeafPlace(fs, job, i)} && (i != j ==> s.pcs[i] == Ready(true))
    ensures s.pcs[j] == Finished(if i != j && job.leaves[j].node.File? then Skipped else Failed)
  {
    assert job.leaves[j] in job.leaves;
    run, s := LinkGone(fs, job, i);
    if j != i {
      run, s := FurtherInTheGap(fs, job, run, s, j);
    }
    run, s := FurtherInTheGap(fs, job, run, s, j);
    IsUndue(fs, job, s, j);
  }

  // Whether or not there is `force`, both may find the place free, or free it, before either is copied.
  lemma BothFreed(fs: Fs, job: Job, i: nat, j: nat) returns (run: seq<Step>, s: State)
    requires Usable(fs, job.leaves) && WaysClear(fs, job) && i < |job.leaves| && j < |job.leaves| && i != j
    requires LeafPlace(fs, job, i) == LeafPlace(fs, job, j) && CanPut(fs, job.force, LeafPlace(fs, job, i))
    ensures ComesTo(fs, job, run, s) && KeptState(fs, job, s) && s.fs == fs - {LeafPlace(fs, job, i)}
    ensures s.pcs[i].Ready? && s.pcs[j].Ready?
  {
    run := Nothing(fs, job);
    run, s := Freed(fs, job, run, Init(fs, job), i);
    run, s := Freed(fs, job, run, s, j);
  }

  // The second is then skipped, or fails if it is a link, though the two be the same.
  lemma SecondIsMissed(fs: Fs, job: Job, i: nat, j: nat) returns (run: seq<Step>, s: State)
    requires Usable(fs, job.leaves) && WaysClear(fs, job) && i < |job.leaves| && j < |job.leaves| && i != j
    requires LeafPlace(fs, job, i) == LeafPlace(fs, job, j) && CanPut(fs, job.force, LeafPlace(fs, job, i))
    ensures ComesTo(fs, job, run, s) && Undue(fs, job, s) && |s.pcs| == |job.leaves|
    ensures s.pcs[j] == Finished(if job.leaves[j].node.Link? then Failed else Skipped)
  {
    run, s := BothFreed(fs, job, i, j);
    run, s := Filled(fs, job, run, s, i);
    run, s := Taken(fs, job, run, s, j);
    IsUndue(fs, job, s, j);
  }

  lemma NotApart(fs: Fs, job: Job) returns (run: seq<Step>, s: State)
    requires Usable(fs, job.leaves) && !Apart(fs, job)
    ensures ComesTo(fs, job, run, s) && Undue(fs, job, s)
  {
    if !WaysClear(fs, job) {
      run, s := NotClear(fs, job);
    } else if i :| 0 <= i < |job.leaves| && Blocked(fs, job.leaves[i], job.force) {
      run, s := FailsAtDirectory(fs, job, i);
    } else {
      var i, j :| 0 <= i < j < |job.leaves| && CanPut(fs, job.force, LeafPlace(fs, job, i))
        && LeafPlace(fs, job, i) == LeafPlace(fs, job, j);
      run, s := SecondIsMissed(fs, job, i, j);
    }
  }

  lemma NotClear(fs: Fs, job: Job) returns (run: seq<Step>, s: State)
    requires Usable(fs, job.leaves) && !WaysClear(fs, job)
    ensures ComesTo(fs, job, run, s) && Undue(fs, job, s)
  {
    var i, j :| 0 <= i < |job.leaves| && 0 <= j < |job.leaves|
      && LeafPlace(fs, job, i) in LinksUsed(fs, [], job.leaves[j].dir, MAX_LINKS);
    LinksUsedAreThere(fs, [], job.leaves[j].dir, MAX_LINKS);
    run, s := MissedInTheGap(fs, job, i, j);
  }

  // Every run copies every leaf whose place can be had, to that place, and skips every other, whatever the
  // interleaving and whichever clones are refused, exactly when the leaves are apart.
  lemma EveryRunIsAsDueExactlyWhenApart(fs: Fs, job: Job)
    requires Usable(fs, job.leaves)
    ensures EveryRunAsDue(fs, job) <==> Apart(fs, job)
  {
    if Apart(fs, job) {
      forall run | IsRun(job, Init(fs, job), run) && Own(run)
        ensures AsDue(fs, job, Calm(run), Exec(job, Init(fs, job), run))
      {
        RunIsDue(fs, job, Calm(run), run);
        DueEnds(fs, job, Calm(run), Exec(job, Init(fs, job), run));
      }
    } else {
      var run, s := NotApart(fs, job);
      NotAsDue(fs, job, s);
    }
  }
}
