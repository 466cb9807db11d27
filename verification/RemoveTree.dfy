/** Removal while other processes change the tree: every system call is relative to an open directory. */
module RemovalRaces {
  import opened Common

  type Inode = nat

  datatype Node =
    | Directory(entries: map<string, Inode>, ownerAccess: bool)
    | Symlink(leadsTo: Inode)
    | Regular

  type Fs = map<Inode, Node>

  // The directories the removal has opened.
  datatype State = State(fs: Fs, opens: set<Inode>)

  datatype Call =
    | OpenDir(dir: Inode, name: string)
    | Unlink(dir: Inode, name: string)
    | Rmdir(dir: Inode, name: string)
    | ChangeMode(dir: Inode)
    | GrantAccess(dir: Inode, name: string)

  datatype Step = Removal(call: Call) | Others(fs: Fs)

  // The name being removed, in the directory that holds it.
  datatype Job = Job(holder: Inode, name: string, outside: set<Inode>)

  predicate Names(fs: Fs, dir: Inode, name: string) {
    dir in fs && fs[dir].Directory? && name in fs[dir].entries && fs[dir].entries[name] in fs
  }

  function Named(fs: Fs, dir: Inode, name: string): Inode
    requires Names(fs, dir, name)
  {
    fs[dir].entries[name]
  }

  predicate NamesDirectory(fs: Fs, dir: Inode, name: string) {
    Names(fs, dir, name) && fs[Named(fs, dir, name)].Directory?
  }

  function WithoutName(fs: Fs, dir: Inode, name: string): Fs
    requires dir in fs && fs[dir].Directory?
  {
    fs[dir := fs[dir].(entries := fs[dir].entries - {name})]
  }

  // A call names the job's own entry, or is relative to a directory that is open.
  predicate MayCall(s: State, job: Job, call: Call) {
    match call
    case ChangeMode(dir) => dir in s.opens
    case _ => call.dir in s.opens || (call.dir == job.holder && call.name == job.name)
  }

  // What a call does when it succeeds. None follows a link: opening one fails, unlinking removes its name.
  function Perform(s: State, call: Call): State {
    match call
    case OpenDir(dir, name) =>
      if NamesDirectory(s.fs, dir, name) then s.(opens := s.opens + {Named(s.fs, dir, name)}) else s
    case Unlink(dir, name) =>
      if Names(s.fs, dir, name) && !NamesDirectory(s.fs, dir, name) then s.(fs := WithoutName(s.fs, dir, name)) else s
    case Rmdir(dir, name) =>
      if NamesDirectory(s.fs, dir, name) && s.fs[Named(s.fs, dir, name)].entries == map[]
      then s.(fs := WithoutName(s.fs, dir, name)) else s
    case ChangeMode(dir) => WithAccess(s, dir)
    case GrantAccess(dir, name) =>
      if NamesDirectory(s.fs, dir, name) then WithAccess(s, Named(s.fs, dir, name)) else s
  }

  function WithAccess(s: State, dir: Inode): State {
    if dir in s.fs && s.fs[dir].Directory? then s.(fs := s.fs[dir := s.fs[dir].(ownerAccess := true)]) else s
  }

  function Next(s: State, step: Step): State {
    match step
    case Removal(call) => Perform(s, call)
    case Others(fs) => s.(fs := fs)
  }

  predicate InScope(job: Job, dir: Inode, name: string) {
    dir !in job.outside || (dir == job.holder && name == job.name)
  }

  // Nobody brings a directory, or anything else, from outside into the tree. Links may lead anywhere.
  ghost predicate Sealed(fs: Fs, job: Job) {
    && job.holder in job.outside
    && forall dir, name :: dir in fs && fs[dir].Directory? && name in fs[dir].entries && InScope(job, dir, name) ==>
         fs[dir].entries[name] !in job.outside
  }

  ghost predicate IsRun(s: State, job: Job, steps: seq<Step>)
    decreases |steps|
  {
    steps == [] ||
    (&& (match steps[0]
         case Removal(call) => MayCall(s, job, call)
         case Others(fs) => Sealed(fs, job))
     && IsRun(Next(s, steps[0]), job, steps[1..]))
  }

  // Everything outside is as it was, but for the one name in the directory that holds it.
  ghost predicate Spared(was: Fs, now: Fs, job: Job) {
    forall i :: i in job.outside ==>
      && (i in was <==> i in now)
      && (i in was && i != job.holder ==> now[i] == was[i])
      && (i in was && i == job.holder && was[i].Directory? ==>
            now[i].Directory? && now[i].ownerAccess == was[i].ownerAccess
            && now[i].entries - {job.name} == was[i].entries - {job.name})
  }

  ghost predicate EveryCallSpares(s: State, job: Job, steps: seq<Step>)
    decreases |steps|
  {
    steps == [] ||
    (&& (steps[0].Removal? ==> Spared(s.fs, Next(s, steps[0]).fs, job))
     && EveryCallSpares(Next(s, steps[0]), job, steps[1..]))
  }

  ghost predicate Inv(s: State, job: Job) {
    Sealed(s.fs, job) && s.opens !! job.outside
  }

  lemma CallKeepsInv(s: State, job: Job, call: Call)
    requires Inv(s, job) && MayCall(s, job, call)
    ensures Inv(Perform(s, call), job)
    ensures Spared(s.fs, Perform(s, call).fs, job)
  {
    var next := Perform(s, call);
    forall dir, name | dir in next.fs && next.fs[dir].Directory? && name in next.fs[dir].entries
      ensures dir in s.fs && s.fs[dir].Directory? && name in s.fs[dir].entries
        && s.fs[dir].entries[name] == next.fs[dir].entries[name]
    {
    }
  }

  // In every run, whatever others do inside the tree, and whatever a directory is swapped for.
  lemma {:induction false} RemovalSparesTheOutside(s: State, job: Job, steps: seq<Step>)
    requires Inv(s, job) && IsRun(s, job, steps)
    ensures EveryCallSpares(s, job, steps)
    decreases |steps|
  {
    if steps != [] {
      match steps[0] {
        case Removal(call) => CallKeepsInv(s, job, call);
        case Others(_) =>
      }
      RemovalSparesTheOutside(Next(s, steps[0]), job, steps[1..]);
    }
  }

  // ---------------------------------------------------------------- the removal's own calls

  // Where the code is: in remove_entry before its first or second openat, its grant of access, its unlink or
  // its rmdir; in empty_dir before its chmod, its listing, or with what it has listed.
  datatype Frame =
    | Opening(dir: Inode, name: string, granted: bool)
    | Granting(dir: Inode, name: string)
    | Unlinking(dir: Inode, name: string)
    | Leaving(dir: Inode, name: string)
    | Entering(dir: Inode)
    | Listing(dir: Inode)
    | Emptying(dir: Inode, leaves: set<string>, dirs: seq<string>)

  datatype Stack = Done | Push(top: Frame, below: Stack)

  // What the system answers. The leaves of a directory are unlinked in parallel, in any order.
  datatype Answer =
    | Succeeded
    | NotADirectory
    | Denied
    | Failed
    | Listed(leaves: set<string>, dirs: seq<string>)
    | Tried(leaf: string, gone: bool)

  // A listing may show names that others have since taken away or replaced, as whatever kind.
  predicate Possible(s: State, frame: Frame, answer: Answer) {
    match frame
    case Opening(dir, name, _) =>
      && (answer.Succeeded? ==> NamesDirectory(s.fs, dir, name))
      && (answer.NotADirectory? ==> Names(s.fs, dir, name) && !NamesDirectory(s.fs, dir, name))
    case Listing(_) => answer.Listed?
    case Emptying(_, leaves, _) => leaves != {} ==> answer.Tried? && answer.leaf in leaves
    case _ => answer.Succeeded? || answer.Failed?
  }

  // The call made, if it takes effect.
  function CallMade(frame: Frame, answer: Answer): Option<Call> {
    match frame
    case Opening(dir, name, _) => if answer.Succeeded? then Some(OpenDir(dir, name)) else None
    case Granting(dir, name) => if answer.Succeeded? then Some(GrantAccess(dir, name)) else None
    case Unlinking(dir, name) => if answer.Succeeded? then Some(Unlink(dir, name)) else None
    case Leaving(dir, name) => if answer.Succeeded? then Some(Rmdir(dir, name)) else None
    case Entering(dir) => if answer.Succeeded? then Some(ChangeMode(dir)) else None
    case Listing(_) => None
    case Emptying(dir, leaves, _) =>
      if leaves != {} && answer.Tried? && answer.gone then Some(Unlink(dir, answer.leaf)) else None
  }

  // Where the code goes from there.
  function Resume(s: State, frame: Frame, answer: Answer, below: Stack): Stack
    requires Possible(s, frame, answer)
  {
    match frame
    case Opening(dir, name, granted) =>
      (match answer
       case Succeeded => Push(Entering(Named(s.fs, dir, name)), Push(Leaving(dir, name), below))
       case NotADirectory => if granted then below else Push(Unlinking(dir, name), below)
       case Denied => if granted then below else Push(Granting(dir, name), below)
       case _ => below)
    case Granting(dir, name) => if answer.Succeeded? then Push(Opening(dir, name, true), below) else below
    case Unlinking(_, _) => below
    case Leaving(_, _) => below
    case Entering(dir) => Push(Listing(dir), below)
    case Listing(dir) => Push(Emptying(dir, answer.leaves, answer.dirs), below)
    case Emptying(dir, leaves, dirs) =>
      if leaves != {} then Push(Emptying(dir, leaves - {answer.leaf}, dirs), below)
      else if dirs != [] then Push(Opening(dir, dirs[0], false), Push(Emptying(dir, {}, dirs[1..]), below))
      else below
  }

  datatype Move = Own(answer: Answer) | Meanwhile(fs: Fs)

  predicate CanMove(s: State, stack: Stack, move: Move) {
    move.Own? ==> stack.Push? && Possible(s, stack.top, move.answer)
  }

  function StateAfter(s: State, stack: Stack, move: Move): State
    requires CanMove(s, stack, move)
  {
    match move
    case Meanwhile(fs) => s.(fs := fs)
    case Own(answer) =>
      var call := CallMade(stack.top, answer);
      if call.Some? then Perform(s, call.value) else s
  }

  function StackAfter(s: State, stack: Stack, move: Move): Stack
    requires CanMove(s, stack, move)
  {
    if move.Own? then Resume(s, stack.top, move.answer, stack.below) else stack
  }

  ghost predicate IsCodeRun(s: State, stack: Stack, job: Job, moves: seq<Move>)
    decreases |moves|
  {
    moves == [] ||
    (&& CanMove(s, stack, moves[0])
     && (moves[0].Meanwhile? ==> Sealed(moves[0].fs, job))
     && IsCodeRun(StateAfter(s, stack, moves[0]), StackAfter(s, stack, moves[0]), job, moves[1..]))
  }

  ghost predicate EveryMoveSpares(s: State, stack: Stack, job: Job, moves: seq<Move>)
    requires IsCodeRun(s, stack, job, moves)
    decreases |moves|
  {
    moves == [] ||
    (&& (moves[0].Own? ==> Spared(s.fs, StateAfter(s, stack, moves[0]).fs, job))
     && EveryMoveSpares(StateAfter(s, stack, moves[0]), StackAfter(s, stack, moves[0]), job, moves[1..]))
  }

  // remove_entry works on the job's own name or below a directory that is open, empty_dir on an open one.
  predicate FrameKnown(s: State, job: Job, frame: Frame) {
    match frame
    case Entering(dir) => dir in s.opens
    case Listing(dir) => dir in s.opens
    case Emptying(dir, _, _) => dir in s.opens
    case _ => frame.dir in s.opens || (frame.dir == job.holder && frame.name == job.name)
  }

  predicate StackKnown(s: State, job: Job, stack: Stack) {
    stack.Push? ==> FrameKnown(s, job, stack.top) && StackKnown(s, job, stack.below)
  }

  lemma {:induction false} MoreOpened(s: State, next: State, job: Job, stack: Stack)
    requires StackKnown(s, job, stack) && s.opens <= next.opens
    ensures StackKnown(next, job, stack)
  {
    if stack.Push? {
      MoreOpened(s, next, job, stack.below);
    }
  }

  // Every call the code makes is one it may make, and what it goes on with is known in turn.
  lemma CodeMayCall(s: State, stack: Stack, job: Job, move: Move)
    requires StackKnown(s, job, stack) && CanMove(s, stack, move)
    ensures move.Own? && CallMade(stack.top, move.answer).Some? ==>
      MayCall(s, job, CallMade(stack.top, move.answer).value)
    ensures StackKnown(StateAfter(s, stack, move), job, StackAfter(s, stack, move))
  {
    MoreOpened(s, StateAfter(s, stack, move), job, stack);
  }

  lemma {:induction false} CodeRunSpares(s: State, stack: Stack, job: Job, moves: seq<Move>)
    requires Inv(s, job) && StackKnown(s, job, stack) && IsCodeRun(s, stack, job, moves)
    ensures EveryMoveSpares(s, stack, job, moves)
    decreases |moves|
  {
    if moves != [] {
      CodeMayCall(s, stack, job, moves[0]);
      if moves[0].Own? && CallMade(stack.top, moves[0].answer).Some? {
        CallKeepsInv(s, job, CallMade(stack.top, moves[0].answer).value);
      }
      CodeRunSpares(StateAfter(s, stack, moves[0]), StackAfter(s, stack, moves[0]), job, moves[1..]);
    }
  }

  // From the first openat on, whatever the answers, whatever the listings show, and whatever others do
  // inside the tree between two calls.
  lemma RemoveEntrySparesTheOutside(fs: Fs, job: Job, moves: seq<Move>)
    requires Sealed(fs, job)
    requires IsCodeRun(State(fs, {}), Push(Opening(job.holder, job.name, false), Done), job, moves)
    ensures EveryMoveSpares(State(fs, {}), Push(Opening(job.holder, job.name, false), Done), job, moves)
  {
    CodeRunSpares(State(fs, {}), Push(Opening(job.holder, job.name, false), Done), job, moves);
  }

  // Were a link followed when a directory is opened, the next call could change what is outside.
  lemma FollowingALinkWouldNot(s: State, job: Job, name: string)
    requires Inv(s, job) && Names(s.fs, job.holder, job.name) && s.fs[Named(s.fs, job.holder, job.name)].Symlink?
    requires var target := s.fs[Named(s.fs, job.holder, job.name)].leadsTo;
      target in job.outside && target != job.holder && Names(s.fs, target, name) && !NamesDirectory(s.fs, target, name)
    ensures Perform(s, OpenDir(job.holder, job.name)) == s
    ensures var target := s.fs[Named(s.fs, job.holder, job.name)].leadsTo;
      var followed := s.(opens := s.opens + {target});
      MayCall(followed, job, Unlink(target, name)) && !Spared(s.fs, Perform(followed, Unlink(target, name)).fs, job)
  {
    var target := s.fs[Named(s.fs, job.holder, job.name)].leadsTo;
    var now := Perform(s.(opens := s.opens + {target}), Unlink(target, name)).fs;
    assert name in s.fs[target].entries && name !in now[target].entries;
  }
}

/** Removal when nobody else acts: what is left, and what is recorded. */
module RemoveTree {
  import opened Common

  type Place = seq<string>

  // What the caller may do to a directory. Only its owner may change that.
  datatype Access = Access(read: bool, write: bool, search: bool)

  const ALL := Access(true, true, true)

  datatype Node =
    | Dir(owned: bool, access: Access)
    | Leaf(size: nat)

  type Fs = map<Place, Node>

  datatype OpenResult = Opened | NotADirectory | Denied | OpenFailed

  function Parent(p: Place): Place {
    if p == [] then [] else p[..|p| - 1]
  }

  ghost predicate WellFormed(fs: Fs) {
    && [] in fs
    && forall p :: p in fs && p != [] ==> Parent(p) in fs && fs[Parent(p)].Dir?
  }

  // ---------------------------------------------------------------- totals over a tree

  ghost function Total(fs: Fs, w: Node -> nat): nat {
    if fs == map[] then 0
    else
      var p :| p in fs;
      w(fs[p]) + Total(fs - {p}, w)
  }

  lemma {:induction false} TotalWithout(fs: Fs, w: Node -> nat, p: Place)
    requires p in fs
    ensures Total(fs, w) == w(fs[p]) + Total(fs - {p}, w)
    decreases |fs|
  {
    var q :| q in fs && Total(fs, w) == w(fs[q]) + Total(fs - {q}, w);
    if q != p {
      TotalWithout(fs - {q}, w, p);
      TotalWithout(fs - {p}, w, q);
      assert fs - {q} - {p} == fs - {p} - {q};
    }
  }

  function One(node: Node): nat {
    if node.Leaf? then 1 else 0
  }

  function Bytes(node: Node): nat {
    if node.Leaf? then node.size else 0
  }

  function Below(fs: Fs, p: Place): Fs {
    map q | q in fs && p <= q :: fs[q]
  }

  function Beside(fs: Fs, p: Place): Fs {
    map q | q in fs && !(p <= q) :: fs[q]
  }

  lemma SplitWithout(fs: Fs, p: Place, q: Place)
    requires q in fs
    ensures Below(fs - {q}, p) == if p <= q then Below(fs, p) - {q} else Below(fs, p)
    ensures Beside(fs - {q}, p) == if p <= q then Beside(fs, p) else Beside(fs, p) - {q}
  {
  }

  lemma {:induction false} TotalSplits(fs: Fs, w: Node -> nat, p: Place)
    ensures Total(fs, w) == Total(Below(fs, p), w) + Total(Beside(fs, p), w)
    decreases |fs|
  {
    if fs != map[] {
      var q :| q in fs;
      var less := fs - {q};
      TotalWithout(fs, w, q);
      TotalSplits(less, w, p);
      SplitWithout(fs, p, q);
      if p <= q {
        TotalWithout(Below(fs, p), w, q);
      } else {
        TotalWithout(Beside(fs, p), w, q);
      }
    }
  }

  lemma TotalReplaced(fs: Fs, w: Node -> nat, p: Place, node: Node)
    requires p in fs && w(node) == w(fs[p])
    ensures Total(fs[p := node], w) == Total(fs, w)
  {
    TotalWithout(fs, w, p);
    TotalWithout(fs[p := node], w, p);
    assert fs[p := node] - {p} == fs - {p};
  }

  ghost function Leaves(fs: Fs): set<Place> {
    set p | p in fs && fs[p].Leaf?
  }

  lemma LeavesWithout(fs: Fs, p: Place)
    requires p in fs
    ensures |Leaves(fs)| == |Leaves(fs - {p})| + if fs[p].Leaf? then 1 else 0
  {
    var others := Leaves(fs - {p});
    assert p !in others;
    if fs[p].Leaf? {
      assert Leaves(fs) == others + {p};
    } else {
      assert Leaves(fs) == others;
    }
  }

  // One for each file and link.
  lemma {:induction false} OneForEachLeaf(fs: Fs)
    ensures Total(fs, One) == |Leaves(fs)|
    decreases |fs|
  {
    if fs == map[] {
      assert Leaves(fs) == {};
    } else {
      var p :| p in fs;
      TotalWithout(fs, One, p);
      OneForEachLeaf(fs - {p});
      LeavesWithout(fs, p);
    }
  }

  lemma BytesOfLeaves(fs: Fs, p: Place)
    requires p in fs
    ensures Total(fs, Bytes) == (if fs[p].Leaf? then fs[p].size else 0) + Total(fs - {p}, Bytes)
  {
    TotalWithout(fs, Bytes, p);
  }

  // ---------------------------------------------------------------- what a removal may change

  // At and below `p` things may go, and directories of the caller's may gain access. Elsewhere nothing changes.
  ghost predicate Pruned(was: Fs, now: Fs, p: Place) {
    && now.Keys <= was.Keys
    && (forall q :: q in was && !(p <= q) ==> q in now && now[q] == was[q])
    && (forall q :: q in now ==> now[q] == was[q] || (was[q].Dir? && was[q].owned && now[q] == Dir(true, ALL)))
  }

  ghost predicate Gone(fs: Fs, p: Place) {
    forall q :: q in fs ==> !(p <= q)
  }

  ghost predicate AllOwned(fs: Fs, p: Place) {
    forall q :: q in fs && p <= q && fs[q].Dir? ==> fs[q].owned
  }

  predicate Writable(fs: Fs, p: Place) {
    p in fs && fs[p].Dir? && fs[p].access.write && fs[p].access.search
  }

  predicate NeedsAccess(fs: Fs, p: Place) {
    p in fs && fs[p].Dir? && fs[p].owned && fs[p].access != ALL
  }

  // ---------------------------------------------------------------- which names go when nothing fails by itself

  // What the caller may do in a directory once the removal is in it: all in its own.
  function Held(fs: Fs, x: Place): Access
    requires x in fs && fs[x].Dir?
  {
    if fs[x].owned then ALL else fs[x].access
  }

  predicate Opens(fs: Fs, x: Place)
    requires x in fs && fs[x].Dir?
  {
    fs[x].owned || fs[x].access.read
  }

  // The same of the directory that holds `q`, where a removal starts at `p` in a directory of access `acc`.
  function Above(fs: Fs, acc: Access, p: Place, q: Place): Access {
    if q == p then acc
    else if Parent(q) in fs && fs[Parent(q)].Dir? then Held(fs, Parent(q))
    else Access(false, false, false)
  }

  // Every directory on the way from `p` to `q`, and below `q`, can be opened, and every directory that holds `q`
  // or anything below it can be written.
  ghost predicate Goes(fs: Fs, acc: Access, p: Place, q: Place) {
    && (forall x :: x in fs && p <= x && (x <= q || q <= x) && fs[x].Dir? ==>
          Opens(fs, x) && Above(fs, acc, p, x).search)
    && (forall r :: r in fs && q <= r ==> Above(fs, acc, p, r).write && Above(fs, acc, p, r).search)
  }

  ghost predicate Exactly(was: Fs, now: Fs, acc: Access, p: Place) {
    forall q :: q in was && p <= q ==> (q !in now <==> Goes(was, acc, p, q))
  }

  ghost predicate Same(was: Fs, now: Fs, p: Place) {
    forall q :: p <= q ==> (q in was <==> q in now) && (q in was ==> was[q] == now[q])
  }

  predicate IsChild(c: Place, p: Place) {
    c != [] && Parent(c) == p
  }

  lemma AboveSame(a: Fs, b: Fs, acc: Access, p: Place, q: Place)
    requires Same(a, b, p) && p <= q
    ensures Above(a, acc, p, q) == Above(b, acc, p, q)
  {
    if q != p {
      assert p <= Parent(q);
    }
  }

  lemma GoesSame(a: Fs, b: Fs, acc: Access, p: Place, q: Place)
    requires Same(a, b, p) && p <= q
    ensures Goes(a, acc, p, q) ==> Goes(b, acc, p, q)
  {
    forall r | p <= r
      ensures Above(a, acc, p, r) == Above(b, acc, p, r)
    {
      AboveSame(a, b, acc, p, r);
    }
  }

  lemma ExactlyLater(was: Fs, before: Fs, now: Fs, acc: Access, p: Place)
    requires Same(was, before, p) && Exactly(before, now, acc, p)
    ensures Exactly(was, now, acc, p)
  {
    forall q | q in was && p <= q
      ensures q !in now <==> Goes(was, acc, p, q)
    {
      GoesSame(was, before, acc, p, q);
      GoesSame(before, was, acc, p, q);
    }
  }

  lemma ExactlyStays(was: Fs, before: Fs, now: Fs, acc: Access, p: Place)
    requires Exactly(was, before, acc, p) && Same(before, now, p)
    ensures Exactly(was, now, acc, p)
  {
  }

  // A child's removal leaves its siblings alone.
  lemma SiblingsSame(before: Fs, now: Fs, p: Place, c: Place, other: Place)
    requires Pruned(before, now, c) && IsChild(c, p) && IsChild(other, p) && c != other
    ensures Same(before, now, other)
  {
    forall q | other <= q
      ensures (q in before <==> q in now) && (q in before ==> before[q] == now[q])
    {
      NotBelowBoth(c, other, q);
    }
  }

  lemma NotBelowBoth(c: Place, other: Place, q: Place)
    requires c != [] && other != [] && Parent(c) == Parent(other) && c != other && other <= q
    ensures !(c <= q)
  {
    assert |c| == |other| && q[..|other|] == other;
  }

  // A leaf goes exactly when its directory can be written.
  lemma LeafExactly(was: Fs, now: Fs, acc: Access, p: Place)
    requires WellFormed(was) && p in was && was[p].Leaf?
    requires now == if acc.write && acc.search then was - {p} else was
    ensures Exactly(was, now, acc, p)
  {
    NothingBelowALeaf(was, p);
  }

  ghost predicate ExactlyBelow(was: Fs, now: Fs, p: Place)
    requires p in was && was[p].Dir?
  {
    forall c :: c in was && IsChild(c, p) ==> Exactly(was, now, Held(was, p), c)
  }

  function ChildOnTheWay(p: Place, q: Place): (c: Place)
    requires p < q
    ensures IsChild(c, p) && c <= q
  {
    assert q[..|p| + 1][..|p|] == p;
    q[..|p| + 1]
  }

  // Below a directory that has been entered, the removal of an entry is that of the child that holds it.
  lemma GoesBelow(fs: Fs, acc: Access, p: Place, q: Place)
    requires p in fs && fs[p].Dir? && p < q
    ensures Goes(fs, acc, p, q) <==>
      Opens(fs, p) && acc.search && Goes(fs, Held(fs, p), ChildOnTheWay(p, q), q)
  {
    var c := ChildOnTheWay(p, q);
    forall r | c <= r
      ensures Above(fs, acc, p, r) == Above(fs, Held(fs, p), c, r)
    {
      assert r != p;
    }
    forall x | x in fs && p <= x && (x <= q || q <= x) && x != p
      ensures c <= x
    {
      if x <= q {
        assert x == q[..|x|] && c == x[..|c|];
      }
    }
  }

  // The directory itself goes when all below it does and its own can be written.
  lemma GoesItself(fs: Fs, acc: Access, p: Place)
    requires p in fs && fs[p].Dir?
    ensures Goes(fs, acc, p, p) <==>
      && Opens(fs, p) && acc.write && acc.search
      && forall q :: q in fs && p < q ==> Goes(fs, acc, p, q)
  {
    if Opens(fs, p) && acc.write && acc.search && forall q :: q in fs && p < q ==> Goes(fs, acc, p, q) {
      forall r | r in fs && p <= r
        ensures Above(fs, acc, p, r).write && Above(fs, acc, p, r).search && (fs[r].Dir? ==> Opens(fs, r))
      {
        if r != p {
          assert Goes(fs, acc, p, r);
        }
      }
    }
  }

  lemma PrunedTwice(a: Fs, b: Fs, c: Fs, p: Place, q: Place)
    requires Pruned(a, b, p) && Pruned(b, c, q) && p <= q
    ensures Pruned(a, c, p)
  {
  }

  lemma PrunedKeeps(a: Fs, b: Fs, p: Place)
    requires Pruned(a, b, p)
    ensures AllOwned(a, p) ==> AllOwned(b, p)
    ensures forall q :: Gone(a, q) ==> Gone(b, q)
  {
  }

  ghost predicate Shallow(fs: Fs, depth: nat) {
    forall q :: q in fs ==> |q| <= depth
  }

  class Disk {
    // No operation fails without a cause.
    const reliable: bool

    var fs: Fs
    // What the progress has recorded.
    var files: nat
    var bytes: nat

    method Fault() returns (fault: bool)
      ensures reliable ==> !fault
    {
      fault := *;
      fault := fault && !reliable;
    }

    ghost function Files(): nat
      reads this
    {
      files + Total(fs, One)
    }

    ghost function Size(): nat
      reads this
    {
      bytes + Total(fs, Bytes)
    }

    // `openat` with `O_DIRECTORY` and `O_NOFOLLOW`.
    method Open(p: Place) returns (r: OpenResult)
      requires WellFormed(fs) && p != [] && Parent(p) in fs && fs[Parent(p)].Dir?
      ensures r.Opened? ==> p in fs && fs[p].Dir?
      ensures r.NotADirectory? ==> p in fs && fs[p].Leaf?
      ensures r.Denied? ==> p in fs ==> fs[p].Dir? || !fs[Parent(p)].access.search
      ensures reliable && !fs[Parent(p)].access.search ==> r.Denied?
      ensures reliable && p in fs && fs[Parent(p)].access.search ==>
        r == if fs[p].Leaf? then NotADirectory else if fs[p].access.read then Opened else Denied
    {
      var fault := Fault();
      if fault {
        r := OpenFailed;
      } else if !fs[Parent(p)].access.search {
        r := Denied;
      } else if p !in fs {
        r := OpenFailed;
      } else if fs[p].Leaf? {
        r := NotADirectory;
      } else {
        r := if fs[p].access.read then Opened else Denied;
      }
    }

    // Adds the owner's permissions, unless they are there already.
    method WithOwnerAccess(p: Place) returns (ok: bool)
      requires WellFormed(fs) && p in fs && fs[p].Dir?
      modifies `fs
      ensures WellFormed(fs) && Pruned(old(fs), fs, p) && fs.Keys == old(fs).Keys
      ensures Files() == old(Files()) && Size() == old(Size())
      ensures ok ==> fs[p] == Dir(true, ALL)
      ensures reliable ==> fs == old(fs)[p := Dir(old(fs)[p].owned, Held(old(fs), p))]
      ensures reliable ==> ok == (old(fs)[p].owned && old(fs)[p].access != ALL)
    {
      var fault := Fault();
      ok := !fault && fs[p].owned && fs[p].access != ALL;
      if ok {
        TotalReplaced(fs, One, p, Dir(true, ALL));
        TotalReplaced(fs, Bytes, p, Dir(true, ALL));
        fs := fs[p := Dir(true, ALL)];
      }
    }

    method GrantOwnerAccess(p: Place) returns (ok: bool)
      requires WellFormed(fs) && p != [] && Parent(p) in fs && fs[Parent(p)].Dir?
      modifies `fs
      ensures WellFormed(fs) && Pruned(old(fs), fs, p) && fs.Keys == old(fs).Keys
      ensures Files() == old(Files()) && Size() == old(Size())
      ensures reliable ==> ok == (NeedsAccess(old(fs), p) && old(fs)[Parent(p)].access.search)
      ensures reliable ==> fs == if ok then old(fs)[p := Dir(true, ALL)] else old(fs)
    {
      var fault := Fault();
      if fault || !fs[Parent(p)].access.search || p !in fs || fs[p].Leaf? {
        return false;
      }
      ok := WithOwnerAccess(p);
    }

    // Removes a name below which nothing is.
    method Unlink(p: Place)
      requires WellFormed(fs) && p in fs && p != [] && forall q :: q in fs && p <= q ==> q == p
      modifies `fs
      ensures WellFormed(fs) && fs == old(fs) - {p} && Pruned(old(fs), fs, p) && Gone(fs, p)
      ensures Files() == old(Files()) - One(old(fs)[p]) && Size() == old(Size()) - Bytes(old(fs)[p])
    {
      TotalWithout(fs, One, p);
      TotalWithout(fs, Bytes, p);
      forall q | q in fs && q != p && q != []
        ensures Parent(q) != p
      {
        assert Parent(q) == p ==> p <= q;
      }
      fs := fs - {p};
    }

    method RemoveLeaf(p: Place)
      requires WellFormed(fs) && p != []
      modifies `fs, `files, `bytes
      ensures WellFormed(fs) && Pruned(old(fs), fs, p)
      ensures Files() == old(Files()) && Size() <= old(Size()) && (reliable ==> Size() == old(Size()))
      ensures reliable ==>
        fs == if p in old(fs) && old(fs)[p].Leaf? && Writable(old(fs), Parent(p)) then old(fs) - {p} else old(fs)
    {
      NothingBelowALeaf(fs, p);
      var fault := Fault();
      var size := if !fault && p in fs && fs[p].Leaf? && fs[Parent(p)].access.search then fs[p].size else 0;
      fault := Fault();
      if !fault && p in fs && fs[p].Leaf? && Writable(fs, Parent(p)) {
        Unlink(p);
        files := files + 1;
        bytes := bytes + size;
      }
    }

    // One pass over names in the directory `p`, in any order.
    method RemoveLeaves(p: Place, leaves: set<Place>)
      requires WellFormed(fs) && p in fs && fs[p].Dir?
      requires forall q :: q in leaves ==> q != [] && Parent(q) == p && (q in fs ==> fs[q].Leaf?)
      modifies this
      ensures WellFormed(fs) && Pruned(old(fs), fs, p) && p in fs && fs[p] == old(fs)[p]
      ensures Files() == old(Files()) && Size() <= old(Size()) && (reliable ==> Size() == old(Size()))
      ensures reliable ==> fs == WithoutLeaves(old(fs), p, leaves)
    {
      var left := leaves;
      assert leaves - left == {};
      while left != {}
        invariant left <= leaves && WellFormed(fs) && Pruned(old(fs), fs, p) && p in fs && fs[p] == old(fs)[p]
        invariant forall q :: q in left && q in fs ==> fs[q].Leaf?
        invariant Files() == old(Files()) && Size() <= old(Size()) && (reliable ==> Size() == old(Size()))
        invariant reliable ==> fs == WithoutLeaves(old(fs), p, leaves - left)
        decreases |left|
      {
        var q :| q in left;
        ghost var before := fs;
        RemoveLeaf(q);
        ChildPruned(old(fs), before, fs, p, q);
        if reliable {
          OneLeafLess(old(fs), before, fs, p, leaves, left, q);
        }
        left := left - {q};
      }
      assert leaves - left == leaves;
    }

    method RemoveDirs(p: Place, dirs: set<Place>, ghost depth: nat)
      requires WellFormed(fs) && p in fs && fs[p].Dir? && Shallow(fs, depth)
      requires forall q :: q in dirs ==> IsChild(q, p)
      modifies this
      ensures WellFormed(fs) && Pruned(old(fs), fs, p) && p in fs && fs[p] == old(fs)[p]
      ensures Files() == old(Files()) && Size() <= old(Size()) && (reliable ==> Size() == old(Size()))
      ensures EachDone(reliable, old(fs), fs, p, dirs)
      decreases depth - |p|, 1
    {
      var left := dirs;
      NoneDone(reliable, fs, p);
      OneLess(dirs, left);
      while left != {}
        invariant left <= dirs && WellFormed(fs) && Pruned(old(fs), fs, p) && p in fs && fs[p] == old(fs)[p]
        invariant Files() == old(Files()) && Size() <= old(Size()) && (reliable ==> Size() == old(Size()))
        invariant EachDone(reliable, old(fs), fs, p, dirs - left)
        decreases |left|
      {
        OneLess(dirs, left);
        var q :| q in left;
        RemoveChild(p, q, old(fs), dirs - left, depth);
        left := left - {q};
      }
      OneLess(dirs, left);
    }

    method RemoveChild(p: Place, q: Place, ghost was: Fs, ghost done: set<Place>, ghost depth: nat)
      requires WellFormed(fs) && p in fs && fs[p].Dir? && Shallow(was, depth)
      requires p in was && was[p] == fs[p] && Pruned(was, fs, p) && EachDone(reliable, was, fs, p, done)
      requires IsChild(q, p) && q !in done && forall c :: c in done ==> IsChild(c, p)
      modifies this
      ensures WellFormed(fs) && Pruned(was, fs, p) && p in fs && fs[p] == was[p]
      ensures Files() == old(Files()) && Size() <= old(Size()) && (reliable ==> Size() == old(Size()))
      ensures EachDone(reliable, was, fs, p, done + {q})
      decreases depth - |p|, 0
    {
      ghost var before := fs;
      RemoveEntry(q, depth);
      ChildPruned(was, before, fs, p, q);
      OneMoreDone(reliable, was, before, fs, p, done, q);
    }

    method EmptyDir(p: Place, ghost depth: nat)
      requires WellFormed(fs) && p in fs && fs[p].Dir? && Shallow(fs, depth)
      modifies this
      ensures WellFormed(fs) && Pruned(old(fs), fs, p) && p in fs && fs[p].Dir?
      ensures Files() == old(Files()) && Size() <= old(Size()) && (reliable ==> Size() == old(Size()))
      ensures reliable ==> ExactlyBelow(old(fs), fs, p)
      decreases depth - |p|, 2
    {
      var _ := WithOwnerAccess(p);
      ghost var entered := fs;
      var children, dirs, leaves := List(p);
      RemoveLeaves(p, leaves);
      ghost var between := fs;
      RemoveDirs(p, dirs, depth);
      PrunedTwice(entered, between, fs, p, p);
      PrunedTwice(old(fs), entered, fs, p, p);
      if reliable {
        Emptied(old(fs), entered, between, fs, p, dirs, leaves);
      }
    }

    // The entries of a directory. Those whose kind the listing does not tell go with the directories.
    method List(p: Place) returns (ghost children: set<Place>, dirs: set<Place>, leaves: set<Place>)
      ensures forall q :: q in children <==> q in fs && q != [] && Parent(q) == p
      ensures dirs + leaves <= children && dirs !! leaves && (reliable ==> dirs + leaves == children)
      ensures forall q :: q in leaves ==> fs[q].Leaf?
    {
      var found := set q | q in fs && q != [] && Parent(q) == p;
      var unseen: set<Place>, unknown: set<Place> := *, *;
      if reliable {
        unseen := {};
      }
      children := found;
      dirs := set q | q in found && q !in unseen && (fs[q].Dir? || q in unknown);
      leaves := set q | q in found && q !in unseen && fs[q].Leaf? && q !in unknown;
    }

    method RemoveEntry(p: Place, ghost depth: nat)
      requires WellFormed(fs) && p != [] && Parent(p) in fs && fs[Parent(p)].Dir? && Shallow(fs, depth)
      modifies this
      ensures WellFormed(fs) && Pruned(old(fs), fs, p)
      ensures Files() == old(Files()) && Size() <= old(Size()) && (reliable ==> Size() == old(Size()))
      ensures reliable ==> Exactly(old(fs), fs, old(fs)[Parent(p)].access, p)
      decreases depth - |p|, 3
    {
      var r := Enter(p);
      ghost var entered := fs;
      if r.NotADirectory? {
        RemoveLeaf(p);
        PrunedTwice(old(fs), entered, fs, p, p);
      } else if r.Opened? {
        EmptyDir(p, depth);
        ghost var emptied := fs;
        Rmdir(p);
        PrunedTwice(entered, emptied, fs, p, p);
        PrunedTwice(old(fs), entered, fs, p, p);
        if reliable {
          DirExactly(old(fs), entered, emptied, fs, old(fs)[Parent(p)].access, p);
        }
      }
      if reliable && !r.Opened? {
        NotEntered(old(fs), fs, old(fs)[Parent(p)].access, p);
      }
    }

    // Opens a directory, if need be by giving its owner access. Anything else is for its parent to unlink.
    method Enter(p: Place) returns (r: OpenResult)
      requires WellFormed(fs) && p != [] && Parent(p) in fs && fs[Parent(p)].Dir?
      modifies `fs
      ensures WellFormed(fs) && Pruned(old(fs), fs, p) && fs.Keys == old(fs).Keys
      ensures Files() == old(Files()) && Size() == old(Size())
      ensures r.Opened? ==> p in fs && fs[p].Dir?
      ensures r.NotADirectory? ==> p in fs && fs[p].Leaf?
      ensures reliable && p in fs ==>
        && (r.NotADirectory? <==> fs[p].Leaf? && old(fs)[Parent(p)].access.search)
        && (r.Opened? <==> fs[p].Dir? && old(fs)[Parent(p)].access.search && Opens(old(fs), p))
      ensures reliable && !r.Opened? ==> fs == old(fs)
      ensures reliable ==> fs == old(fs) || (NeedsAccess(old(fs), p) && fs == old(fs)[p := Dir(true, ALL)])
    {
      r := Open(p);
      if r.Denied? {
        var granted := GrantOwnerAccess(p);
        if granted {
          r := Open(p);
          r := if r.Opened? then Opened else OpenFailed;
        } else {
          r := OpenFailed;
        }
      }
    }

    method Rmdir(p: Place)
      requires WellFormed(fs) && p in fs && p != [] && fs[p].Dir?
      modifies `fs
      ensures WellFormed(fs) && Pruned(old(fs), fs, p)
      ensures Files() == old(Files()) && Size() == old(Size())
      ensures reliable ==>
        fs == if Writable(old(fs), Parent(p)) && (forall q :: q in old(fs) && p <= q ==> q == p) then old(fs) - {p}
              else old(fs)
    {
      var fault := Fault();
      if !fault && Writable(fs, Parent(p)) && forall q :: q in fs && p <= q ==> q == p {
        Unlink(p);
      }
    }

    // `name` is the last name of the path, in the directory `dir`. Where there is none nothing is removed.
    // Whatever happens, nothing beside the path changes, and what is recorded is what went.
    method RemoveDirWithProgress(dir: Place, name: Option<string>, ghost depth: nat) returns (gone: bool)
      requires WellFormed(fs) && dir in fs && fs[dir].Dir? && Shallow(fs, depth)
      modifies this
      ensures name.None? ==> fs == old(fs) && files == old(files) && bytes == old(bytes) && !gone
      ensures name.Some? ==>
        var p := dir + [name.value];
        && Pruned(old(fs), fs, p)
        && (gone ==> Gone(fs, p))
        && (reliable && fs[dir].access.search ==> gone == Gone(fs, p))
        && files - old(files) == Total(Below(old(fs), p), One) - Total(Below(fs, p), One)
        && bytes - old(bytes) <= Total(Below(old(fs), p), Bytes) - Total(Below(fs, p), Bytes)
        && (reliable ==> bytes - old(bytes) == Total(Below(old(fs), p), Bytes) - Total(Below(fs, p), Bytes))
      // Without failures exactly the names go that can: on the way to them and below them every directory can be
      // opened, and every one that holds them can be written.
      ensures name.Some? && reliable ==> Exactly(old(fs), fs, old(fs)[dir].access, dir + [name.value])
      // The whole tree is gone, whatever the modes of the caller's own directories in it.
      ensures name.Some? && reliable && Writable(old(fs), dir) && AllOwned(old(fs), dir + [name.value]) ==>
        var p := dir + [name.value];
        && gone && fs == Beside(old(fs), p)
        && files - old(files) == Total(Below(old(fs), p), One)
        && bytes - old(bytes) == Total(Below(old(fs), p), Bytes)
    {
      if name.None? {
        // A directory without a name is not one that can be gone.
        return false;
      }
      var p := dir + [name.value];
      assert Parent(p) == dir;
      RemoveEntry(p, depth);
      if reliable && Writable(old(fs), dir) && AllOwned(old(fs), p) {
        AllOwnedGoes(old(fs), fs, old(fs)[dir].access, p);
      }
      Recorded(old(fs), fs, p);
      NothingBelowALeaf(fs, p);
      assert p <= p;
      var fault := Fault();
      gone := !fault && fs[dir].access.search && p !in fs;
    }
  }

  function WithoutLeaves(fs: Fs, p: Place, leaves: set<Place>): Fs {
    if Writable(fs, p) then fs - leaves else fs
  }

  lemma OneLess(all: set<Place>, left: set<Place>)
    requires left <= all
    ensures forall q :: q in left ==> q !in all - left && all - (left - {q}) == (all - left) + {q}
    ensures left == all ==> all - left == {}
    ensures left == {} ==> all - left == all
  {
    forall q | q in left
      ensures all - (left - {q}) == (all - left) + {q}
    {
    }
  }

  lemma OneLeafLess(was: Fs, before: Fs, now: Fs, p: Place, leaves: set<Place>, left: set<Place>, q: Place)
    requires q in left && left <= leaves && IsChild(q, p) && before == WithoutLeaves(was, p, leaves - left)
    requires p in before && p in was && before[p] == was[p] && (q in before ==> before[q].Leaf?)
    requires now == if q in before && before[q].Leaf? && Writable(before, p) then before - {q} else before
    ensures now == WithoutLeaves(was, p, leaves - (left - {q}))
  {
    assert (leaves - left) + {q} == leaves - (left - {q});
    assert was - (leaves - left) - {q} == was - (leaves - (left - {q}));
  }

  // Of the children in `done` exactly what can go has gone; the others are as they were.
  ghost predicate EachDone(reliable: bool, was: Fs, now: Fs, p: Place, done: set<Place>)
    requires p in was && was[p].Dir?
  {
    && (forall c :: IsChild(c, p) && c !in done ==> Same(was, now, c))
    && (reliable ==> forall c :: c in done && c in was ==> Exactly(was, now, was[p].access, c))
  }

  lemma NoneDone(reliable: bool, fs: Fs, p: Place)
    requires p in fs && fs[p].Dir?
    ensures EachDone(reliable, fs, fs, p, {})
  {
  }

  lemma OneMoreDone(reliable: bool, was: Fs, before: Fs, now: Fs, p: Place, done: set<Place>, q: Place)
    requires p in was && was[p].Dir? && p in before && before[p] == was[p]
    requires EachDone(reliable, was, before, p, done) && IsChild(q, p) && q !in done
    requires (forall c :: c in done ==> IsChild(c, p)) && Pruned(before, now, q)
    requires reliable ==> Exactly(before, now, was[p].access, q)
    ensures EachDone(reliable, was, now, p, done + {q})
  {
    forall c | IsChild(c, p) && c != q
      ensures Same(before, now, c)
    {
      SiblingsSame(before, now, p, q, c);
    }
    if reliable {
      ExactlyLater(was, before, now, was[p].access, q);
      forall c | c in done && c in was
        ensures Exactly(was, now, was[p].access, c)
      {
        ExactlyStays(was, before, now, was[p].access, c);
      }
    }
  }

  // The directory is given its owner's access, then its leaves go, then its directories.
  lemma Emptied(was: Fs, entered: Fs, between: Fs, now: Fs, p: Place, dirs: set<Place>, leaves: set<Place>)
    requires WellFormed(was) && WellFormed(entered) && p in was && was[p].Dir?
    requires entered == was[p := Dir(was[p].owned, Held(was, p))]
    requires between == WithoutLeaves(entered, p, leaves)
    requires forall c :: c in leaves ==> c in entered && entered[c].Leaf? && IsChild(c, p)
    requires forall c :: c in entered && IsChild(c, p) ==> c in dirs || c in leaves
    requires dirs !! leaves && p in between && between[p] == entered[p] && EachDone(true, between, now, p, dirs)
    ensures ExactlyBelow(was, now, p)
  {
    forall c | c in was && IsChild(c, p)
      ensures Exactly(was, now, Held(was, p), c)
    {
      ChildSame(was, entered, p, c);
      if c in leaves {
        OneLeafExactly(entered, between, now, p, leaves, c);
      } else {
        NotALeaf(entered, between, p, leaves, c);
        ExactlyLater(entered, between, now, Held(was, p), c);
      }
      ExactlyLater(was, entered, now, Held(was, p), c);
    }
  }

  lemma ChildSame(was: Fs, entered: Fs, p: Place, c: Place)
    requires p in was && p in entered && entered == was[p := entered[p]] && IsChild(c, p)
    ensures Same(was, entered, c)
  {
    assert !(c <= p);
  }

  lemma OneLeafExactly(entered: Fs, between: Fs, now: Fs, p: Place, leaves: set<Place>, c: Place)
    requires WellFormed(entered) && p in entered && entered[p].Dir? && c in leaves && c in entered && entered[c].Leaf?
    requires IsChild(c, p) && between == WithoutLeaves(entered, p, leaves)
    requires Same(between, now, c)
    ensures Exactly(entered, now, entered[p].access, c)
  {
    NothingBelowALeaf(entered, c);
  }

  lemma OnlyChildOnTheWay(p: Place, c: Place, q: Place)
    requires IsChild(c, p) && c <= q
    ensures IsChild(q, p) ==> q == c
  {
    assert q[..|c|] == c && q[..|q|] == q;
  }

  lemma NotALeaf(entered: Fs, between: Fs, p: Place, leaves: set<Place>, c: Place)
    requires between == WithoutLeaves(entered, p, leaves) && IsChild(c, p) && c !in leaves
    requires forall l :: l in leaves ==> IsChild(l, p)
    ensures Same(entered, between, c)
  {
    forall q | c <= q
      ensures q !in leaves
    {
      OnlyChildOnTheWay(p, c, q);
    }
  }

  // Below a directory that has been emptied.
  lemma BelowExactly(was: Fs, entered: Fs, emptied: Fs, acc: Access, p: Place, q: Place)
    requires WellFormed(was) && p in was && was[p].Dir? && acc.search && Opens(was, p)
    requires p in entered && entered[p].Dir? && entered == was[p := entered[p]] && Held(entered, p) == Held(was, p)
    requires ExactlyBelow(entered, emptied, p) && q in was && p < q
    ensures q !in emptied <==> Goes(was, acc, p, q)
  {
    var c := ChildOnTheWay(p, q);
    GoesBelow(was, acc, p, q);
    ChildThere(was, p, q);
    ChildSame(was, entered, p, c);
    ExactlyLater(was, entered, emptied, Held(was, p), c);
  }

  // The directory itself.
  lemma DirExactly(was: Fs, entered: Fs, emptied: Fs, now: Fs, acc: Access, p: Place)
    requires WellFormed(was) && p in was && was[p].Dir? && p != [] && Parent(p) in was && was[Parent(p)].Dir?
    requires acc == was[Parent(p)].access && acc.search && Opens(was, p)
    requires entered == was || (was[p].owned && entered == was[p := Dir(true, ALL)])
    requires p in emptied && Pruned(entered, emptied, p) && ExactlyBelow(entered, emptied, p)
    requires now ==
      if Writable(emptied, Parent(p)) && (forall q :: q in emptied && p <= q ==> q == p) then emptied - {p} else emptied
    ensures Exactly(was, now, acc, p)
  {
    assert !(p <= Parent(p)) && emptied[Parent(p)] == was[Parent(p)];
    forall q | q in was && p < q
      ensures q !in emptied <==> Goes(was, acc, p, q)
    {
      BelowExactly(was, entered, emptied, acc, p, q);
    }
    GoesItself(was, acc, p);
    LastOfAll(was, emptied, now, p, acc.write && acc.search, set q | q in was && p <= q && Goes(was, acc, p, q));
  }

  lemma LastOfAll(was: Fs, emptied: Fs, now: Fs, p: Place, mayUnlink: bool, going: set<Place>)
    requires p in was && p in emptied && emptied.Keys <= was.Keys
    requires forall q :: q in was && p < q ==> (q !in emptied <==> q in going)
    requires p in going <==> mayUnlink && forall q :: q in was && p < q ==> q in going
    requires now == if mayUnlink && (forall q :: q in emptied && p <= q ==> q == p) then emptied - {p} else emptied
    ensures forall q :: q in was && p <= q ==> (q !in now <==> q in going)
  {
    forall q | q in was && p <= q
      ensures q == p || p < q
    {
      assert |q| == |p| ==> q[..|q|] == q;
    }
    if forall q :: q in was && p < q ==> q in going {
      assert forall q :: q in emptied && p <= q ==> q == p;
    } else {
      var q :| q in was && p < q && q !in going;
      assert q in emptied && q != p && p <= q;
      assert p !in going && now == emptied;
    }
  }

  lemma ChildThere(fs: Fs, p: Place, q: Place)
    requires WellFormed(fs) && p < q && q in fs
    ensures ChildOnTheWay(p, q) in fs
  {
    if |p| + 1 < |q| {
      PrefixIsDir(fs, q, |p| + 1);
    } else {
      assert q[..|p| + 1] == q;
    }
  }

  // A leaf, or a directory that cannot be entered.
  lemma NotEntered(was: Fs, now: Fs, acc: Access, p: Place)
    requires WellFormed(was) && p != [] && Parent(p) in was && was[Parent(p)].Dir? && acc == was[Parent(p)].access
    requires p in was && was[p].Dir? ==> now == was && !(acc.search && Opens(was, p))
    requires p in was && was[p].Leaf? ==> now == if acc.write && acc.search then was - {p} else was
    ensures Exactly(was, now, acc, p)
  {
    NothingBelowALeaf(was, p);
    if p in was && was[p].Dir? {
      forall q | q in was && p <= q
        ensures !Goes(was, acc, p, q)
      {
        assert Above(was, acc, p, p) == acc;
      }
    }
  }

  lemma OwnedAbove(was: Fs, acc: Access, p: Place, r: Place)
    requires WellFormed(was) && AllOwned(was, p) && acc.write && acc.search && r in was && p <= r
    ensures Above(was, acc, p, r).write && Above(was, acc, p, r).search && (was[r].Dir? ==> Opens(was, r))
  {
    if r != p {
      assert Parent(r) in was && p <= Parent(r);
    }
  }

  lemma OwnedGoes(was: Fs, acc: Access, p: Place, q: Place)
    requires WellFormed(was) && AllOwned(was, p) && acc.write && acc.search && q in was && p <= q
    ensures Goes(was, acc, p, q)
  {
    forall r | r in was && p <= r
      ensures Above(was, acc, p, r).write && Above(was, acc, p, r).search && (was[r].Dir? ==> Opens(was, r))
    {
      OwnedAbove(was, acc, p, r);
    }
  }

  // In a tree of the caller's own everything goes.
  lemma AllOwnedGoes(was: Fs, now: Fs, acc: Access, p: Place)
    requires WellFormed(was) && Exactly(was, now, acc, p) && AllOwned(was, p) && acc.write && acc.search
    requires now.Keys <= was.Keys
    ensures Gone(now, p)
  {
    forall q | q in was && p <= q
      ensures q !in now
    {
      OwnedGoes(was, acc, p, q);
    }
  }

  lemma ChildPruned(was: Fs, before: Fs, now: Fs, p: Place, q: Place)
    requires Pruned(was, before, p) && Pruned(before, now, q) && q != [] && Parent(q) == p && p in before
    ensures Pruned(was, now, p) && p in now && now[p] == before[p]
    ensures forall c :: Gone(before, c) ==> Gone(now, c)
  {
    PrunedTwice(was, before, now, p, q);
    PrunedKeeps(before, now, q);
  }

  // What is beside a pruned tree is the same, so only what is below counts.
  lemma Recorded(was: Fs, now: Fs, p: Place)
    requires Pruned(was, now, p)
    ensures Beside(was, p) == Beside(now, p)
    ensures Total(was, One) - Total(now, One) == Total(Below(was, p), One) - Total(Below(now, p), One)
    ensures Total(was, Bytes) - Total(now, Bytes) == Total(Below(was, p), Bytes) - Total(Below(now, p), Bytes)
    ensures Gone(now, p) ==> now == Beside(was, p) && Below(now, p) == map[]
  {
    assert Beside(was, p) == Beside(now, p);
    TotalSplits(was, One, p);
    TotalSplits(now, One, p);
    TotalSplits(was, Bytes, p);
    TotalSplits(now, Bytes, p);
    if Gone(now, p) {
      assert Below(now, p) == map[];
      assert now == Beside(now, p);
    }
  }

  lemma {:induction false} NothingBelowALeaf(fs: Fs, p: Place)
    requires WellFormed(fs)
    ensures p in fs && fs[p].Leaf? ==> forall q :: q in fs && p <= q ==> q == p
    ensures p !in fs ==> Gone(fs, p)
  {
    forall q | q in fs && p <= q && q != p
      ensures p in fs && fs[p].Dir?
    {
      PrefixIsDir(fs, q, |p|);
      assert q[..|p|] == p;
    }
  }

  lemma {:induction false} PrefixIsDir(fs: Fs, q: Place, n: nat)
    requires WellFormed(fs) && q in fs && n < |q|
    ensures q[..n] in fs && fs[q[..n]].Dir?
    decreases |q|
  {
    if n < |q| - 1 {
      PrefixIsDir(fs, Parent(q), n);
      assert Parent(q)[..n] == q[..n];
    }
  }
}
