/** Copying a tree: the walk with its stack of directories, the parallel pass over the leaves and the pass
    over the directories' permissions. */
module CopyTree {
  import opened Common
  import CopyLeaf

  type Path = seq<string>

  // What each step finds when its turn comes, whatever other processes have done by then. Nothing is looked
  // at twice, so a tree of findings is all there is to know of a run.
  datatype Found =
    | GoneEntry
    | UnreadableEntry
    | Special
    | LeafEntry(outcome: CopyLeaf.Outcome)
    | DirEntry(within: bool, listing: Listing, created: bool, perms: Perms)

  datatype Listing = Vanished | Unreadable | Listed(entries: Entries)

  datatype Entries = Nil | Cons(name: string, found: Found, rest: Entries)

  datatype Perms = PermsSet | PermsGone | PermsFail

  datatype Leaf = Leaf(path: Path, outcome: CopyLeaf.Outcome)

  datatype Dir = Dir(path: Path, perms: Perms)

  // ---------------------------------------------------------------- what a run should come to

  // In the order of the listings, each entry before the next.
  function LeavesOf(path: Path, f: Found): seq<Leaf>
    decreases f
  {
    match f
    case LeafEntry(outcome) => [Leaf(path, outcome)]
    case DirEntry(_, Listed(entries), _, _) => EntryLeaves(path, entries)
    case _ => []
  }

  function EntryLeaves(path: Path, entries: Entries): seq<Leaf>
    decreases entries
  {
    match entries
    case Nil => []
    case Cons(name, found, rest) => LeavesOf(path + [name], found) + EntryLeaves(path, rest)
  }

  function DirsOf(path: Path, f: Found): seq<Dir>
    decreases f
  {
    match f
    case DirEntry(_, Listed(entries), _, perms) => [Dir(path, perms)] + EntryDirs(path, entries)
    case _ => []
  }

  function EntryDirs(path: Path, entries: Entries): seq<Dir>
    decreases entries
  {
    match entries
    case Nil => []
    case Cons(name, found, rest) => DirsOf(path + [name], found) + EntryDirs(path, rest)
  }

  // Entries and subdirectories gone when the walk came to them.
  function Vanishings(f: Found): nat
    decreases f
  {
    match f
    case GoneEntry => 1
    case DirEntry(_, Vanished, _, _) => 1
    case DirEntry(_, Listed(entries), _, _) => EntryVanishings(entries)
    case _ => 0
  }

  function EntryVanishings(entries: Entries): nat
    decreases entries
  {
    match entries
    case Nil => 0
    case Cons(_, found, rest) => Vanishings(found) + EntryVanishings(rest)
  }

  // Whether the walk must give up. Only the root may not be gone.
  predicate WalkFails(f: Found, isRoot: bool)
    decreases f
  {
    match f
    case UnreadableEntry => true
    case DirEntry(within, listing, created, _) =>
      || !within || listing.Unreadable? || (listing.Vanished? && isRoot)
      || (listing.Listed? && (!created || EntriesFail(listing.entries)))
    case _ => false
  }

  predicate EntriesFail(entries: Entries)
    decreases entries
  {
    match entries
    case Nil => false
    case Cons(_, found, rest) => WalkFails(found, false) || EntriesFail(rest)
  }

  // ---------------------------------------------------------------- the walk

  datatype Tally = Tally(leaves: multiset<Leaf>, dirs: multiset<Dir>, vanished: nat, fails: bool) {
    function Plus(o: Tally): Tally {
      Tally(leaves + o.leaves, dirs + o.dirs, vanished + o.vanished, fails || o.fails)
    }
  }

  const NOTHING := Tally(multiset{}, multiset{}, 0, false)

  function FoundTally(path: Path, f: Found, isRoot: bool): Tally {
    Tally(multiset(LeavesOf(path, f)), multiset(DirsOf(path, f)),
      if f.DirEntry? && f.listing.Vanished? && isRoot then 0 else Vanishings(f), WalkFails(f, isRoot))
  }

  function EntriesTally(path: Path, entries: Entries): Tally {
    Tally(multiset(EntryLeaves(path, entries)), multiset(EntryDirs(path, entries)),
      EntryVanishings(entries), EntriesFail(entries))
  }

  datatype Waiting = Waiting(path: Path, found: Found, isRoot: bool)

  function StackTally(stack: seq<Waiting>): Tally {
    if stack == [] then NOTHING
    else
      var top := stack[|stack| - 1];
      FoundTally(top.path, top.found, top.isRoot).Plus(StackTally(stack[..|stack| - 1]))
  }

  // Directories still to be read.
  function DirCount(f: Found): nat
    decreases f
  {
    match f
    case DirEntry(_, Listed(entries), _, _) => 1 + EntryDirCount(entries)
    case DirEntry(_, _, _, _) => 1
    case _ => 0
  }

  function EntryDirCount(entries: Entries): nat
    decreases entries
  {
    match entries
    case Nil => 0
    case Cons(_, found, rest) => DirCount(found) + EntryDirCount(rest)
  }

  function StackDirCount(stack: seq<Waiting>): nat {
    if stack == [] then 0 else DirCount(stack[|stack| - 1].found) + StackDirCount(stack[..|stack| - 1])
  }

  lemma Pushed(stack: seq<Waiting>, w: Waiting)
    ensures StackTally(stack + [w]) == FoundTally(w.path, w.found, w.isRoot).Plus(StackTally(stack))
    ensures StackDirCount(stack + [w]) == DirCount(w.found) + StackDirCount(stack)
  {
    assert (stack + [w])[..|stack|] == stack;
  }

  lemma EntriesStep(path: Path, entries: Entries)
    requires entries.Cons?
    ensures EntriesTally(path, entries)
      == FoundTally(path + [entries.name], entries.found, false).Plus(EntriesTally(path, entries.rest))
    ensures EntryDirCount(entries) == DirCount(entries.found) + EntryDirCount(entries.rest)
  {
  }

  lemma PlusMoves(done: Tally, found: Tally, rest: Tally, stack: Tally)
    ensures done.Plus(rest.Plus(found.Plus(stack))) == done.Plus(found.Plus(rest).Plus(stack))
    ensures done.Plus(found).Plus(rest.Plus(stack)) == done.Plus(found.Plus(rest).Plus(stack))
  {
  }

  function Done(leaves: seq<Leaf>, dirs: seq<Dir>, skipped: nat): Tally {
    Tally(multiset(leaves), multiset(dirs), skipped, false)
  }

  lemma DoneLeaf(leaves: seq<Leaf>, dirs: seq<Dir>, skipped: nat, path: Path, outcome: CopyLeaf.Outcome)
    ensures Done(leaves + [Leaf(path, outcome)], dirs, skipped)
      == Done(leaves, dirs, skipped).Plus(FoundTally(path, LeafEntry(outcome), false))
  {
  }

  lemma DoneOther(leaves: seq<Leaf>, dirs: seq<Dir>, skipped: nat, path: Path, found: Found)
    requires found.GoneEntry? || found.Special?
    ensures Done(leaves, dirs, if found.GoneEntry? then skipped + 1 else skipped)
      == Done(leaves, dirs, skipped).Plus(FoundTally(path, found, false))
  {
  }

  // One entry of a listing adds to the stack, to the leaves or to the skips. `rest` is what is still listed.
  method TakeEntry(path: Path, found: Found, leaves: seq<Leaf>, stack: seq<Waiting>, skipped: nat,
      ghost dirs: seq<Dir>, ghost rest: Tally)
    returns (ok: bool, newLeaves: seq<Leaf>, newStack: seq<Waiting>, newSkipped: nat)
    ensures ok == !found.UnreadableEntry?
    ensures ok ==>
      Done(newLeaves, dirs, newSkipped).Plus(rest.Plus(StackTally(newStack)))
        == Done(leaves, dirs, skipped).Plus(FoundTally(path, found, false).Plus(rest).Plus(StackTally(stack)))
    ensures newStack == if found.DirEntry? then stack + [Waiting(path, found, false)] else stack
  {
    ok, newLeaves, newStack, newSkipped := true, leaves, stack, skipped;
    PlusMoves(Done(leaves, dirs, skipped), FoundTally(path, found, false), rest, StackTally(stack));
    match found {
      case GoneEntry =>
        DoneOther(leaves, dirs, skipped, path, found);
        newSkipped := skipped + 1;
      case UnreadableEntry =>
        ok := false;
      case DirEntry(_, _, _, _) =>
        Pushed(stack, Waiting(path, found, false));
        newStack := stack + [Waiting(path, found, false)];
      case LeafEntry(outcome) =>
        DoneLeaf(leaves, dirs, skipped, path, outcome);
        newLeaves := leaves + [Leaf(path, outcome)];
      case Special =>
        DoneOther(leaves, dirs, skipped, path, found);
    }
  }

  method ReadEntries(path: Path, listed: Entries, before: seq<Leaf>, waiting: seq<Waiting>, skippedBefore: nat,
      ghost dirs: seq<Dir>)
    returns (ok: bool, leaves: seq<Leaf>, stack: seq<Waiting>, skipped: nat)
    requires forall w :: w in waiting ==> w.found.DirEntry?
    ensures ok ==>
      Done(leaves, dirs, skipped).Plus(EntriesTally(path, Nil).Plus(StackTally(stack)))
        == Done(before, dirs, skippedBefore).Plus(EntriesTally(path, listed).Plus(StackTally(waiting)))
    ensures !ok ==> EntriesFail(listed)
    ensures forall w :: w in stack ==> w.found.DirEntry?
    ensures StackDirCount(stack) <= EntryDirCount(listed) + StackDirCount(waiting)
  {
    ok, leaves, stack, skipped := true, before, waiting, skippedBefore;
    var entries := listed;
    while entries.Cons?
      invariant forall w :: w in stack ==> w.found.DirEntry?
      invariant StackDirCount(stack) + EntryDirCount(entries) <= EntryDirCount(listed) + StackDirCount(waiting)
      invariant EntriesFail(entries) ==> EntriesFail(listed)
      invariant Done(leaves, dirs, skipped).Plus(EntriesTally(path, entries).Plus(StackTally(stack)))
        == Done(before, dirs, skippedBefore).Plus(EntriesTally(path, listed).Plus(StackTally(waiting)))
      decreases entries
    {
      EntriesStep(path, entries);
      var here := path + [entries.name];
      Pushed(stack, Waiting(here, entries.found, false));
      ok, leaves, stack, skipped :=
        TakeEntry(here, entries.found, leaves, stack, skipped, dirs, EntriesTally(path, entries.rest));
      if !ok {
        return;
      }
      entries := entries.rest;
    }
  }

  lemma Popped(stack: seq<Waiting>)
    requires stack != []
    ensures var top, below := stack[|stack| - 1], stack[..|stack| - 1];
      && StackTally(stack) == FoundTally(top.path, top.found, top.isRoot).Plus(StackTally(below))
      && StackDirCount(stack) == DirCount(top.found) + StackDirCount(below)
  {
  }

  // A directory that has been read is one more directory, and its entries.
  lemma DirTaken(leaves: seq<Leaf>, dirs: seq<Dir>, skipped: nat, w: Waiting, below: Tally)
    requires w.found.DirEntry? && w.found.listing.Listed? && w.found.within && w.found.created
    ensures Done(leaves, dirs, skipped).Plus(FoundTally(w.path, w.found, w.isRoot).Plus(below))
      == Done(leaves, dirs + [Dir(w.path, w.found.perms)], skipped)
          .Plus(EntriesTally(w.path, w.found.listing.entries).Plus(below))
  {
  }

  lemma DirVanished(leaves: seq<Leaf>, dirs: seq<Dir>, skipped: nat, w: Waiting, below: Tally)
    requires w.found.DirEntry? && w.found.listing.Vanished? && w.found.within && !w.isRoot
    ensures Done(leaves, dirs, skipped).Plus(FoundTally(w.path, w.found, w.isRoot).Plus(below))
      == Done(leaves, dirs, skipped + 1).Plus(below)
  {
  }

  lemma NilAddsNothing(done: Tally, path: Path, stack: Tally)
    ensures done.Plus(EntriesTally(path, Nil).Plus(stack)) == done.Plus(stack)
  {
  }

  // One directory taken off the stack: its path is checked, it is read, and only then is it made.
  method TakeDir(w: Waiting, leaves: seq<Leaf>, dirs: seq<Dir>, waiting: seq<Waiting>, skipped: nat)
    returns (ok: bool, newLeaves: seq<Leaf>, newDirs: seq<Dir>, stack: seq<Waiting>, newSkipped: nat)
    requires w.found.DirEntry? && forall w :: w in waiting ==> w.found.DirEntry?
    ensures ok ==>
      Done(newLeaves, newDirs, newSkipped).Plus(StackTally(stack))
        == Done(leaves, dirs, skipped).Plus(FoundTally(w.path, w.found, w.isRoot).Plus(StackTally(waiting)))
    ensures !ok ==> WalkFails(w.found, w.isRoot)
    ensures forall w :: w in stack ==> w.found.DirEntry?
    ensures StackDirCount(stack) < DirCount(w.found) + StackDirCount(waiting)
  {
    ok, newLeaves, newDirs, stack, newSkipped := false, leaves, dirs, waiting, skipped;
    if !w.found.within {
      return;
    }
    match w.found.listing {
      case Vanished =>
        if w.isRoot {
          return;
        }
        DirVanished(leaves, dirs, skipped, w, StackTally(waiting));
        ok, newSkipped := true, skipped + 1;
      case Unreadable =>
        return;
      case Listed(entries) =>
        if !w.found.created {
          return;
        }
        DirTaken(leaves, dirs, skipped, w, StackTally(waiting));
        newDirs := dirs + [Dir(w.path, w.found.perms)];
        ok, newLeaves, stack, newSkipped := ReadEntries(w.path, entries, leaves, waiting, skipped, newDirs);
        NilAddsNothing(Done(newLeaves, newDirs, newSkipped), w.path, StackTally(stack));
    }
  }

  lemma FailingTop(done: Tally, top: Waiting, below: Tally)
    requires WalkFails(top.found, top.isRoot)
    ensures done.Plus(FoundTally(top.path, top.found, top.isRoot).Plus(below)).fails
  {
  }

  lemma Start(root: Found)
    ensures StackTally([Waiting([], root, true)]) == FoundTally([], root, true)
  {
    var w := Waiting([], root, true);
    Pushed([], w);
    assert [] + [w] == [w];
    NothingAdded(FoundTally(w.path, w.found, w.isRoot));
  }

  method TakeTop(leaves: seq<Leaf>, dirs: seq<Dir>, waiting: seq<Waiting>, skipped: nat)
    returns (ok: bool, newLeaves: seq<Leaf>, newDirs: seq<Dir>, stack: seq<Waiting>, newSkipped: nat)
    requires waiting != [] && forall w :: w in waiting ==> w.found.DirEntry?
    ensures ok ==>
      Done(newLeaves, newDirs, newSkipped).Plus(StackTally(stack))
        == Done(leaves, dirs, skipped).Plus(StackTally(waiting))
    ensures !ok ==> Done(leaves, dirs, skipped).Plus(StackTally(waiting)).fails
    ensures forall w :: w in stack ==> w.found.DirEntry?
    ensures StackDirCount(stack) < StackDirCount(waiting)
  {
    Popped(waiting);
    var top, below := waiting[|waiting| - 1], waiting[..|waiting| - 1];
    ok, newLeaves, newDirs, stack, newSkipped := TakeDir(top, leaves, dirs, below, skipped);
    if !ok {
      FailingTop(Done(leaves, dirs, skipped), top, StackTally(below));
    }
  }

  // All of the walk, from the directories waiting at its start.
  method WalkAll(waiting: seq<Waiting>) returns (ok: bool, leaves: seq<Leaf>, dirs: seq<Dir>, skipped: nat)
    requires forall w :: w in waiting ==> w.found.DirEntry?
    ensures ok == !StackTally(waiting).fails
    ensures ok ==> Done(leaves, dirs, skipped) == StackTally(waiting)
  {
    ok, leaves, dirs, skipped := true, [], [], 0;
    var stack := waiting;
    NothingAdded(StackTally(waiting));
    while stack != []
      invariant forall w :: w in stack ==> w.found.DirEntry?
      invariant Done(leaves, dirs, skipped).Plus(StackTally(stack)) == StackTally(waiting)
      decreases StackDirCount(stack)
    {
      ok, leaves, dirs, stack, skipped := TakeTop(leaves, dirs, stack, skipped);
      if !ok {
        return;
      }
    }
    NothingAdded(Done(leaves, dirs, skipped));
    ok := true;
  }

  lemma NothingAdded(t: Tally)
    ensures t.Plus(NOTHING) == t == NOTHING.Plus(t)
  {
  }

  method Walk(root: Found) returns (ok: bool, leaves: seq<Leaf>, dirs: seq<Dir>, skipped: nat)
    requires root.DirEntry?
    ensures ok == !WalkFails(root, true)
    ensures ok ==> Done(leaves, dirs, skipped) == FoundTally([], root, true)
  {
    Start(root);
    ok, leaves, dirs, skipped := WalkAll([Waiting([], root, true)]);
  }

  // ---------------------------------------------------------------- sums that do not mind the order

  function Total<T>(s: seq<T>, f: T -> nat): nat {
    if s == [] then 0 else f(s[0]) + Total(s[1..], f)
  }

  lemma {:induction false} TotalAppend<T>(a: seq<T>, b: seq<T>, f: T -> nat)
    ensures Total(a + b, f) == Total(a, f) + Total(b, f)
  {
    if a == [] {
      assert a + b == b;
    } else {
      TotalAppend(a[1..], b, f);
      assert (a + b)[1..] == a[1..] + b;
    }
  }

  lemma TakenOut<T>(s: seq<T>, k: nat)
    requires k < |s|
    ensures s == s[..k] + ([s[k]] + s[k + 1..])
  {
  }

  lemma TotalCons<T>(x: T, s: seq<T>, f: T -> nat)
    ensures Total([x] + s, f) == f(x) + Total(s, f)
  {
    assert ([x] + s)[1..] == s;
  }

  lemma Removed<T>(s: seq<T>, k: nat, f: T -> nat)
    requires k < |s|
    ensures Total(s, f) == f(s[k]) + Total(Without(s, k), f)
    ensures multiset(s) == multiset(Without(s, k)) + multiset{s[k]}
  {
    var front, back := s[..k], s[k + 1..];
    TakenOut(s, k);
    TotalAppend(front, [s[k]] + back, f);
    TotalAppend(front, back, f);
    TotalCons(s[k], back, f);
  }

  lemma SameTail<T>(a: seq<T>, b: seq<T>, f: T -> nat) returns (k: nat)
    requires multiset(a) == multiset(b) && a != []
    ensures k < |b| && b[k] == a[0] && multiset(a[1..]) == multiset(Without(b, k))
  {
    assert a[0] in multiset(a);
    k :| k < |b| && b[k] == a[0];
    Removed(b, k, f);
    assert a == [a[0]] + a[1..];
    assert multiset(a[1..]) == multiset(a) - multiset{a[0]};
    assert multiset(Without(b, k)) == multiset(b) - multiset{b[k]};
  }

  lemma {:induction false} TotalPermuted<T>(a: seq<T>, b: seq<T>, f: T -> nat)
    requires multiset(a) == multiset(b)
    ensures Total(a, f) == Total(b, f)
    decreases |a|
  {
    if a == [] {
      assert |multiset(b)| == 0;
    } else {
      var k := SameTail(a, b, f);
      Removed(b, k, f);
      TotalPermuted(a[1..], Without(b, k), f);
    }
  }

  function CopiedOne(leaf: Leaf): nat {
    if leaf.outcome.Copied? then 1 else 0
  }

  function CopiedBytes(leaf: Leaf): nat {
    if leaf.outcome.Copied? then leaf.outcome.bytes else 0
  }

  function SkippedOne(leaf: Leaf): nat {
    if leaf.outcome.Skipped? then 1 else 0
  }

  function PermsGoneOne(dir: Dir): nat {
    if dir.perms.PermsGone? then 1 else 0
  }

  // ---------------------------------------------------------------- the passes

  // The leaves in whatever order the threads take them. The first failure ends the pass.
  method CopyLeaves(leaves: seq<Leaf>) returns (ok: bool, files: nat, bytes: nat, skipped: nat)
    ensures ok == forall leaf :: leaf in leaves ==> !leaf.outcome.Failed?
    ensures ok ==> files == Total(leaves, CopiedOne) && bytes == Total(leaves, CopiedBytes)
    ensures ok ==> skipped == Total(leaves, SkippedOne)
  {
    files, bytes, skipped := 0, 0, 0;
    var left := leaves;
    while left != []
      invariant forall leaf :: leaf in leaves ==> leaf in left || !leaf.outcome.Failed?
      invariant forall leaf :: leaf in left ==> leaf in leaves
      invariant files + Total(left, CopiedOne) == Total(leaves, CopiedOne)
      invariant bytes + Total(left, CopiedBytes) == Total(leaves, CopiedBytes)
      invariant skipped + Total(left, SkippedOne) == Total(leaves, SkippedOne)
      decreases |left|
    {
      var k: nat :| k < |left|;
      var leaf := left[k];
      Removed(left, k, CopiedOne);
      Removed(left, k, CopiedBytes);
      Removed(left, k, SkippedOne);
      WithoutKeeps(left, k);
      match leaf.outcome {
        case Copied(n, _) => files, bytes := files + 1, bytes + n;
        case Skipped => skipped := skipped + 1;
        case Failed =>
          ok := false;
          return;
      }
      left := Without(left, k);
    }
    ok := true;
  }

  lemma WithoutKeeps<T>(s: seq<T>, k: nat)
    requires k < |s|
    ensures forall x :: x in s ==> x == s[k] || x in Without(s, k)
    ensures forall x :: x in Without(s, k) ==> x in s
  {
    forall x | x in s
      ensures x == s[k] || x in Without(s, k)
    {
      var i :| 0 <= i < |s| && s[i] == x;
      if i < k {
        assert Without(s, k)[i] == x;
      } else if i > k {
        assert Without(s, k)[i - 1] == x;
      }
    }
  }

  method PreservePermissions(dirs: seq<Dir>) returns (ok: bool, skipped: nat)
    ensures ok == forall dir :: dir in dirs ==> !dir.perms.PermsFail?
    ensures ok ==> skipped == Total(dirs, PermsGoneOne)
  {
    skipped := 0;
    var i := 0;
    while i < |dirs|
      invariant i <= |dirs| && forall j :: 0 <= j < i ==> !dirs[j].perms.PermsFail?
      invariant skipped + Total(dirs[i..], PermsGoneOne) == Total(dirs, PermsGoneOne)
    {
      assert dirs[i..][1..] == dirs[i + 1..];
      if dirs[i].perms.PermsFail? {
        ok := false;
        return;
      }
      if dirs[i].perms.PermsGone? {
        skipped := skipped + 1;
      }
      i := i + 1;
    }
    ok := true;
  }

  // ---------------------------------------------------------------- the whole copy

  datatype Result = Finished(notCopied: nat) | Error

  predicate Fails(root: Found) {
    || WalkFails(root, true)
    || (exists leaf :: leaf in LeavesOf([], root) && leaf.outcome.Failed?)
    || (exists dir :: dir in DirsOf([], root) && dir.perms.PermsFail?)
  }

  function NotCopied(root: Found): nat {
    Vanishings(root) + Total(LeavesOf([], root), SkippedOne) + Total(DirsOf([], root), PermsGoneOne)
  }

  // It fails exactly when some step must, and otherwise accounts for every entry, once, whatever the order
  // of the stack and of the threads.
  method CopyDirRecursive(root: Found) returns (result: Result, files: nat, bytes: nat)
    requires root.DirEntry?
    ensures result.Error? <==> Fails(root)
    ensures result.Finished? ==> result.notCopied == NotCopied(root)
    ensures result.Finished? ==>
      files == Total(LeavesOf([], root), CopiedOne) && bytes == Total(LeavesOf([], root), CopiedBytes)
  {
    files, bytes := 0, 0;
    var ok, leaves, dirs, skipped := Walk(root);
    if !ok {
      return Error, files, bytes;
    }
    PartOf(leaves, LeavesOf([], root));
    PartOf(LeavesOf([], root), leaves);
    PartOf(dirs, DirsOf([], root));
    PartOf(DirsOf([], root), dirs);
    var skippedLeaves;
    ok, files, bytes, skippedLeaves := CopyLeaves(leaves);
    if !ok {
      return Error, files, bytes;
    }
    TotalPermuted(leaves, LeavesOf([], root), CopiedOne);
    TotalPermuted(leaves, LeavesOf([], root), CopiedBytes);
    TotalPermuted(leaves, LeavesOf([], root), SkippedOne);
    skipped := skipped + skippedLeaves;
    var gone;
    ok, gone := PreservePermissions(dirs);
    if !ok {
      return Error, files, bytes;
    }
    TotalPermuted(dirs, DirsOf([], root), PermsGoneOne);
    result := Finished(skipped + gone);
  }

  // ---------------------------------------------------------------- what the count is worth

  lemma {:induction false} CopiedOrSkipped(leaves: seq<Leaf>)
    requires forall leaf :: leaf in leaves ==> !leaf.outcome.Failed?
    ensures Total(leaves, CopiedOne) + Total(leaves, SkippedOne) == |leaves|
    ensures Total(leaves, SkippedOne) == 0 <==> forall leaf :: leaf in leaves ==> leaf.outcome.Copied?
  {
    if leaves != [] {
      assert forall leaf :: leaf in leaves <==> leaf == leaves[0] || leaf in leaves[1..];
      CopiedOrSkipped(leaves[1..]);
    }
  }

  // Recorded and skipped leaves are the leaves the walk collected; a count of zero says that every one of
  // them was copied and that nothing was gone.
  lemma NothingIsUnaccounted(root: Found)
    requires !Fails(root)
    ensures var leaves := LeavesOf([], root);
      Total(leaves, CopiedOne) + Total(leaves, SkippedOne) == |leaves|
    ensures NotCopied(root) == 0 <==>
      && Vanishings(root) == 0
      && (forall leaf :: leaf in LeavesOf([], root) ==> leaf.outcome.Copied?)
      && (forall dir :: dir in DirsOf([], root) ==> dir.perms == PermsSet)
  {
    CopiedOrSkipped(LeavesOf([], root));
    NoPermsGone(DirsOf([], root));
  }

  // ---------------------------------------------------------------- everything that occurs in the tree

  function Nth(entries: Entries, k: nat): Option<Found>
    decreases entries
  {
    match entries
    case Nil => None
    case Cons(_, found, rest) => if k == 0 then Some(found) else Nth(rest, k - 1)
  }

  // What is found by going down the listings, at each the entry of the given index.
  function Descend(f: Found, steps: seq<nat>): Option<Found>
    decreases |steps|
  {
    if steps == [] then Some(f)
    else if !f.DirEntry? || !f.listing.Listed? then None
    else
      match Nth(f.listing.entries, steps[0])
      case None => None
      case Some(g) => Descend(g, steps[1..])
  }

  // The same in the order of the listings.
  function All(f: Found): seq<Found>
    decreases f
  {
    [f] + if f.DirEntry? && f.listing.Listed? then AllEntries(f.listing.entries) else []
  }

  function AllEntries(entries: Entries): seq<Found>
    decreases entries
  {
    match entries
    case Nil => []
    case Cons(_, found, rest) => All(found) + AllEntries(rest)
  }

  lemma {:induction false} NthIsInAll(entries: Entries, k: nat)
    requires Nth(entries, k).Some?
    ensures forall x :: x in All(Nth(entries, k).value) ==> x in AllEntries(entries)
    decreases entries
  {
    if k > 0 {
      NthIsInAll(entries.rest, k - 1);
    }
  }

  lemma {:induction false} DescendIsInAll(f: Found, steps: seq<nat>)
    requires Descend(f, steps).Some?
    ensures Descend(f, steps).value in All(f)
    decreases |steps|
  {
    if steps != [] {
      NthIsInAll(f.listing.entries, steps[0]);
      DescendIsInAll(Nth(f.listing.entries, steps[0]).value, steps[1..]);
    }
  }

  lemma {:induction false} WayDown(f: Found, x: Found) returns (steps: seq<nat>)
    requires x in All(f)
    ensures Descend(f, steps) == Some(x)
    decreases f
  {
    if x == f {
      steps := [];
    } else {
      var k, rest := WayDownEntries(f.listing.entries, x);
      steps := [k] + rest;
      assert steps[1..] == rest;
    }
  }

  lemma {:induction false} WayDownEntries(entries: Entries, x: Found) returns (k: nat, steps: seq<nat>)
    requires x in AllEntries(entries)
    ensures Nth(entries, k).Some? && Descend(Nth(entries, k).value, steps) == Some(x)
    decreases entries
  {
    if x in All(entries.found) {
      k := 0;
      steps := WayDown(entries.found, x);
    } else {
      k, steps := WayDownEntries(entries.rest, x);
      k := k + 1;
    }
  }

  lemma {:induction false} WalkFailsBelow(f: Found)
    ensures !WalkFails(f, false) <==>
      forall x :: x in All(f) ==>
        && !x.UnreadableEntry?
        && (x.DirEntry? ==> x.within && !x.listing.Unreadable? && (x.listing.Listed? ==> x.created))
    decreases f
  {
    if f.DirEntry? && f.listing.Listed? {
      EntriesFailBelow(f.listing.entries);
    }
    assert All(f)[0] == f;
  }

  lemma {:induction false} EntriesFailBelow(entries: Entries)
    ensures !EntriesFail(entries) <==>
      forall x :: x in AllEntries(entries) ==>
        && !x.UnreadableEntry?
        && (x.DirEntry? ==> x.within && !x.listing.Unreadable? && (x.listing.Listed? ==> x.created))
    decreases entries
  {
    if entries.Cons? {
      WalkFailsBelow(entries.found);
      EntriesFailBelow(entries.rest);
    }
  }

  lemma {:induction false} LeavesBelow(path: Path, f: Found, good: CopyLeaf.Outcome -> bool)
    ensures (forall leaf :: leaf in LeavesOf(path, f) ==> good(leaf.outcome)) <==>
      forall x :: x in All(f) && x.LeafEntry? ==> good(x.outcome)
    decreases f
  {
    if f.LeafEntry? {
      assert LeavesOf(path, f)[0] == Leaf(path, f.outcome) && All(f)[0] == f;
    } else if f.DirEntry? && f.listing.Listed? {
      EntryLeavesBelow(path, f.listing.entries, good);
    }
  }

  lemma {:induction false} EntryLeavesBelow(path: Path, entries: Entries, good: CopyLeaf.Outcome -> bool)
    ensures (forall leaf :: leaf in EntryLeaves(path, entries) ==> good(leaf.outcome)) <==>
      forall x :: x in AllEntries(entries) && x.LeafEntry? ==> good(x.outcome)
    decreases entries
  {
    if entries.Cons? {
      LeavesBelow(path + [entries.name], entries.found, good);
      EntryLeavesBelow(path, entries.rest, good);
    }
  }

  lemma {:induction false} DirsBelow(path: Path, f: Found, good: Perms -> bool)
    ensures (forall dir :: dir in DirsOf(path, f) ==> good(dir.perms)) <==>
      forall x :: x in All(f) && x.DirEntry? && x.listing.Listed? ==> good(x.perms)
    decreases f
  {
    if f.DirEntry? && f.listing.Listed? {
      EntryDirsBelow(path, f.listing.entries, good);
      assert DirsOf(path, f)[0] == Dir(path, f.perms) && All(f)[0] == f;
    }
  }

  lemma {:induction false} EntryDirsBelow(path: Path, entries: Entries, good: Perms -> bool)
    ensures (forall dir :: dir in EntryDirs(path, entries) ==> good(dir.perms)) <==>
      forall x :: x in AllEntries(entries) && x.DirEntry? && x.listing.Listed? ==> good(x.perms)
    decreases entries
  {
    if entries.Cons? {
      DirsBelow(path + [entries.name], entries.found, good);
      EntryDirsBelow(path, entries.rest, good);
    }
  }

  // One for what is not copied: an entry or a directory that was gone, a leaf that was skipped, a directory gone
  // before its permissions could be given to the copy.
  function MissedOne(x: Found): nat {
    if x.GoneEntry? || (x.LeafEntry? && x.outcome.Skipped?) then 1
    else if x.DirEntry? && (x.listing.Vanished? || (x.listing.Listed? && x.perms.PermsGone?)) then 1
    else 0
  }

  function FileOne(x: Found): nat {
    if x.LeafEntry? && x.outcome.Copied? then 1 else 0
  }

  function FileBytes(x: Found): nat {
    if x.LeafEntry? && x.outcome.Copied? then x.outcome.bytes else 0
  }

  lemma {:induction false} TotalsBelow(path: Path, f: Found)
    ensures Total(All(f), MissedOne) ==
      Vanishings(f) + Total(LeavesOf(path, f), SkippedOne) + Total(DirsOf(path, f), PermsGoneOne)
    ensures Total(All(f), FileOne) == Total(LeavesOf(path, f), CopiedOne)
    ensures Total(All(f), FileBytes) == Total(LeavesOf(path, f), CopiedBytes)
    decreases f
  {
    if f.DirEntry? && f.listing.Listed? {
      EntryTotalsBelow(path, f.listing.entries);
      TotalCons(f, AllEntries(f.listing.entries), MissedOne);
      TotalCons(f, AllEntries(f.listing.entries), FileOne);
      TotalCons(f, AllEntries(f.listing.entries), FileBytes);
      TotalCons(Dir(path, f.perms), EntryDirs(path, f.listing.entries), PermsGoneOne);
    } else {
      OneAlone(f, MissedOne);
      OneAlone(f, FileOne);
      OneAlone(f, FileBytes);
      if f.LeafEntry? {
        OneAlone(Leaf(path, f.outcome), SkippedOne);
        OneAlone(Leaf(path, f.outcome), CopiedOne);
        OneAlone(Leaf(path, f.outcome), CopiedBytes);
      }
    }
  }

  lemma OneAlone<T>(x: T, f: T -> nat)
    ensures Total([x], f) == f(x) && Total([x] + [], f) == f(x)
  {
    TotalCons(x, [], f);
    assert [x] + [] == [x];
  }

  lemma {:induction false} EntryTotalsBelow(path: Path, entries: Entries)
    ensures Total(AllEntries(entries), MissedOne) == EntryVanishings(entries)
      + Total(EntryLeaves(path, entries), SkippedOne) + Total(EntryDirs(path, entries), PermsGoneOne)
    ensures Total(AllEntries(entries), FileOne) == Total(EntryLeaves(path, entries), CopiedOne)
    ensures Total(AllEntries(entries), FileBytes) == Total(EntryLeaves(path, entries), CopiedBytes)
    decreases entries
  {
    match entries
    case Nil =>
    case Cons(name, found, rest) =>
      TotalsBelow(path + [name], found);
      EntryTotalsBelow(path, rest);
      var leaves, dirs := LeavesOf(path + [name], found), DirsOf(path + [name], found);
      TotalAppend(All(found), AllEntries(rest), MissedOne);
      TotalAppend(All(found), AllEntries(rest), FileOne);
      TotalAppend(All(found), AllEntries(rest), FileBytes);
      TotalAppend(leaves, EntryLeaves(path, rest), SkippedOne);
      TotalAppend(leaves, EntryLeaves(path, rest), CopiedOne);
      TotalAppend(leaves, EntryLeaves(path, rest), CopiedBytes);
      TotalAppend(dirs, EntryDirs(path, rest), PermsGoneOne);
  }

  lemma {:induction false} TotalSame<T(!new)>(s: seq<T>, f: T -> nat, g: T -> nat)
    requires forall x :: f(x) == g(x)
    ensures Total(s, f) == Total(s, g)
  {
    if s != [] {
      TotalSame(s[1..], f, g);
    }
  }

  lemma {:induction false} NoneMissed(all: seq<Found>)
    ensures Total(all, MissedOne) == 0 <==> forall x :: x in all ==> MissedOne(x) == 0
  {
    if all != [] {
      assert forall x :: x in all <==> x == all[0] || x in all[1..];
      NoneMissed(all[1..]);
    }
  }

  lemma AllIsMet(root: Found, good: Found -> bool)
    requires forall x :: x in All(root) ==> good(x)
    ensures forall steps :: Descend(root, steps).Some? ==> good(Descend(root, steps).value)
  {
    forall steps | Descend(root, steps).Some?
      ensures good(Descend(root, steps).value)
    {
      DescendIsInAll(root, steps);
    }
  }

  lemma MetIsAll(root: Found, good: Found -> bool)
    ensures (forall x :: x in All(root) ==> good(x)) <==>
      forall steps :: Descend(root, steps).Some? ==> good(Descend(root, steps).value)
  {
    if forall x :: x in All(root) ==> good(x) {
      AllIsMet(root, good);
    } else {
      var x :| x in All(root) && !good(x);
      var steps := WayDown(root, x);
      assert Descend(root, steps).Some?;
    }
  }

  // Whatever is met on the way down: the copy fails exactly when the root is gone, or when it meets an entry or
  // a directory it cannot read, a directory outside the root or one it cannot make, a leaf that fails, or
  // permissions it cannot set.
  lemma FailsExactlyAtTrouble(root: Found)
    requires root.DirEntry?
    ensures !Fails(root) <==>
      && !root.listing.Vanished?
      && forall steps :: Descend(root, steps).Some? ==>
           var x := Descend(root, steps).value;
           && !x.UnreadableEntry?
           && (x.LeafEntry? ==> !x.outcome.Failed?)
           && (x.DirEntry? ==> x.within && !x.listing.Unreadable?)
           && (x.DirEntry? && x.listing.Listed? ==> x.created && !x.perms.PermsFail?)
  {
    WalkFailsBelow(root);
    LeavesBelow([], root, (outcome: CopyLeaf.Outcome) => !outcome.Failed?);
    DirsBelow([], root, (perms: Perms) => !perms.PermsFail?);
    MetIsAll(root, (x: Found) =>
      && !x.UnreadableEntry?
      && (x.LeafEntry? ==> !x.outcome.Failed?)
      && (x.DirEntry? ==> x.within && !x.listing.Unreadable?)
      && (x.DirEntry? && x.listing.Listed? ==> x.created && !x.perms.PermsFail?));
  }

  // The count of a copy that has finished is of what it met, once each; and it is zero exactly when every leaf
  // it met was copied, every directory listed, and none was gone.
  lemma CountIsOfEverything(root: Found)
    requires root.DirEntry? && !Fails(root)
    ensures NotCopied(root) == Total(All(root), (x: Found) =>
      if x.GoneEntry? || (x.LeafEntry? && x.outcome.Skipped?) || (x.DirEntry? && x.listing.Vanished?)
         || (x.DirEntry? && x.listing.Listed? && x.perms.PermsGone?) then 1 else 0)
    ensures Total(LeavesOf([], root), CopiedOne)
      == Total(All(root), (x: Found) => if x.LeafEntry? && x.outcome.Copied? then 1 else 0)
    ensures Total(LeavesOf([], root), CopiedBytes)
      == Total(All(root), (x: Found) => if x.LeafEntry? && x.outcome.Copied? then x.outcome.bytes else 0)
    ensures NotCopied(root) == 0 <==>
      forall steps :: Descend(root, steps).Some? ==>
        var x := Descend(root, steps).value;
        && !x.GoneEntry?
        && (x.LeafEntry? ==> x.outcome.Copied?)
        && (x.DirEntry? ==> x.listing.Listed? && x.created && x.perms.PermsSet?)
  {
    TotalsBelow([], root);
    TotalSame(All(root), MissedOne, (x: Found) =>
      if x.GoneEntry? || (x.LeafEntry? && x.outcome.Skipped?) || (x.DirEntry? && x.listing.Vanished?)
         || (x.DirEntry? && x.listing.Listed? && x.perms.PermsGone?) then 1 else 0);
    TotalSame(All(root), FileOne, (x: Found) => if x.LeafEntry? && x.outcome.Copied? then 1 else 0);
    TotalSame(All(root), FileBytes, (x: Found) => if x.LeafEntry? && x.outcome.Copied? then x.outcome.bytes else 0);
    NoneMissed(All(root));
    FailsExactlyAtTrouble(root);
    MetIsAll(root, (x: Found) =>
      && !x.GoneEntry?
      && (x.LeafEntry? ==> x.outcome.Copied?)
      && (x.DirEntry? ==> x.listing.Listed? && x.created && x.perms.PermsSet?));
    MetIsAll(root, (x: Found) =>
      && !x.UnreadableEntry?
      && (x.LeafEntry? ==> !x.outcome.Failed?)
      && (x.DirEntry? ==> x.within && !x.listing.Unreadable?)
      && (x.DirEntry? && x.listing.Listed? ==> x.created && !x.perms.PermsFail?));
  }

  lemma {:induction false} NoPermsGone(dirs: seq<Dir>)
    requires forall dir :: dir in dirs ==> !dir.perms.PermsFail?
    ensures Total(dirs, PermsGoneOne) == 0 <==> forall dir :: dir in dirs ==> dir.perms == PermsSet
  {
    if dirs != [] {
      assert forall dir :: dir in dirs <==> dir == dirs[0] || dir in dirs[1..];
      NoPermsGone(dirs[1..]);
    }
  }

  // ---------------------------------------------------------------- once each

  predicate Named(entries: Entries, name: string) {
    entries.Cons? && (entries.name == name || Named(entries.rest, name))
  }

  // No directory lists a name twice.
  predicate WellNamed(f: Found)
    decreases f
  {
    f.DirEntry? && f.listing.Listed? ==> EntriesWellNamed(f.listing.entries)
  }

  predicate EntriesWellNamed(entries: Entries)
    decreases entries
  {
    entries.Cons? ==>
      !Named(entries.rest, entries.name) && WellNamed(entries.found) && EntriesWellNamed(entries.rest)
  }

  function AtPath(path: Path): Leaf -> nat {
    (leaf: Leaf) => if leaf.path == path then 1 else 0
  }

  lemma {:induction false} PathsBelow(path: Path, f: Found, target: Path)
    requires Total(LeavesOf(path, f), AtPath(target)) > 0
    ensures path <= target
    decreases f
  {
    match f
    case LeafEntry(outcome) =>
    case DirEntry(_, Listed(entries), _, _) => EntryPathsBelow(path, entries, target);
    case _ =>
  }

  lemma {:induction false} EntryPathsBelow(path: Path, entries: Entries, target: Path)
    requires Total(EntryLeaves(path, entries), AtPath(target)) > 0
    ensures path < target && Named(entries, target[|path|])
    decreases entries
  {
    match entries
    case Nil =>
    case Cons(name, found, rest) =>
      TotalAppend(LeavesOf(path + [name], found), EntryLeaves(path, rest), AtPath(target));
      if Total(LeavesOf(path + [name], found), AtPath(target)) > 0 {
        PathsBelow(path + [name], found, target);
      } else {
        EntryPathsBelow(path, rest, target);
      }
  }

  // The walk comes to every leaf once: no path is collected twice.
  lemma {:induction false} EachLeafOnce(path: Path, f: Found, target: Path)
    requires WellNamed(f)
    ensures Total(LeavesOf(path, f), AtPath(target)) <= 1
    decreases f
  {
    match f
    case LeafEntry(outcome) =>
    case DirEntry(_, Listed(entries), _, _) => EachEntryLeafOnce(path, entries, target);
    case _ =>
  }

  lemma {:induction false} EachEntryLeafOnce(path: Path, entries: Entries, target: Path)
    requires EntriesWellNamed(entries)
    ensures Total(EntryLeaves(path, entries), AtPath(target)) <= 1
    decreases entries
  {
    match entries
    case Nil =>
    case Cons(name, found, rest) =>
      var here := LeavesOf(path + [name], found);
      TotalAppend(here, EntryLeaves(path, rest), AtPath(target));
      EachLeafOnce(path + [name], found, target);
      EachEntryLeafOnce(path, rest, target);
      if Total(here, AtPath(target)) > 0 && Total(EntryLeaves(path, rest), AtPath(target)) > 0 {
        PathsBelow(path + [name], found, target);
        EntryPathsBelow(path, rest, target);
        assert false;
      }
  }

  ghost predicate MadeFor(dirs: seq<Dir>, path: Path) {
    path != [] && exists dir :: dir in dirs && dir.path == path[..|path| - 1]
  }

  lemma MadeForMore(dirs: seq<Dir>, more: seq<Dir>, path: Path)
    requires MadeFor(dirs, path) && forall dir :: dir in dirs ==> dir in more
    ensures MadeFor(more, path)
  {
  }

  // Every leaf collected below the root has a directory that the walk read and made.
  lemma {:induction false} LeavesHaveTheirDirectory(path: Path, f: Found, leaf: Leaf)
    requires f.DirEntry? && leaf in LeavesOf(path, f)
    ensures MadeFor(DirsOf(path, f), leaf.path)
    decreases f
  {
    EntryLeavesHaveTheirDirectory(path, f.listing.entries, leaf);
    var top := [Dir(path, f.perms)];
    if leaf.path != [] && leaf.path[..|leaf.path| - 1] == path {
      assert top[0] in top + EntryDirs(path, f.listing.entries);
    } else {
      MadeForMore(EntryDirs(path, f.listing.entries), DirsOf(path, f), leaf.path);
    }
  }

  lemma {:induction false} EntryLeavesHaveTheirDirectory(path: Path, entries: Entries, leaf: Leaf)
    requires leaf in EntryLeaves(path, entries)
    ensures (leaf.path != [] && leaf.path[..|leaf.path| - 1] == path) || MadeFor(EntryDirs(path, entries), leaf.path)
    decreases entries
  {
    var here := path + [entries.name];
    if leaf in LeavesOf(here, entries.found) {
      match entries.found
      case LeafEntry(_) => assert here[..|path|] == path;
      case DirEntry(_, _, _, _) =>
        LeavesHaveTheirDirectory(here, entries.found, leaf);
        MadeForMore(DirsOf(here, entries.found), EntryDirs(path, entries), leaf.path);
    } else {
      EntryLeavesHaveTheirDirectory(path, entries.rest, leaf);
      if MadeFor(EntryDirs(path, entries.rest), leaf.path) {
        MadeForMore(EntryDirs(path, entries.rest), EntryDirs(path, entries), leaf.path);
      }
    }
  }
}
