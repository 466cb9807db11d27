/** A pass over leaves whose places are fixed beforehand. */
module FixedPlaces {
  datatype Leaf<L, E> = Leaf(target: L, entry: E)

  function CopyOne<L(==), E>(dest: map<L, E>, leaf: Leaf<L, E>, force: bool): map<L, E> {
    if !force && leaf.target in dest then dest else dest[leaf.target := leaf.entry]
  }

  function CopyAll<L(==), E>(dest: map<L, E>, leaves: seq<Leaf<L, E>>, force: bool): map<L, E>
    decreases |leaves|
  {
    if leaves == [] then dest else CopyAll(CopyOne(dest, leaves[0], force), leaves[1..], force)
  }

  // Leaves that lead to one place agree, unless what is already there stays.
  ghost predicate Agree<L, E>(dest: map<L, E>, leaves: seq<Leaf<L, E>>, force: bool) {
    forall i, j :: 0 <= i < |leaves| && 0 <= j < |leaves| && leaves[i].target == leaves[j].target ==>
      leaves[i].entry == leaves[j].entry || (!force && leaves[i].target in dest)
  }

  predicate Present<L(==), E>(leaves: seq<Leaf<L, E>>, place: L) {
    exists i :: 0 <= i < |leaves| && leaves[i].target == place
  }

  // What is at each place after the pass: nothing outside the leaves' own places is touched.
  ghost predicate Settled<L(!new), E(!new)>(dest: map<L, E>, leaves: seq<Leaf<L, E>>, force: bool, now: map<L, E>) {
    && (forall place :: place in now <==> place in dest || Present(leaves, place))
    && (forall place :: place in dest && !Present(leaves, place) ==> now[place] == dest[place])
    && (forall leaf :: leaf in leaves ==>
          && leaf.target in now
          && now[leaf.target] == if !force && leaf.target in dest then dest[leaf.target] else leaf.entry)
  }

  lemma {:induction false} AgreeingLeavesSettle<L(!new), E(!new)>(dest: map<L, E>, leaves: seq<Leaf<L, E>>, force: bool)
    requires Agree(dest, leaves, force)
    ensures Settled(dest, leaves, force, CopyAll(dest, leaves, force))
    decreases |leaves|
  {
    if leaves != [] {
      var first, rest := leaves[0], leaves[1..];
      var next := CopyOne(dest, first, force);
      assert forall i :: 0 <= i < |rest| ==> rest[i] == leaves[i + 1];
      AgreeingLeavesSettle(next, rest, force);
      var now := CopyAll(next, rest, force);
      PresentStep(leaves);
      forall leaf | leaf in leaves
        ensures leaf.target in now
        ensures now[leaf.target] == if !force && leaf.target in dest then dest[leaf.target] else leaf.entry
      {
        var i :| 0 <= i < |leaves| && leaves[i] == leaf;
        assert leaf.target == first.target ==> leaf.entry == first.entry || (!force && leaf.target in dest);
        if i > 0 {
          assert leaf in rest;
        } else if Present(rest, first.target) {
          var j :| 0 <= j < |rest| && rest[j].target == first.target;
          assert rest[j] in rest && rest[j] == leaves[j + 1];
        }
      }
    }
  }

  lemma PresentStep<L, E>(leaves: seq<Leaf<L, E>>)
    requires leaves != []
    ensures forall place :: Present(leaves, place) <==> place == leaves[0].target || Present(leaves[1..], place)
  {
    forall place
      ensures Present(leaves, place) <==> place == leaves[0].target || Present(leaves[1..], place)
    {
      if Present(leaves, place) && place != leaves[0].target {
        var i :| 0 <= i < |leaves| && leaves[i].target == place;
        assert leaves[1..][i - 1].target == place;
      }
      if Present(leaves[1..], place) {
        var i :| 0 <= i < |leaves[1..]| && leaves[1..][i].target == place;
        assert leaves[i + 1].target == place;
      }
    }
  }

  lemma AgreeReordered<L, E>(dest: map<L, E>, a: seq<Leaf<L, E>>, b: seq<Leaf<L, E>>, force: bool)
    requires (forall leaf :: leaf in a <==> leaf in b) && Agree(dest, a, force)
    ensures Agree(dest, b, force)
  {
    forall i, j | 0 <= i < |b| && 0 <= j < |b| && b[i].target == b[j].target
      ensures b[i].entry == b[j].entry || (!force && b[i].target in dest)
    {
      assert b[i] in a && b[j] in a;
    }
  }

  lemma SamePlaces<L, E>(a: seq<Leaf<L, E>>, b: seq<Leaf<L, E>>)
    requires forall leaf :: leaf in a <==> leaf in b
    ensures forall place :: Present(a, place) <==> Present(b, place)
  {
    forall place
      ensures Present(a, place) <==> Present(b, place)
    {
      if Present(a, place) {
        var i :| 0 <= i < |a| && a[i].target == place;
        assert a[i] in b;
      }
      if Present(b, place) {
        var i :| 0 <= i < |b| && b[i].target == place;
        assert b[i] in a;
      }
    }
  }

  lemma SettledOnce<L(!new), E(!new)>(dest: map<L, E>, a: seq<Leaf<L, E>>, b: seq<Leaf<L, E>>, force: bool,
      x: map<L, E>, y: map<L, E>)
    requires forall leaf :: leaf in a <==> leaf in b
    requires Settled(dest, a, force, x) && Settled(dest, b, force, y)
    ensures x == y
  {
    SamePlaces(a, b);
    assert x.Keys == y.Keys;
    forall place | place in x
      ensures x[place] == y[place]
    {
      if Present(a, place) {
        var i :| 0 <= i < |a| && a[i].target == place;
        assert a[i] in a && a[i] in b;
      }
    }
  }

  lemma {:induction false} CopyAllPush<L, E>(dest: map<L, E>, leaves: seq<Leaf<L, E>>, last: Leaf<L, E>, force: bool)
    ensures CopyAll(dest, leaves + [last], force) == CopyOne(CopyAll(dest, leaves, force), last, force)
    decreases |leaves|
  {
    if leaves == [] {
      assert [last][1..] == [];
    } else {
      CopyAllPush(CopyOne(dest, leaves[0], force), leaves[1..], last, force);
      assert (leaves + [last])[1..] == leaves[1..] + [last];
    }
  }
}

/** The leaves copied one after another, each of which finds its place when its turn comes. */
module SequentialPass {
  import opened Common
  import opened Containment
  import CopyLeaf
  import F = FixedPlaces

  datatype Leaf = Leaf(dir: Path, name: string, node: Node)

  // Where a leaf goes.
  function PlaceOf(fs: Fs, leaf: Leaf): Place {
    var r := Canonicalize(fs, leaf.dir);
    if r.Some? then r.value + [leaf.name] else []
  }

  // Whether a resolution fails for want of a name, rather than at a file or for too many links.
  predicate Missing(fs: Fs, at: Place, path: Path, links: nat)
    decreases links, |path|
  {
    if path == [] || at !in fs || fs[at] != Dir then false
    else
      match path[0]
      case Up => Missing(fs, Parent(at), path[1..], links)
      case Name(name) =>
        var child := at + [name];
        if child !in fs then true
        else
          match fs[child]
          case Link(absolute, target) =>
            links > 0 && Missing(fs, if absolute then [] else at, target + path[1..], links - 1)
          case _ => Missing(fs, child, path[1..], links)
  }

  // One leaf, when nobody else acts and nothing fails by itself; `None` ends the pass. A file whose
  // directory is missing counts as one whose source is gone.
  function Put(fs: Fs, leaf: Leaf, force: bool): Option<Fs> {
    match Canonicalize(fs, leaf.dir)
    case None => if Missing(fs, [], leaf.dir, MAX_LINKS) && leaf.node.File? then Some(fs) else None
    case Some(dir) => if fs[dir] == Dir then PutAt(fs, dir + [leaf.name], leaf.node, force) else None
  }

  function PutAt(fs: Fs, place: Place, node: Node, force: bool): Option<Fs> {
    if place !in fs then Some(fs[place := node])
    else if !force then Some(fs)
    else if fs[place] == Dir then None
    else Some(fs[place := node])
  }

  function RunPass(fs: Fs, leaves: seq<Leaf>, force: bool): Option<Fs>
    decreases |leaves|
  {
    if leaves == [] then Some(fs)
    else
      match Put(fs, leaves[0], force)
      case None => None
      case Some(next) => RunPass(next, leaves[1..], force)
  }

  lemma {:induction false} RunPassPush(fs: Fs, leaves: seq<Leaf>, leaf: Leaf, force: bool)
    ensures RunPass(fs, leaves + [leaf], force) ==
      match RunPass(fs, leaves, force)
      case None => None
      case Some(g) => Put(g, leaf, force)
    decreases |leaves|
  {
    if leaves == [] {
      assert [leaf][1..] == [];
      if Put(fs, leaf, force).Some? {
        assert RunPass(Put(fs, leaf, force).value, [], force) == Put(fs, leaf, force);
      }
    } else {
      assert (leaves + [leaf])[1..] == leaves[1..] + [leaf];
      if Put(fs, leaves[0], force).Some? {
        RunPassPush(Put(fs, leaves[0], force).value, leaves[1..], leaf, force);
      }
    }
  }

  // ---------------------------------------------------------------- places found beforehand

  // Every leaf's directory is there, as the walk left it.
  ghost predicate Usable(fs: Fs, leaves: seq<Leaf>) {
    && WellFormed(fs)
    && forall leaf :: leaf in leaves ==>
         leaf.node != Dir && Canonicalize(fs, leaf.dir).Some? && fs[Canonicalize(fs, leaf.dir).value] == Dir
  }

  function Fixed(fs: Fs, leaves: seq<Leaf>): (r: seq<F.Leaf<Place, Node>>)
    ensures |r| == |leaves|
    ensures forall i :: 0 <= i < |leaves| ==> r[i] == F.Leaf(PlaceOf(fs, leaves[i]), leaves[i].node)
  {
    if leaves == [] then [] else [F.Leaf(PlaceOf(fs, leaves[0]), leaves[0].node)] + Fixed(fs, leaves[1..])
  }

  // The leaves at the places they had at first.
  function Over(fs: Fs, done: seq<Leaf>, force: bool): Fs {
    F.CopyAll(fs, Fixed(fs, done), force)
  }

  lemma OverPush(fs: Fs, done: seq<Leaf>, leaf: Leaf, force: bool)
    ensures Over(fs, done + [leaf], force)
      == F.CopyOne(Over(fs, done, force), F.Leaf(PlaceOf(fs, leaf), leaf.node), force)
  {
    var last := F.Leaf(PlaceOf(fs, leaf), leaf.node);
    assert Fixed(fs, done + [leaf]) == Fixed(fs, done) + [last];
    F.CopyAllPush(fs, Fixed(fs, done), last, force);
  }

  // Only `force` ends the pass at a directory.
  predicate Blocked(fs: Fs, leaf: Leaf, force: bool) {
    force && PlaceOf(fs, leaf) in fs && fs[PlaceOf(fs, leaf)] == Dir
  }

  ghost predicate Reordered(a: seq<Leaf>, b: seq<Leaf>) {
    multiset(a) == multiset(b)
  }

  // What `place` holds is what the copy of one file or symlink finds, or leaves, at its destination. How a
  // link's target is spelt is left open.
  predicate Shows(fs: Fs, place: Place, entry: CopyLeaf.Entry, spelling: Node -> string) {
    match entry
    case Absent => place !in fs
    case File(bytes, _) => place in fs && fs[place] == File(bytes)
    case Link(target) => place in fs && fs[place].Link? && spelling(fs[place]) == target
    case Directory => place in fs && fs[place] == Dir
  }

  // A leaf copied in one go comes to what the copy of a file or symlink does when nobody else acts and nothing
  // fails by itself.
  lemma PutIsTheCopy(fs: Fs, leaf: Leaf, force: bool, spelling: Node -> string, src: CopyLeaf.Entry,
                     was: CopyLeaf.Entry, r: CopyLeaf.Outcome, now: CopyLeaf.Entry)
    requires Usable(fs, [leaf]) && Shows(fs, PlaceOf(fs, leaf), was, spelling)
    requires Shows(map[PlaceOf(fs, leaf) := leaf.node], PlaceOf(fs, leaf), src, spelling)
    requires CopyLeaf.Ideal(src, was, force, r, now)
    ensures r.Failed? <==> Put(fs, leaf, force).None?
    ensures !r.Failed? ==> Shows(Put(fs, leaf, force).value, PlaceOf(fs, leaf), now, spelling)
    ensures r.Skipped? <==> !force && PlaceOf(fs, leaf) in fs
  {
    assert leaf in [leaf];
  }
}
