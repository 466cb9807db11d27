/** Canonical paths and the check that keeps a copy within its root. Paths are absolute. */
module Containment {
  import opened Common

  // Where something really is: no links, no `..`.
  type Place = seq<string>

  datatype Component = Up | Name(name: string)

  type Path = seq<Component>

  datatype Node = Dir | File(content: string) | Link(absolute: bool, target: Path)

  type Fs = map<Place, Node>

  // Links followed in one resolution before the system gives up.
  const MAX_LINKS: nat := 40

  // Everything stands in a directory.
  ghost predicate WellFormed(fs: Fs) {
    && [] in fs && fs[[]] == Dir
    && forall p :: p in fs && p != [] ==> Parent(p) in fs && fs[Parent(p)] == Dir
  }

  function Parent(p: Place): Place {
    if p == [] then [] else p[..|p| - 1]
  }

  datatype Reached = Reached(place: Place, links: nat)

  // The system's own resolution of a path from the directory `at`.
  function Resolve(fs: Fs, at: Place, path: Path, links: nat): Option<Reached>
    decreases links, |path|
  {
    if path == [] then Some(Reached(at, links))
    else if at !in fs || fs[at] != Dir then None
    else
      match path[0]
      case Up => Resolve(fs, Parent(at), path[1..], links)
      case Name(name) =>
        var child := at + [name];
        if child !in fs then None
        else
          match fs[child]
          case Link(absolute, target) =>
            if links == 0 then None
            else Resolve(fs, if absolute then [] else at, target + path[1..], links - 1)
          case _ => Resolve(fs, child, path[1..], links)
  }

  // `canonicalize`.
  function Canonicalize(fs: Fs, path: Path): Option<Place> {
    match Resolve(fs, [], path, MAX_LINKS)
    case Some(r) => if r.place in fs then Some(r.place) else None
    case None => None
  }

  function Names(p: Place): Path {
    if p == [] then [] else Names(p[..|p| - 1]) + [Name(p[|p| - 1])]
  }

  predicate NoUp(path: Path) {
    forall i :: 0 <= i < |path| ==> path[i].Name?
  }

  // ---------------------------------------------------------------- a path of which only a part exists

  // `None` where a missing part ends in something that is no name: the path is then returned as it is.
  function WithParents(fs: Fs, path: Path): Option<Path>
    decreases |path|
  {
    match Canonicalize(fs, path)
    case Some(place) => Some(Names(place))
    case None =>
      if path == [] || path[|path| - 1] == Up then None
      else
        match WithParents(fs, path[..|path| - 1])
        case None => None
        case Some(parent) => Some(parent + [path[|path| - 1]])
  }

  function Canonical(fs: Fs, path: Path): Path {
    var found := WithParents(fs, path);
    if found.Some? then found.value else path
  }

  method ResolveWithParents(fs: Fs, path: Path) returns (result: Path)
    ensures result == Canonical(fs, path)
  {
    var canonical := Canonicalize(fs, path);
    if canonical.Some? {
      return Names(canonical.value);
    }
    var existingPrefix, suffix: seq<Component> := path, [];
    while Canonicalize(fs, existingPrefix).None?
      invariant |existingPrefix| <= |path| && WithParents(fs, path).Some? == WithParents(fs, existingPrefix).Some?
      invariant WithParents(fs, path).Some? ==>
        WithParents(fs, path).value == WithParents(fs, existingPrefix).value + Reversed(suffix)
      decreases |existingPrefix|
    {
      if existingPrefix == [] || existingPrefix[|existingPrefix| - 1] == Up {
        return path;
      }
      var fileName := existingPrefix[|existingPrefix| - 1];
      existingPrefix := existingPrefix[..|existingPrefix| - 1];
      ReversedPush(suffix, fileName);
      ghost var found := WithParents(fs, existingPrefix);
      if found.Some? {
        Regroup(found.value, [fileName], Reversed(suffix));
      }
      suffix := suffix + [fileName];
    }
    result := Names(Canonicalize(fs, existingPrefix).value);
    while suffix != []
      invariant WithParents(fs, path) == Some(result + Reversed(suffix))
      decreases |suffix|
    {
      Regroup(result, [suffix[|suffix| - 1]], Reversed(suffix[..|suffix| - 1]));
      result := result + [suffix[|suffix| - 1]];
      suffix := suffix[..|suffix| - 1];
    }
  }

  // The part of a path that exists: the longest prefix that resolves.
  function ExistingLength(fs: Fs, path: Path): (k: nat)
    requires [] in fs
    ensures k <= |path| && Canonicalize(fs, path[..k]).Some?
    ensures k < |path| ==> Canonicalize(fs, path[..k + 1]).None?
    decreases |path|
  {
    assert path[..|path|] == path;
    if path == [] || Canonicalize(fs, path).Some? then |path|
    else
      var k := ExistingLength(fs, path[..|path| - 1]);
      assert path[..|path| - 1][..k] == path[..k];
      assert k < |path| - 1 ==> path[..|path| - 1][..k + 1] == path[..k + 1];
      k
  }

  function ExistingPart(fs: Fs, path: Path): Place
    requires [] in fs
  {
    Canonicalize(fs, path[..ExistingLength(fs, path)]).value
  }

  // A path of which the last name is missing.
  lemma SameExistingPart(fs: Fs, path: Path)
    requires [] in fs && path != [] && Canonicalize(fs, path).None?
    ensures var parent := path[..|path| - 1];
      ExistingLength(fs, path) == ExistingLength(fs, parent) && ExistingPart(fs, path) == ExistingPart(fs, parent)
  {
    var parent := path[..|path| - 1];
    var k := ExistingLength(fs, parent);
    assert parent[..k] == path[..k];
  }

  // Without `..`, the canonical path is where the longest existing prefix really is, followed by the missing
  // names in order.
  lemma {:induction false} CanonicalIsRealPrefixAndMissingNames(fs: Fs, path: Path)
    requires [] in fs && NoUp(path)
    ensures WithParents(fs, path).Some?
    ensures Canonical(fs, path) == Names(ExistingPart(fs, path)) + path[ExistingLength(fs, path)..]
    decreases |path|
  {
    var n := |path|;
    if path == [] || Canonicalize(fs, path).Some? {
      assert path[..n] == path && path[n..] == [];
    } else {
      var parent := path[..n - 1];
      CanonicalIsRealPrefixAndMissingNames(fs, parent);
      SameExistingPart(fs, path);
      LastAgain(path, ExistingLength(fs, parent), Names(ExistingPart(fs, parent)));
    }
  }

  lemma LastAgain(path: Path, k: nat, front: Path)
    requires k < |path|
    ensures front + path[..|path| - 1][k..] + [path[|path| - 1]] == front + path[k..]
  {
    Regroup(front, path[..|path| - 1][k..], [path[|path| - 1]]);
    assert path[..|path| - 1][k..] + [path[|path| - 1]] == path[k..];
  }

  // ---------------------------------------------------------------- what resolution does

  lemma {:induction false} ResolveAppend(fs: Fs, at: Place, a: Path, b: Path, links: nat)
    ensures Resolve(fs, at, a + b, links) ==
      match Resolve(fs, at, a, links)
      case None => None
      case Some(r) => Resolve(fs, r.place, b, r.links)
    decreases links, |a|
  {
    if a == [] {
      assert a + b == b;
    } else {
      assert (a + b)[1..] == a[1..] + b;
      if at in fs && fs[at] == Dir {
        match a[0]
        case Up => ResolveAppend(fs, Parent(at), a[1..], b, links);
        case Name(name) =>
          var child := at + [name];
          if child in fs {
            match fs[child]
            case Link(absolute, target) =>
              if links > 0 {
                Regroup(target, a[1..], b);
                ResolveAppend(fs, if absolute then [] else at, target + a[1..], b, links - 1);
              }
            case _ => ResolveAppend(fs, child, a[1..], b, links);
          }
      }
    }
  }

  // What a path resolves to is there, and is no link.
  lemma {:induction false} ResolvedIsReal(fs: Fs, at: Place, path: Path, links: nat)
    requires WellFormed(fs) && at in fs && !fs[at].Link?
    ensures var r := Resolve(fs, at, path, links);
      r.Some? ==> r.value.place in fs && !fs[r.value.place].Link? && r.value.links <= links
    decreases links, |path|
  {
    if path != [] && fs[at] == Dir {
      match path[0]
      case Up => ResolvedIsReal(fs, Parent(at), path[1..], links);
      case Name(name) =>
        var child := at + [name];
        if child in fs {
          match fs[child]
          case Link(absolute, target) =>
            if links > 0 {
              ResolvedIsReal(fs, if absolute then [] else at, target + path[1..], links - 1);
            }
          case _ => ResolvedIsReal(fs, child, path[1..], links);
        }
    }
  }

  // What resolves goes on resolving to the same place when the tree only grows.
  lemma {:induction false} ResolvesAsItGrows(fs: Fs, more: Fs, at: Place, path: Path, links: nat)
    requires forall p :: p in fs ==> p in more && more[p] == fs[p]
    requires Resolve(fs, at, path, links).Some?
    ensures Resolve(more, at, path, links) == Resolve(fs, at, path, links)
    decreases links, |path|
  {
    if path != [] {
      match path[0]
      case Up => ResolvesAsItGrows(fs, more, Parent(at), path[1..], links);
      case Name(name) =>
        var child := at + [name];
        match fs[child]
        case Link(absolute, target) =>
          ResolvesAsItGrows(fs, more, if absolute then [] else at, target + path[1..], links - 1);
        case _ => ResolvesAsItGrows(fs, more, child, path[1..], links);
    }
  }

  lemma {:induction false} NamesAppend(p: Place, name: string)
    ensures Names(p + [name]) == Names(p) + [Name(name)]
  {
    assert (p + [name])[..|p|] == p;
  }

  lemma {:induction false} NamesPointwise(p: Place)
    ensures |Names(p)| == |p| && forall i :: 0 <= i < |p| ==> Names(p)[i] == Name(p[i])
    decreases |p|
  {
    if p != [] {
      NamesPointwise(p[..|p| - 1]);
    }
  }

  lemma NamesPrefix(a: Place, b: Place)
    ensures Names(a) <= Names(b) <==> a <= b
  {
    NamesPointwise(a);
    NamesPointwise(b);
    if Names(a) <= Names(b) {
      assert forall i :: 0 <= i < |a| ==> Names(a)[i] == Names(b)[i];
    }
  }

  // A canonical path that exists is canonical again.
  lemma {:induction false} RealPlacesResolveToThemselves(fs: Fs, p: Place, links: nat)
    requires WellFormed(fs) && p in fs && !fs[p].Link?
    ensures Resolve(fs, [], Names(p), links) == Some(Reached(p, links))
    decreases |p|
  {
    if p != [] {
      RealPlacesResolveToThemselves(fs, Parent(p), links);
      ResolveAppend(fs, [], Names(Parent(p)), [Name(p[|p| - 1])], links);
      assert Parent(p) + [p[|p| - 1]] == p;
    }
  }

  lemma CanonicalizeIsIdempotent(fs: Fs, path: Path)
    requires WellFormed(fs) && Canonicalize(fs, path).Some?
    ensures Canonicalize(fs, Canonical(fs, path)) == Canonicalize(fs, path)
  {
    ResolvedIsReal(fs, [], path, MAX_LINKS);
    RealPlacesResolveToThemselves(fs, Canonicalize(fs, path).value, MAX_LINKS);
  }

  // ---------------------------------------------------------------- where directories are made

  function Plain(path: Path): Place
    requires NoUp(path)
  {
    if path == [] then [] else Plain(path[..|path| - 1]) + [path[|path| - 1].name]
  }

  // Where a path is to be once its missing part has been made.
  function Target(fs: Fs, path: Path): Place
    requires [] in fs && NoUp(path)
  {
    ExistingPart(fs, path) + Plain(path[ExistingLength(fs, path)..])
  }

  ghost predicate Created(fs: Fs, path: Path, p: Place)
    requires [] in fs && NoUp(path)
  {
    ExistingPart(fs, path) < p && p <= Target(fs, path)
  }

  lemma {:induction false} NamesPlain(p: Place, path: Path)
    requires NoUp(path)
    ensures Names(p + Plain(path)) == Names(p) + path
    decreases |path|
  {
    if path == [] {
      assert p + Plain(path) == p && Names(p) + path == Names(p);
    } else {
      var front, last := path[..|path| - 1], path[|path| - 1];
      NamesPlain(p, front);
      assert path == front + [last] && Plain(path) == Plain(front) + [last.name];
      NamesAppend(p + Plain(front), last.name);
      Regroup(p, Plain(front), [last.name]);
      Regroup(Names(p), front, [last]);
    }
  }

  lemma CanonicalIsTarget(fs: Fs, path: Path)
    requires [] in fs && NoUp(path)
    ensures Canonical(fs, path) == Names(Target(fs, path))
  {
    CanonicalIsRealPrefixAndMissingNames(fs, path);
    NamesPlain(ExistingPart(fs, path), path[ExistingLength(fs, path)..]);
  }

  // The first missing name is not there, unless as a link that leads nowhere.
  lemma FirstMissingName(fs: Fs, path: Path)
    requires WellFormed(fs) && NoUp(path) && ExistingLength(fs, path) < |path|
    ensures var first := ExistingPart(fs, path) + [path[ExistingLength(fs, path)].name];
      fs[ExistingPart(fs, path)] == Dir ==> first !in fs || fs[first].Link?
  {
    var k := ExistingLength(fs, path);
    assert path[..k + 1] == path[..k] + [path[k]];
    ResolveAppend(fs, [], path[..k], [path[k]], MAX_LINKS);
    ResolveOne(fs, Resolve(fs, [], path[..k], MAX_LINKS).value, path[k].name);
  }

  lemma ResolveOne(fs: Fs, at: Reached, name: string)
    ensures at.place in fs && fs[at.place] == Dir && at.place + [name] in fs && !fs[at.place + [name]].Link? ==>
      Resolve(fs, at.place, [Name(name)], at.links) == Some(Reached(at.place + [name], at.links))
  {
    assert [Name(name)][1..] == [];
  }

  lemma TargetStart(fs: Fs, path: Path)
    requires [] in fs && NoUp(path) && ExistingLength(fs, path) < |path|
    ensures var part := ExistingPart(fs, path);
      |Target(fs, path)| > |part| && Target(fs, path)[..|part| + 1] == part + [path[ExistingLength(fs, path)].name]
  {
    PlainLength(path[ExistingLength(fs, path)..]);
    PlainFirst(path[ExistingLength(fs, path)..]);
  }

  lemma RootEndsByTheFirstMissingName(fs: Fs, path: Path, root: Place)
    requires WellFormed(fs) && NoUp(path) && root <= Target(fs, path) && ExistingLength(fs, path) < |path|
    requires root in fs && !fs[root].Link?
    ensures |root| <= |ExistingPart(fs, path)| + 1
  {
    var part, target := ExistingPart(fs, path), Target(fs, path);
    TargetStart(fs, path);
    FirstMissingName(fs, path);
    var first := target[..|part| + 1];
    assert first[..|part|] == part == target[..|part|];
    if |root| > |part| + 1 {
      var up := root[..|part| + 1];
      assert up == first;
      PrefixesAreDirectories(fs, root, |part| + 1);
      PrefixesAreDirectories(fs, first, |part|);
    }
  }

  // What is made on the way to a path whose canonical form is within `root`, a canonical place, is all
  // within `root` exactly when `root` reaches no further than one name beyond what exists of the path. It
  // never reaches further when it exists.
  lemma MadeWithinRoot(fs: Fs, path: Path, root: Place)
    requires WellFormed(fs) && NoUp(path) && root <= Target(fs, path)
    ensures (forall p :: Created(fs, path, p) ==> root <= p) <==>
      ExistingLength(fs, path) == |path| || |root| <= |ExistingPart(fs, path)| + 1
    ensures root in fs && !fs[root].Link? ==> forall p :: Created(fs, path, p) ==> root <= p
  {
    var k, part, target := ExistingLength(fs, path), ExistingPart(fs, path), Target(fs, path);
    if k < |path| {
      TargetStart(fs, path);
      assert Created(fs, path, target[..|part| + 1]);
      if root in fs && !fs[root].Link? {
        RootEndsByTheFirstMissingName(fs, path, root);
      }
    } else {
      assert target == part + [];
    }
  }

  lemma {:induction false} PlainLength(path: Path)
    requires NoUp(path)
    ensures |Plain(path)| == |path|
    decreases |path|
  {
    if path != [] {
      PlainLength(path[..|path| - 1]);
    }
  }

  lemma {:induction false} PlainFirst(path: Path)
    requires NoUp(path) && path != []
    ensures Plain(path) != [] && Plain(path)[0] == path[0].name
    decreases |path|
  {
    if |path| > 1 {
      PlainFirst(path[..|path| - 1]);
    }
  }

  lemma {:induction false} PrefixesAreDirectories(fs: Fs, p: Place, n: nat)
    requires WellFormed(fs) && p in fs && n < |p|
    ensures p[..n] in fs && fs[p[..n]] == Dir
    decreases |p|
  {
    var up := Parent(p);
    if n < |p| - 1 {
      PrefixesAreDirectories(fs, up, n);
      assert up[..n] == p[..n];
    }
  }

  // ---------------------------------------------------------------- making directories

  lemma ExistingIsTarget(fs: Fs, path: Path)
    requires [] in fs && NoUp(path) && Canonicalize(fs, path).Some?
    ensures Target(fs, path) == Canonicalize(fs, path).value == ExistingPart(fs, path)
  {
    var n := |path|;
    assert path[..n] == path && path[n..] == [];
    assert Target(fs, path) == ExistingPart(fs, path) + [];
  }

  lemma PlainOneMore(path: Path, k: nat)
    requires NoUp(path) && k < |path|
    ensures Plain(path[k..]) == Plain(path[..|path| - 1][k..]) + [path[|path| - 1].name]
  {
    assert path[k..][..|path| - 1 - k] == path[..|path| - 1][k..];
  }

  lemma OneMoreName(fs: Fs, path: Path)
    requires WellFormed(fs) && NoUp(path) && path != [] && Canonicalize(fs, path).None?
    ensures var parent, name := path[..|path| - 1], path[|path| - 1].name;
      && ExistingPart(fs, path) == ExistingPart(fs, parent)
      && Target(fs, path) == Target(fs, parent) + [name]
      && ExistingPart(fs, parent) <= Target(fs, parent)
      && (Canonicalize(fs, parent).Some? ==> Target(fs, parent) == Canonicalize(fs, parent).value)
  {
    var parent, name := path[..|path| - 1], path[|path| - 1].name;
    var k := ExistingLength(fs, parent);
    SameExistingPart(fs, path);
    PlainOneMore(path, k);
    Regroup(ExistingPart(fs, parent), Plain(parent[k..]), [name]);
    if Canonicalize(fs, parent).Some? {
      ExistingIsTarget(fs, parent);
    }
  }

  // Directories added on the way to `path`, and nothing else.
  ghost predicate Grew(fs: Fs, more: Fs, path: Path)
    requires [] in fs && NoUp(path)
  {
    && (forall p :: p in fs ==> p in more && more[p] == fs[p])
    && (forall p :: p in more && p !in fs ==> more[p] == Dir && Created(fs, path, p))
  }

  lemma MadeAtParent(fs: Fs, parent: Path, name: string, place: Place)
    requires WellFormed(fs) && Canonicalize(fs, parent) == Some(place) && fs[place] == Dir && place + [name] !in fs
    ensures Canonicalize(fs, parent + [Name(name)]).None?
    ensures var more := fs[place + [name] := Dir];
      WellFormed(more) && Canonicalize(more, parent + [Name(name)]) == Some(place + [name])
  {
    var more := fs[place + [name] := Dir];
    ResolveAppend(fs, [], parent, [Name(name)], MAX_LINKS);
    ResolveAppend(more, [], parent, [Name(name)], MAX_LINKS);
    ResolvesAsItGrows(fs, more, [], parent, MAX_LINKS);
    assert Parent(place + [name]) == place;
  }

  lemma NoParentNoChild(fs: Fs, path: Path)
    requires path != [] && Canonicalize(fs, path[..|path| - 1]).None? && WellFormed(fs)
    ensures Canonicalize(fs, path).None?
  {
    var parent := path[..|path| - 1];
    ResolvedIsReal(fs, [], parent, MAX_LINKS);
    ResolveAppend(fs, [], parent, [path[|path| - 1]], MAX_LINKS);
    assert parent + [path[|path| - 1]] == path;
  }

  // The last name of a path whose parent exists has been made.
  ghost predicate MadeLast(was: Fs, now: Fs, path: Path)
    requires WellFormed(was) && NoUp(path) && path != []
  {
    && Canonicalize(was, path).None? && Canonicalize(was, path[..|path| - 1]).Some?
    && Target(was, path) !in was && now == was[Target(was, path) := Dir]
    && Canonicalize(now, path) == Some(Target(was, path))
  }

  lemma MadeLastGrew(was: Fs, now: Fs, path: Path)
    requires WellFormed(was) && NoUp(path) && path != [] && MadeLast(was, now, path)
    ensures Grew(was, now, path)
  {
    OneMoreName(was, path);
  }

  lemma ThenMadeLast(was: Fs, between: Fs, now: Fs, path: Path)
    requires WellFormed(was) && WellFormed(between) && NoUp(path) && path != [] && Canonicalize(was, path).None?
    requires Grew(was, between, path[..|path| - 1]) && MadeLast(between, now, path)
    requires Canonicalize(between, path[..|path| - 1]) == Some(Target(was, path[..|path| - 1]))
    ensures Grew(was, now, path) && Target(between, path) == Target(was, path)
  {
    OneMoreName(was, path);
    OneMoreName(between, path);
    GrewOneName(was, between, path);
  }

  lemma GrewOneName(was: Fs, more: Fs, path: Path)
    requires WellFormed(was) && NoUp(path) && path != [] && Canonicalize(was, path).None?
    requires Grew(was, more, path[..|path| - 1])
    ensures Grew(was, more, path)
  {
    OneMoreName(was, path);
  }

  // ---------------------------------------------------------------- changes elsewhere

  // The links a resolution goes through.
  function LinksUsed(fs: Fs, at: Place, path: Path, links: nat): set<Place>
    decreases links, |path|
  {
    if path == [] || at !in fs || fs[at] != Dir then {}
    else
      match path[0]
      case Up => LinksUsed(fs, Parent(at), path[1..], links)
      case Name(name) =>
        var child := at + [name];
        if child !in fs then {}
        else
          match fs[child]
          case Link(absolute, target) =>
            if links == 0 then {}
            else {child} + LinksUsed(fs, if absolute then [] else at, target + path[1..], links - 1)
          case _ => LinksUsed(fs, child, path[1..], links)
  }

  lemma {:induction false} LinksUsedAreThere(fs: Fs, at: Place, path: Path, links: nat)
    ensures forall p :: p in LinksUsed(fs, at, path, links) ==> p in fs && fs[p].Link?
    decreases links, |path|
  {
    if path != [] && at in fs && fs[at] == Dir {
      match path[0]
      case Up => LinksUsedAreThere(fs, Parent(at), path[1..], links);
      case Name(name) =>
        var child := at + [name];
        if child in fs {
          match fs[child]
          case Link(absolute, target) =>
            if links > 0 {
              LinksUsedAreThere(fs, if absolute then [] else at, target + path[1..], links - 1);
            }
          case _ => LinksUsedAreThere(fs, child, path[1..], links);
        }
    }
  }

  // A directory's path leads where it led as long as directories stay and the links it goes through do.
  lemma {:induction false} WayStays(fs: Fs, g: Fs, at: Place, path: Path, links: nat)
    requires forall p :: p in fs && fs[p] == Dir ==> p in g && g[p] == Dir
    requires forall p :: p in LinksUsed(fs, at, path, links) ==> p in fs && p in g && g[p] == fs[p]
    requires var r := Resolve(fs, at, path, links); r.Some? && r.value.place in fs && fs[r.value.place] == Dir
    ensures Resolve(g, at, path, links) == Resolve(fs, at, path, links)
    decreases links, |path|
  {
    if path != [] {
      match path[0]
      case Up => WayStays(fs, g, Parent(at), path[1..], links);
      case Name(name) =>
        var child := at + [name];
        match fs[child]
        case Link(absolute, target) =>
          WayStays(fs, g, if absolute then [] else at, target + path[1..], links - 1);
        case Dir => WayStays(fs, g, child, path[1..], links);
        case File(_) =>
    }
  }

  ghost predicate Keeps(was: Fs, now: Fs) {
    forall p :: p in was ==> p in now && now[p] == was[p]
  }

  // A directory's path resolves to a directory within `root`.
  ghost predicate DirWithin(fs: Fs, path: Path, root: Place) {
    var r := Canonicalize(fs, path);
    r.Some? && root <= r.value && fs[r.value] == Dir
  }

  lemma DirsStay(was: Fs, now: Fs, dirs: seq<Path>, n: nat, place: Place)
    requires Keeps(was, now) && n <= |dirs| && forall j :: 0 <= j < n ==> DirWithin(was, dirs[j], place)
    ensures forall j :: 0 <= j < n ==> DirWithin(now, dirs[j], place)
  {
    forall j | 0 <= j < n
      ensures DirWithin(now, dirs[j], place)
    {
      ResolvesAsItGrows(was, now, [], dirs[j], MAX_LINKS);
    }
  }

  ghost predicate SameOutside(was: Fs, now: Fs, root: Place) {
    forall p :: !(root <= p) ==> (p in was <==> p in now) && (p in was ==> was[p] == now[p])
  }

  // Outside `root` nothing changes but for directories made on the way to it.
  ghost predicate OnlyTheWayTo(was: Fs, now: Fs, root: Place) {
    forall p :: !(root <= p) ==>
      && (p in was ==> p in now && now[p] == was[p])
      && (p in now && p !in was ==> now[p] == Dir && p < root)
  }

  lemma NoWayToMake(was: Fs, now: Fs, root: Place)
    requires WellFormed(was) && root in was && OnlyTheWayTo(was, now, root)
    ensures SameOutside(was, now, root)
  {
    forall p | p < root
      ensures p in was
    {
      PrefixesAreDirectories(was, root, |p|);
      assert root[..|p|] == p;
    }
  }

  // ---------------------------------------------------------------- a root that does not exist yet

  // Where the root is, or is to be.
  ghost predicate RootAt(fs: Fs, root: Path, place: Place) {
    (Canonicalize(fs, root).Some? || NoUp(root)) && Canonical(fs, root) == Names(place)
  }

  lemma RootHasAPlace(fs: Fs, root: Path) returns (place: Place)
    requires [] in fs && (Canonicalize(fs, root).Some? || NoUp(root))
    ensures RootAt(fs, root, place)
  {
    if Canonicalize(fs, root).Some? {
      place := Canonicalize(fs, root).value;
    } else {
      CanonicalIsTarget(fs, root);
      place := Target(fs, root);
    }
  }

  const NOTHING_BUT_THE_TOP: Fs := map[[] := Dir]

  lemma NothingThere(fs: Fs, x: string, rest: Path)
    requires fs == map[[] := Dir]
    ensures Canonicalize(fs, [Name(x)] + rest).None?
  {
    assert [] + [x] == [x];
  }

  lemma TwoMissingNames(fs: Fs, x: string, y: string)
    requires fs == map[[] := Dir]
    ensures ExistingLength(fs, [Name(x), Name(y)]) == 0 && ExistingPart(fs, [Name(x), Name(y)]) == []
    ensures Target(fs, [Name(x), Name(y)]) == [x, y]
  {
    var root: Path := [Name(x), Name(y)];
    assert root[..2] == root && root[..1] == [Name(x)] && root[..0] == [] && root[0..] == root;
    NothingThere(fs, x, [Name(y)]);
    NothingThere(fs, x, []);
    assert [Name(x)] + [Name(y)] == root && [Name(x)] + [] == [Name(x)];
    PlainOneMore(root, 0);
    PlainOneMore([Name(x)], 0);
    assert root[0..] == root && root[..1][0..] == [Name(x)] && [Name(x)][0..] == [Name(x)];
    assert [Name(x)][..0][0..] == [] && [] + [x] == [x];
  }

  // A root of two missing names: making it makes the first, which is outside.
  lemma MissingRootIsMadeFromOutside()
    ensures var root := [Name("a"), Name("b")];
      && WellFormed(NOTHING_BUT_THE_TOP) && NoUp(root) && RootAt(NOTHING_BUT_THE_TOP, root, ["a", "b"])
      && Target(NOTHING_BUT_THE_TOP, root) == ["a", "b"]
      && Created(NOTHING_BUT_THE_TOP, root, ["a"]) && !(["a", "b"] <= ["a"])
  {
    var fs, root: Path := NOTHING_BUT_THE_TOP, [Name("a"), Name("b")];
    TwoMissingNames(fs, "a", "b");
    assert Canonicalize(fs, root).None?;
    CanonicalIsTarget(fs, root);
    assert ["a", "b"][..1] == ["a"];
  }

  // The place of the first missing name.
  function FirstMissing(fs: Fs, path: Path): Place
    requires [] in fs && NoUp(path) && ExistingLength(fs, path) < |path|
  {
    ExistingPart(fs, path) + [path[ExistingLength(fs, path)].name]
  }

  lemma FirstMissingIsNotReal(fs: Fs, path: Path)
    requires WellFormed(fs) && NoUp(path) && ExistingLength(fs, path) < |path|
    ensures var first := FirstMissing(fs, path);
      (first !in fs || fs[first].Link?) && first <= Target(fs, path) && |first| == |ExistingPart(fs, path)| + 1
    ensures ExistingPart(fs, path) in fs && !fs[ExistingPart(fs, path)].Link?
  {
    FirstMissingName(fs, path);
    TargetStart(fs, path);
    ResolvedIsReal(fs, [], path[..ExistingLength(fs, path)], MAX_LINKS);
    assert Parent(FirstMissing(fs, path)) == ExistingPart(fs, path);
  }

  lemma RealPrefix(fs: Fs, p: Place, n: nat)
    requires WellFormed(fs) && p in fs && !fs[p].Link? && n <= |p|
    ensures p[..n] in fs && !fs[p[..n]].Link?
  {
    if n < |p| {
      PrefixesAreDirectories(fs, p, n);
    } else {
      assert p[..n] == p;
    }
  }

  // A name that is missing on the way to `target` lies beyond every part of the way that is there.
  lemma MissingIsBeyond(fs: Fs, first: Place, part: Place, target: Place)
    requires WellFormed(fs) && part in fs && !fs[part].Link? && (first !in fs || fs[first].Link?)
    requires part <= target && first <= target
    ensures |part| < |first|
  {
    assert first == target[..|first|] && part == target[..|part|];
    assert |first| <= |part| ==> part[..|first|] == first;
    if |first| <= |part| {
      RealPrefix(fs, part, |first|);
    }
  }

  // Two paths of which one is to lie within the other go missing at the same name.
  lemma SameFirstMissing(fs: Fs, root: Path, dir: Path)
    requires WellFormed(fs) && NoUp(root) && NoUp(dir) && Target(fs, root) <= Target(fs, dir)
    requires ExistingLength(fs, root) < |root| && ExistingLength(fs, dir) < |dir|
    ensures FirstMissing(fs, root) == FirstMissing(fs, dir)
  {
    FirstMissingIsNotReal(fs, root);
    FirstMissingIsNotReal(fs, dir);
    var first, second, target := FirstMissing(fs, root), FirstMissing(fs, dir), Target(fs, dir);
    MissingIsBeyond(fs, first, ExistingPart(fs, dir), target);
    MissingIsBeyond(fs, second, ExistingPart(fs, root), target);
    assert first == target[..|first|] && second == target[..|second|];
  }

  // The place of a missing root stays what it is as directories are made, none of them where a link is.
  lemma {:induction false} MissingRootStays(was: Fs, now: Fs, root: Path)
    requires WellFormed(was) && WellFormed(now) && Keeps(was, now) && NoUp(root)
    requires forall p :: p in now && p !in was ==> now[p] == Dir
    requires ExistingLength(was, root) < |root| && FirstMissing(was, root) !in was
    ensures Target(now, root) == Target(was, root)
    decreases |root|
  {
    var parent, name := root[..|root| - 1], root[|root| - 1].name;
    MissingIsNone(was, root);
    OneMoreName(was, root);
    SameExistingPart(was, root);
    if ExistingLength(was, parent) < |parent| {
      MissingRootStays(was, now, parent);
    } else {
      assert parent[..|parent|] == parent;
      ExistingIsTarget(was, parent);
      ResolvesAsItGrows(was, now, [], parent, MAX_LINKS);
      ExistingIsTarget(now, parent);
    }
    if Canonicalize(now, root).None? {
      OneMoreName(now, root);
    } else {
      NotYetThere(was, root);
      LastNameIsNoLink(now, root, Target(was, root));
    }
  }

  lemma MissingIsNone(fs: Fs, path: Path)
    requires WellFormed(fs) && ExistingLength(fs, path) < |path|
    ensures Canonicalize(fs, path).None?
  {
    assert path[..|path|] == path;
  }

  // Nothing is there beyond a missing name.
  lemma NotYetThere(fs: Fs, path: Path)
    requires WellFormed(fs) && NoUp(path) && ExistingLength(fs, path) < |path| && FirstMissing(fs, path) !in fs
    ensures Target(fs, path) !in fs
  {
    var first, target := FirstMissing(fs, path), Target(fs, path);
    FirstMissingIsNotReal(fs, path);
    assert first == target[..|first|];
    assert |first| == |target| ==> first == target;
    if target in fs && |first| < |target| {
      PrefixesAreDirectories(fs, target, |first|);
    }
  }

  // A path whose parent is to be where it now is, and whose last name is no link, is there itself.
  lemma LastNameIsNoLink(fs: Fs, path: Path, place: Place)
    requires WellFormed(fs) && NoUp(path) && path != [] && Canonicalize(fs, path).Some?
    requires place == Target(fs, path[..|path| - 1]) + [path[|path| - 1].name] && (place in fs ==> fs[place] == Dir)
    ensures Target(fs, path) == place
  {
    var parent := path[..|path| - 1];
    var last := path[|path| - 1];
    assert parent + [last] == path;
    if Canonicalize(fs, parent).None? {
      NoParentNoChild(fs, path);
    }
    ExistingIsTarget(fs, path);
    ExistingIsTarget(fs, parent);
    ResolveAppend(fs, [], parent, [last], MAX_LINKS);
    assert [last][1..] == [];
  }

  lemma CheckedTarget(fs: Fs, dir: Path, root: Path, place: Place)
    requires WellFormed(fs) && RootAt(fs, root, place) && NoUp(dir) && Canonical(fs, root) <= Canonical(fs, dir)
    ensures place <= Target(fs, dir)
  {
    CanonicalIsTarget(fs, dir);
    NamesPrefix(place, Target(fs, dir));
  }

  lemma NamesOnce(a: Place, b: Place)
    requires Names(a) == Names(b)
    ensures a == b
  {
    NamesPrefix(a, b);
    NamesPrefix(b, a);
  }

  lemma RootStaysAt(was: Fs, now: Fs, dir: Path, root: Path, place: Place)
    requires WellFormed(was) && WellFormed(now) && RootAt(was, root, place) && NoUp(dir)
    requires place <= Target(was, dir) && Grew(was, now, dir)
    ensures RootAt(now, root, place)
  {
    if Canonicalize(was, root).Some? {
      ResolvesAsItGrows(was, now, [], root, MAX_LINKS);
    } else {
      CanonicalIsTarget(was, root);
      NamesOnce(place, Target(was, root));
      MissingRootIsKept(was, now, dir, root);
      CanonicalIsTarget(now, root);
    }
  }

  // What is made for a path that passes the check lies within the root or on the way to it, and the root
  // stays where it is, or is to be.
  lemma GrewOnTheWay(was: Fs, now: Fs, dir: Path, root: Path, place: Place)
    requires WellFormed(was) && WellFormed(now) && RootAt(was, root, place) && NoUp(dir)
    requires Canonical(was, root) <= Canonical(was, dir) && Grew(was, now, dir)
    ensures OnlyTheWayTo(was, now, place) && RootAt(now, root, place) && place <= Target(was, dir)
  {
    CheckedTarget(was, dir, root, place);
    RootStaysAt(was, now, dir, root, place);
    MadeOnTheWay(was, now, dir, place);
  }

  lemma MadeOnTheWay(was: Fs, now: Fs, dir: Path, place: Place)
    requires [] in was && NoUp(dir) && place <= Target(was, dir) && Grew(was, now, dir)
    ensures OnlyTheWayTo(was, now, place)
  {
    forall p | p in now && p !in was && !(place <= p)
      ensures p < place
    {
      assert Created(was, dir, p);
    }
  }

  lemma MissingRootIsKept(was: Fs, now: Fs, dir: Path, root: Path)
    requires WellFormed(was) && WellFormed(now) && NoUp(root) && Canonicalize(was, root).None? && NoUp(dir)
    requires Target(was, root) <= Target(was, dir) && Grew(was, now, dir)
    ensures Target(now, root) == Target(was, root)
  {
    assert root[..|root|] == root;
    if p :| p in now && p !in was {
      NewNeedsAMissingName(was, now, dir, p);
      SameFirstMissing(was, root, dir);
      MissingRootStays(was, now, root);
    } else {
      assert now.Keys == was.Keys && now == was;
    }
  }

  lemma FullyThere(fs: Fs, path: Path)
    requires [] in fs && NoUp(path)
    ensures ExistingLength(fs, path) == |path| ==> forall p :: !Created(fs, path, p)
  {
    if ExistingLength(fs, path) == |path| {
      assert path[..|path|] == path;
      ExistingIsTarget(fs, path);
    }
  }

  lemma NewNeedsAMissingName(was: Fs, now: Fs, dir: Path, p: Place)
    requires WellFormed(was) && WellFormed(now) && NoUp(dir) && Grew(was, now, dir) && p in now && p !in was
    ensures ExistingLength(was, dir) < |dir| && FirstMissing(was, dir) !in was
  {
    FullyThere(was, dir);
    if ExistingLength(was, dir) < |dir| {
      var first, target := FirstMissing(was, dir), Target(was, dir);
      FirstMissingIsNotReal(was, dir);
      assert first == target[..|first|] && p == target[..|p|];
      assert p[..|first|] == first;
      if |first| < |p| {
        PrefixesAreDirectories(now, p, |first|);
      } else {
        assert p == first;
      }
    }
  }
}
