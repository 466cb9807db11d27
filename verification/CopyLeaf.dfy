/** Copying one file or symlink while other processes delete or replace the source, or create the
    destination, between any two system calls. */
module CopyLeaf {
  datatype Entry =
    | Absent
    | File(bytes: string, mode: nat)
    | Link(target: string)
    | Directory
  {
    function Size(): nat {
      match this
      case File(bytes, _) => |bytes|
      case Link(target) => |target|
      case _ => 0
    }
  }

  datatype ErrorKind = NotFound | AlreadyExists | PermissionDenied | Other

  datatype Io<T> = Good(value: T) | Bad(kind: ErrorKind)

  datatype DataCopy = Reflinked | Written | Neither

  datatype Outcome = Copied(bytes: nat, data: DataCopy) | Skipped | Failed

  // The library's success: nothing when the clone itself succeeded, otherwise the bytes copied in its place.
  datatype Fallback = Cloned | ByteCopied(bytes: nat)

  // How the library's byte copy, which replaces what it finds, has opened the destination: not at all, as a
  // new file, or over an entry that was there, made by another process during the call or not.
  datatype Opening = Unopened | Fresh | Over(was: Entry, theirs: bool)

  // A link in the destination's place is written through and stays.
  predicate Through(opening: Opening) {
    opening.Over? && opening.was.Link?
  }

  // The call that ended the copy and what it answered: the check of the root, the look, the stat, the removal,
  // reading the link, making it, the copy of the data, setting the mode, or none of them. `removed`: the copy
  // had removed something before.
  datatype Stop =
    | NotAllowed
    | Present
    | AtStat(kind: ErrorKind)
    | AtRemoval(kind: ErrorKind)
    | AtReadLink(kind: ErrorKind, removed: bool)
    | AtSymlink(kind: ErrorKind)
    | AtData(kind: ErrorKind, removed: bool)
    | AtMode
    | Nowhere

  // What the source held when its metadata was read.
  datatype Meta = Meta(isSymlink: bool, len: nat, mode: nat)

  // Something held at the source during the call accounts for what `dest` now is. A link that takes a
  // file's place is followed.
  ghost predicate CameFrom(dest: Entry, seen: set<Entry>) {
    match dest
    case File(bytes, _) => exists s :: s in seen && (s.Link? || (s.File? && s.bytes == bytes))
    case Link(_) => dest in seen
    case _ => false
  }

  // A copy of something the source held that may have stopped on the way.
  ghost predicate PartOf(dest: Entry, seen: set<Entry>) {
    dest.File? && exists s :: s in seen && (s.Link? || (s.File? && dest.bytes <= s.bytes))
  }

  // What a byte copy that has opened the destination leaves there.
  ghost predicate Taken(opening: Opening, dest: Entry, theirs: Entry, seen: set<Entry>, whole: bool) {
    if Through(opening) then dest == opening.was
    else dest.File? && theirs == Absent && PartOf(dest, seen) && (whole ==> CameFrom(dest, seen))
  }

  // What it may have opened, given the destination before it: a free name, what was there already, or what
  // another process has put there since.
  ghost predicate MayOpen(alone: bool, wasDest: Entry, wasTheirs: Entry, opening: Opening) {
    match opening
    case Unopened => true
    case Fresh => wasDest == Absent
    case Over(was, theirs) =>
      && was != Absent && was != Directory
      && (if wasDest == Absent then theirs && !alone else was == wasDest && theirs == (wasTheirs != Absent))
  }

  lemma MoreSeen(dest: Entry, seen: set<Entry>, more: set<Entry>)
    requires seen <= more
    ensures CameFrom(dest, seen) ==> CameFrom(dest, more)
    ensures PartOf(dest, seen) ==> PartOf(dest, more)
  {
  }

  lemma SameContent(a: Entry, b: Entry, seen: set<Entry>)
    requires if a.File? && b.File? then a.bytes == b.bytes else a == b
    ensures CameFrom(a, seen) ==> CameFrom(b, seen)
    ensures PartOf(a, seen) ==> PartOf(b, seen)
  {
  }

  // What only other processes have done to the destination: it is as it was, or was free and is theirs.
  ghost predicate Advanced(wasDest: Entry, wasTheirs: Entry, dest: Entry, theirs: Entry) {
    || (dest == wasDest && theirs == wasTheirs)
    || (wasDest == Absent && dest == theirs)
  }

  // What a copy does when nobody else acts and nothing fails by itself.
  ghost predicate Ideal(src: Entry, was: Entry, force: bool, r: Outcome, dest: Entry) {
    if was != Absent && !force then r == Skipped && dest == was
    else if src == Absent then r == Skipped && dest == was
    else if was == Directory then r == Failed && dest == was
    else if src == Directory then r == Failed && dest == Absent
    else r.Copied? && r.bytes == src.Size() && dest == src && (src.Link? <==> r.data == Neither)
  }

  class World {
    // Nobody else acts.
    const calm: bool
    // No operation fails without a cause in this state.
    const reliable: bool

    var src: Entry
    var dest: Entry
    // Temporary files left beside the destination.
    var temps: nat

    // All that has been at the source since the call began.
    ghost var seen: set<Entry>
    // What another process has put at the destination since it was last free, if anything.
    ghost var theirs: Entry
    // How the library's byte copy has opened the destination.
    ghost var opening: Opening
    // Whether the last copy of a file shares the source's extents.
    ghost var shares: bool

    ghost predicate Valid()
      reads this
    {
      src in seen && (theirs != Absent ==> dest == theirs)
    }

    // Between two steps of the copy.
    method Interfere()
      requires Valid()
      modifies `src, `dest, `seen, `theirs
      ensures Valid() && old(seen) <= seen
      ensures if old(dest) == Absent then theirs == dest || (dest == Absent && theirs == old(theirs))
        else dest == old(dest) && theirs == old(theirs)
      ensures calm ==> src == old(src) && dest == old(dest) && seen == old(seen) && theirs == old(theirs)
    {
      var act: bool := *;
      if act && !calm {
        var replace, create: bool := *, *;
        if replace {
          src := *;
          seen := seen + {src};
        }
        if create && dest == Absent {
          dest := *;
          theirs := dest;
        }
      }
    }

    // Whether an operation fails for a reason of its own. Only an occupied name is reported as existing.
    method Fault() returns (fault: bool, kind: ErrorKind)
      ensures reliable ==> !fault
      ensures kind != AlreadyExists
    {
      fault, kind := *, *;
      fault := fault && !reliable;
      kind := if kind == AlreadyExists then Other else kind;
    }

    // ---------------------------------------------------------------- system calls

    method LookUpDest() returns (present: bool)
      ensures present ==> dest != Absent
      ensures reliable ==> present == (dest != Absent)
    {
      var fault, _ := Fault();
      present := dest != Absent && !fault;
    }

    method StatSource() returns (r: Io<Meta>)
      ensures r.Good? ==> src != Absent && r.value.isSymlink == src.Link? && r.value.len == src.Size()
      ensures r.Good? && src.File? ==> r.value.mode == src.mode
      ensures r == Bad(NotFound) && reliable ==> src == Absent
      ensures reliable && src != Absent ==> r.Good?
      ensures src == Absent ==> r.Bad? && (reliable ==> r == Bad(NotFound))
    {
      var fault, kind := Fault();
      if fault {
        return Bad(kind);
      }
      match src
      case Absent => r := Bad(NotFound);
      case File(bytes, mode) => r := Good(Meta(false, |bytes|, mode));
      case Link(target) => r := Good(Meta(true, |target|, 0));
      case Directory => r := Good(Meta(false, 0, 0));
    }

    method ReadLink() returns (r: Io<string>)
      ensures r.Good? ==> src == Link(r.value)
      ensures reliable && src.Link? ==> r.Good?
      ensures src == Absent ==> r.Bad? && (reliable ==> r == Bad(NotFound))
      ensures r == Bad(NotFound) && reliable ==> src == Absent
      ensures r != Bad(AlreadyExists)
    {
      var fault, kind := Fault();
      r := if fault then Bad(kind) else if src.Link? then Good(src.target)
           else if src == Absent then Bad(NotFound) else Bad(Other);
    }

    // Refuses an occupied name.
    method Symlink(target: string) returns (r: Io<()>)
      requires Valid()
      modifies `dest
      ensures Valid()
      ensures r.Good? ==> old(dest) == Absent && dest == Link(target)
      ensures r.Bad? ==> dest == old(dest)
      ensures reliable ==> r == if old(dest) == Absent then Good(()) else Bad(AlreadyExists)
    {
      var fault, kind := Fault();
      if fault {
        r := Bad(kind);
      } else if dest != Absent {
        r := Bad(AlreadyExists);
      } else {
        dest := Link(target);
        r := Good(());
      }
    }

    method RemoveDest() returns (r: Io<()>)
      requires Valid()
      modifies `dest, `theirs
      ensures Valid()
      ensures r.Good? ==> old(dest) != Absent && dest == Absent && theirs == Absent
      ensures r.Bad? ==> dest == old(dest) && theirs == old(theirs)
      ensures reliable ==>
        r == if old(dest) == Absent then Bad(NotFound) else if old(dest) == Directory then Bad(Other) else Good(())
    {
      var fault, kind := Fault();
      if fault {
        r := Bad(kind);
      } else if dest == Absent {
        r := Bad(NotFound);
      } else if dest == Directory {
        r := Bad(Other);
      } else {
        dest, theirs := Absent, Absent;
        r := Good(());
      }
    }

    // Opening the source and reading it through. A link in its place is followed to some other file.
    method ReadSource() returns (r: Io<string>)
      ensures r != Bad(AlreadyExists)
      ensures r.Good? ==> src.Link? || (src.File? && src.bytes == r.value)
      ensures reliable && src.File? ==> r.Good?
      ensures src == Directory ==> r.Bad? && (reliable ==> r == Bad(Other))
      ensures src == Absent ==> r.Bad? && (reliable ==> r == Bad(NotFound))
    {
      var fault, kind := Fault();
      if fault {
        return Bad(kind);
      }
      match src
      case Absent => r := Bad(NotFound);
      case File(bytes, _) => r := Good(bytes);
      case Link(_) =>
        var content: string := *;
        var readable: bool := *;
        r := if readable then Good(content) else Bad(if kind == AlreadyExists then Other else kind);
      case Directory => r := Bad(Other);
    }

    // The library's clone: it opens the source, makes the destination where nothing is, and takes it away
    // again when the file system will not share the extents. Some file systems say so as if it were a matter
    // of permission.
    method Clone() returns (r: Io<()>)
      requires Valid()
      modifies `dest, `shares
      ensures Valid()
      ensures r.Good? ==> old(dest) == Absent && dest.File? && CameFrom(dest, seen) && shares
      ensures r.Good? && src.File? ==> dest.bytes == src.bytes
      ensures r.Bad? ==> dest == old(dest)
      ensures r == Bad(AlreadyExists) ==> dest != Absent
      ensures reliable && src == Absent ==> r == Bad(NotFound)
      ensures reliable && (src.File? || src == Directory) && old(dest) != Absent ==> r == Bad(AlreadyExists)
      ensures reliable && src.File? && dest == Absent ==> r.Good? || r.kind in {PermissionDenied, Other}
      ensures src == Directory ==> r.Bad? && (reliable && dest == Absent ==> r.kind in {PermissionDenied, Other})
    {
      var supported, rejected: bool := *, *;
      var content: Io<string>;
      if src == Directory {
        // It can be opened, and not cloned.
        supported, content := false, Good("");
      } else {
        content := ReadSource();
      }
      if content.Bad? {
        return Bad(content.kind);
      }
      if dest != Absent {
        return Bad(AlreadyExists);
      }
      var fault, kind := Fault();
      if fault {
        return Bad(kind);
      }
      if !supported {
        return Bad(if rejected then PermissionDenied else Other);
      }
      var mode: nat := *;
      dest, shares := File(content.value, mode), true;
      r := Good(());
    }

    // The library's byte copy: it opens the destination whatever is there, emptying a file and following a
    // link, and leaves what it has written when it fails.
    method LibraryCopy() returns (r: Io<nat>)
      requires Valid() && opening.Unopened?
      modifies `src, `dest, `seen, `theirs, `shares, `opening
      ensures Valid() && old(seen) <= seen && (r.Good? ==> !shares)
      ensures MayOpen(calm, old(dest), old(theirs), opening)
      ensures opening.Unopened? ==> r.Bad? && Advanced(old(dest), old(theirs), dest, theirs)
      ensures !opening.Unopened? ==> Taken(opening, dest, theirs, seen, r.Good?)
      ensures r.Good? && dest.File? ==> |dest.bytes| == r.value
      ensures r == Bad(NotFound) ==> opening.Unopened?
      ensures r != Bad(AlreadyExists)
      ensures calm ==> src == old(src)
      ensures calm && reliable && src.File? && old(dest) == Absent ==> r.Good? && dest.File? && dest.bytes == src.bytes
      ensures src == Directory && calm ==> r.Bad? && dest == old(dest) && (reliable ==> r == Bad(Other))
    {
      var content := ReadSource();
      if content.Bad? {
        return Bad(content.kind);
      }
      ghost var from := src;
      Interfere();
      assert from in seen;
      var fault, kind := Fault();
      if fault {
        return Bad(kind);
      }
      if dest == Directory {
        return Bad(Other);
      }
      // Another's entry may refuse to be opened, or, once opened, to be written or given the source's mode.
      var refused, disowned: bool := *, *;
      var occupied := dest != Absent;
      if occupied && refused {
        var reason: ErrorKind := *;
        return Bad(if reason == AlreadyExists then Other else reason);
      }
      opening := if dest == Absent then Fresh else Over(dest, theirs != Absent);
      fault, kind := Fault();
      var written: nat, mode: nat := *, *;
      var failed := fault || (occupied && disowned);
      written := if failed && written < |content.value| then written else |content.value|;
      if !dest.Link? {
        dest, theirs := File(content.value[..written], mode), Absent;
      }
      if failed {
        return Bad(if kind == NotFound then Other else kind);
      }
      assert content.value[..written] == content.value;
      shares := false;
      r := Good(|content.value|);
    }

    // The library's call: what the clone reports, unless that is a failure it takes for want of support.
    method ReflinkOrCopy() returns (r: Io<Fallback>)
      requires Valid() && opening.Unopened?
      modifies `src, `dest, `seen, `theirs, `shares, `opening
      ensures Valid() && old(seen) <= seen
      ensures MayOpen(calm, old(dest), old(theirs), opening)
      ensures r.Good? ==> (shares <==> r.value.Cloned?) && (r.value.Cloned? <==> opening.Unopened?)
      ensures r.Good? && opening.Unopened? ==>
        old(dest) == Absent && theirs == Absent && dest.File? && CameFrom(dest, seen)
      ensures !opening.Unopened? ==> Taken(opening, dest, theirs, seen, r.Good?)
      ensures r.Bad? && opening.Unopened? ==> Advanced(old(dest), old(theirs), dest, theirs)
      ensures r == Bad(NotFound) ==> opening.Unopened?
      ensures r == Bad(AlreadyExists) ==> opening.Unopened? && dest != Absent
      ensures reliable && old(src) == Absent ==> r == Bad(NotFound)
      ensures reliable && (old(src).File? || old(src) == Directory) && old(dest) != Absent ==> r == Bad(AlreadyExists)
      ensures calm ==> src == old(src)
      ensures calm && reliable && src.File? && old(dest) == Absent ==>
        if r.Good? then dest.File? && dest.bytes == src.bytes else r == Bad(PermissionDenied) && dest == Absent
      ensures calm && reliable && src == Directory && old(dest) == Absent ==>
        r.Bad? && r.kind in {PermissionDenied, Other} && dest == Absent
    {
      var cloned := Clone();
      if cloned.Good? {
        return Good(Cloned);
      }
      if cloned.kind != Other {
        return Bad(cloned.kind);
      }
      Interfere();
      var copied := LibraryCopy();
      r := match copied case Good(n) => Good(ByteCopied(n)) case Bad(kind) => Bad(kind);
    }

    // The destination is the copy just made, or a link it was made through.
    method SetDestMode(mode: nat) returns (ok: bool)
      requires Valid() && (dest.File? ==> theirs == Absent)
      modifies `dest
      ensures Valid() && (if dest.File? then old(dest).File? && dest.bytes == old(dest).bytes else dest == old(dest))
      ensures reliable && dest.File? ==> ok
      ensures ok && dest.File? ==> dest.mode == mode
    {
      var fault, _ := Fault();
      var disowned: bool := *;
      ok := !fault && (dest.File? || !disowned);
      if ok && dest.File? {
        dest := dest.(mode := mode);
      }
    }

    // ---------------------------------------------------------------- the byte copy

    method DiscardTemp(kind: ErrorKind) returns (r: ErrorKind)
      requires temps > 0
      modifies `temps
      ensures (r == kind && temps == old(temps) - 1) || (r == Other && temps == old(temps) && !reliable)
    {
      var fault, _ := Fault();
      if fault {
        r := Other;
      } else {
        temps := temps - 1;
        r := kind;
      }
    }

    // Bytes go to a file of another name, which takes the destination's name if that is still free.
    method CopyToNewFile() returns (r: Io<nat>)
      requires Valid()
      modifies `src, `dest, `temps, `seen, `theirs, `shares
      ensures Valid() && old(seen) <= seen && (r.Good? ==> !shares)
      ensures r.Bad? ==> Advanced(old(dest), old(theirs), dest, theirs)
      ensures r.Good? ==> old(dest) == Absent && theirs == Absent
      ensures r.Good? ==> dest.File? && CameFrom(dest, seen) && |dest.bytes| == r.value
      ensures temps == old(temps) || (temps == old(temps) + 1 && r == Bad(Other) && !reliable)
      ensures r == Bad(AlreadyExists) ==> dest != Absent
      ensures calm ==> src == old(src) && (r.Bad? ==> dest == old(dest))
      ensures calm && reliable && src.File? && old(dest) == Absent ==>
        r.Good? && dest.bytes == src.bytes
      ensures calm && reliable && src == Directory ==> r == Bad(Other)
    {
      var content := ReadSource();
      if content.Bad? {
        return Bad(content.kind);
      }
      ghost var from := src;
      var mode: nat := if src.File? then src.mode else 0;
      Interfere();
      var fault, kind := Fault();
      if fault {
        // The metadata of the open file, or the temporary file, could not be had.
        return Bad(kind);
      }
      temps := temps + 1;
      fault, kind := Fault();
      if fault {
        kind := DiscardTemp(kind);
        return Bad(kind);
      }
      Interfere();
      if dest != Absent {
        kind := DiscardTemp(AlreadyExists);
        return Bad(kind);
      }
      dest, shares := File(content.value, mode), false;
      assert from in seen;
      temps := temps - 1;
      r := Good(|content.value|);
    }


    // ---------------------------------------------------------------- the copy

    method CopySymlink(meta: Meta, destRemoved: bool) returns (r: Outcome, ghost stop: Stop)
      requires Valid()
      modifies `src, `dest, `seen, `theirs
      ensures Valid() && old(seen) <= seen
      ensures r.Copied? ==> old(dest) == Absent && theirs == Absent && CameFrom(dest, seen) && dest.Link?
      ensures r.Copied? ==> r == Copied(meta.len, Neither)
      ensures !r.Copied? ==> Advanced(old(dest), old(theirs), dest, theirs)
      // Only a link that has vanished is skipped, where nothing was removed.
      ensures r.Skipped? <==> stop == AtReadLink(NotFound, false)
      ensures r.Copied? <==> stop == Nowhere
      ensures stop.AtReadLink? || stop.AtSymlink? || stop.Nowhere?
      ensures stop.AtReadLink? ==> stop.removed == destRemoved && stop.kind != AlreadyExists
      ensures reliable && old(src) == Absent ==> stop == AtReadLink(NotFound, destRemoved)
      ensures reliable && old(src).Link? && old(dest) != Absent ==> stop == AtSymlink(AlreadyExists)
      ensures stop.AtReadLink? && stop.kind == NotFound && reliable ==> Absent in seen
      ensures calm ==> src == old(src)
      ensures calm && reliable && src.Link? && old(dest) == Absent ==> dest == src && r == Copied(meta.len, Neither)
    {
      var target := ReadLink();
      if target.Bad? {
        r := if target.kind == NotFound && !destRemoved then Skipped else Failed;
        return r, AtReadLink(target.kind, destRemoved);
      }
      ghost var link := src;
      Interfere();
      var created := Symlink(target.value);
      assert link in seen;
      r := if created.Good? then Copied(meta.len, Neither) else Failed;
      stop := match created case Good(_) => Nowhere case Bad(kind) => AtSymlink(kind);
    }

    // The clone or the library's byte copy, and a byte copy to a new file where either was not permitted.
    method CopyData() returns (r: Io<Fallback>)
      requires Valid() && opening.Unopened?
      modifies `src, `dest, `temps, `seen, `theirs, `shares, `opening
      ensures Valid() && old(seen) <= seen
      ensures MayOpen(calm, old(dest), old(theirs), opening)
      ensures r.Good? ==> (shares <==> r.value.Cloned?)
      ensures r.Good? && !opening.Unopened? ==> r.value.ByteCopied?
      ensures r.Good? && opening.Unopened? ==>
        old(dest) == Absent && theirs == Absent && dest.File? && CameFrom(dest, seen)
      ensures !opening.Unopened? ==> Taken(opening, dest, theirs, seen, r.Good?)
      ensures r.Bad? && opening.Unopened? ==> Advanced(old(dest), old(theirs), dest, theirs)
      ensures r == Bad(AlreadyExists) ==> dest != Absent
      ensures reliable && old(src) == Absent ==> r == Bad(NotFound)
      ensures reliable && (old(src).File? || old(src) == Directory) && old(dest) != Absent ==> r == Bad(AlreadyExists)
      ensures temps == old(temps) || (temps == old(temps) + 1 && r == Bad(Other) && !reliable)
      ensures calm ==> src == old(src)
      ensures calm && reliable && src.File? && old(dest) == Absent ==> r.Good? && dest.File? && dest.bytes == src.bytes
      ensures calm && reliable && src == Directory && old(dest) == Absent ==> r == Bad(Other) && dest == Absent
    {
      r := ReflinkOrCopy();
      if r == Bad(PermissionDenied) {
        ghost var taken, was := dest, seen;
        Interfere();
        var written := CopyToNewFile();
        MoreSeen(taken, was, seen);
        r := match written case Good(n) => Good(ByteCopied(n)) case Bad(kind) => Bad(kind);
      }
    }

    method CopyFile(meta: Meta, destRemoved: bool) returns (r: Outcome, ghost stop: Stop)
      requires Valid() && opening.Unopened?
      modifies `src, `dest, `temps, `seen, `theirs, `shares, `opening
      ensures Valid() && old(seen) <= seen
      ensures MayOpen(calm, old(dest), old(theirs), opening)
      ensures r.Copied? && opening.Unopened? ==>
        old(dest) == Absent && theirs == Absent && dest.File? && CameFrom(dest, seen)
      ensures !opening.Unopened? ==> Taken(opening, dest, theirs, seen, r.Copied?)
      ensures r.Copied? ==> r.bytes == meta.len && r.data == if shares then Reflinked else Written
      ensures r.Copied? && shares ==> opening.Unopened?
      ensures opening.Unopened? && r.Skipped? ==> Advanced(old(dest), old(theirs), dest, theirs)
      ensures opening.Unopened? && r.Failed? ==>
        || Advanced(old(dest), old(theirs), dest, theirs)
        || (old(dest) == Absent && theirs == Absent && CameFrom(dest, seen))
      ensures r.Skipped? ==> dest != Absent || !destRemoved
      // A destination that is there by then is skipped, and so is a source that has vanished, where nothing was
      // removed. Any other failure is one.
      ensures r.Skipped? <==> stop.AtData? && (stop.kind == AlreadyExists || (stop.kind == NotFound && !destRemoved))
      ensures r.Copied? <==> stop == Nowhere
      ensures stop.AtData? || stop.AtMode? || stop.Nowhere?
      ensures stop.AtData? ==> stop.removed == destRemoved && (stop.kind == AlreadyExists ==> dest != Absent)
      ensures reliable && (old(src).File? || old(src) == Directory) && old(dest) != Absent ==> r.Skipped?
      ensures reliable && old(src) == Absent ==> r == if destRemoved then Failed else Skipped
      ensures temps == old(temps) || (temps == old(temps) + 1 && r.Failed? && !reliable)
      ensures calm ==> src == old(src)
      ensures calm && reliable && src.File? && old(dest) == Absent ==>
        dest == src.(mode := meta.mode) && r.Copied? && r.bytes == meta.len && r.data != Neither
      ensures calm && reliable && src == Directory && old(dest) == Absent ==> r == Failed && dest == Absent
    {
      var copied := CopyData();
      if copied.Bad? {
        r := if copied.kind == AlreadyExists || (copied.kind == NotFound && !destRemoved) then Skipped else Failed;
        return r, AtData(copied.kind, destRemoved);
      }
      ghost var made, was := dest, seen;
      Interfere();
      MoreSeen(made, was, seen);
      var ok := SetDestMode(meta.mode);
      SameContent(made, dest, seen);
      r := if !ok then Failed else Copied(meta.len, if copied.value.Cloned? then Reflinked else Written);
      stop := if ok then Nowhere else AtMode;
    }

    // Up to the copy itself: the look, the stat and the removal, in which the copy may be `over`.
    method Approach(force: bool) returns (over: bool, r: Outcome, ghost stop: Stop, meta: Meta, destRemoved: bool)
      requires Valid() && opening.Unopened?
      modifies `src, `dest, `seen, `theirs
      ensures Valid() && old(seen) <= seen
      ensures over ==> !r.Copied? && (stop == Present || stop.AtStat? || stop.AtRemoval?)
      ensures over ==> (r.Skipped? <==> stop == Present || stop == AtStat(NotFound))
      ensures over && stop == Present ==> !force && dest != Absent
      ensures over && stop.AtRemoval? ==> force && stop.kind != NotFound
      ensures reliable && !force && old(dest) != Absent ==> over && stop == Present
      ensures reliable && over && stop == AtStat(NotFound) ==> Absent in seen
      ensures over || !destRemoved ==> Advanced(old(dest), old(theirs), dest, theirs)
      ensures destRemoved ==> !over && force && (dest == Absent || dest == theirs)
      ensures !over && reliable ==> dest == Absent || dest == theirs
      ensures !over ==> exists s :: s in seen && s != Absent && s.Size() == meta.len
      ensures calm ==> src == old(src) && (theirs == old(theirs) || theirs == Absent)
      ensures calm && reliable ==>
        if (old(dest) != Absent && !force) || src == Absent then over && r == Skipped && dest == old(dest)
        else if old(dest) == Directory then over && r == Failed && dest == old(dest)
        else !over && dest == Absent && meta.isSymlink == src.Link? && meta.len == src.Size()
             && (src.File? ==> meta.mode == src.mode)
    {
      over, r, meta, destRemoved := true, Skipped, Meta(false, 0, 0), false;
      if !force {
        var present := LookUpDest();
        if present {
          stop := Present;
          return;
        }
        Interfere();
      }
      var stat := StatSource();
      if stat.Bad? {
        r := if stat.kind == NotFound then Skipped else Failed;
        stop := AtStat(stat.kind);
        return;
      }
      meta := stat.value;
      ghost var source := src;
      Interfere();
      assert source in seen && source.Size() == meta.len;
      if force {
        var removed := RemoveDest();
        if removed.Bad? && removed.kind != NotFound {
          r, stop := Failed, AtRemoval(removed.kind);
          return;
        }
        destRemoved := removed.Good?;
        Interfere();
      }
      over, stop := false, Nowhere;
    }

    // `allowed` says that no root was given, or that the parent resolves within it.
    method CopyLeaf(allowed: bool, force: bool) returns (r: Outcome, ghost stop: Stop)
      modifies `src, `dest, `temps, `seen, `theirs, `shares, `opening
      ensures Valid() && old(src) in seen
      // How it ends follows from the call that ended it and its answer, whatever others do: it is skipped where
      // the destination was seen, or appeared before its data was copied, and where the source had vanished before
      // anything was removed; and it fails at any other failure.
      ensures r.Copied? <==> stop == Nowhere
      ensures r.Skipped? <==>
        || stop == Present || stop == AtStat(NotFound) || stop == AtReadLink(NotFound, false)
        || stop == AtData(NotFound, false) || (stop.AtData? && stop.kind == AlreadyExists)
      ensures stop == NotAllowed <==> !allowed
      ensures (stop == Present ==> !force && dest != Absent) && (stop.AtRemoval? ==> force && stop.kind != NotFound)
      ensures (stop.AtReadLink? || stop.AtData?) && stop.removed ==> force
      ensures stop.AtData? && stop.kind == AlreadyExists ==> dest != Absent
      ensures reliable && !force && old(dest) != Absent && allowed ==> stop == Present
      ensures reliable && (stop == AtStat(NotFound) || (stop.AtReadLink? && stop.kind == NotFound)) ==> Absent in seen
      // A skip leaves no hole, and a hole is never silent.
      ensures r.Skipped? && old(dest) != Absent ==> dest != Absent
      ensures old(dest) != Absent && dest == Absent ==> force && r.Failed?
      // Without `force` nothing that is there is altered, unless looking for it and cloning over it both failed.
      ensures !force && old(dest) != Absent && (reliable || opening.Unopened?) ==> dest == old(dest) && !r.Copied?
      // A clone, a symlink and a copy to a new file are of something the source held, over nothing that another
      // process made.
      ensures r.Copied? && opening.Unopened? ==> CameFrom(dest, seen) && theirs == Absent
      // So is the library's byte copy, but it may have been made over what another process put at a free name,
      // or through a link put there. It may be partial, unless it is reported as made.
      ensures !opening.Unopened? ==> Taken(opening, dest, theirs, seen, r.Copied?)
      ensures opening.Over? && reliable ==> opening.theirs
      ensures opening.Over? && opening.theirs ==> !calm
      // Nothing else is ever at the destination.
      ensures opening.Unopened? ==> dest in {old(dest), Absent, theirs} || CameFrom(dest, seen)
      // The size reported is that of something the source held, and the kind is how the copy was made.
      ensures r.Copied? ==> exists s :: s in seen && s != Absent && s.Size() == r.bytes
      ensures r.Copied? && opening.Unopened? ==>
        r.data == if dest.Link? then Neither else if shares then Reflinked else Written
      ensures r.Copied? && !opening.Unopened? ==> r.data == Written
      ensures !allowed ==> r.Failed? && dest == old(dest) && opening.Unopened?
      // The only temporary file left behind is one whose removal failed, and that is reported.
      ensures temps == old(temps) || (temps == old(temps) + 1 && r.Failed? && !reliable)
      // With nothing in the way: the destination becomes the source.
      ensures calm && reliable && allowed ==> src == old(src) && Ideal(old(src), old(dest), force, r, dest)
    {
      seen, theirs, opening := {src}, Absent, Unopened;
      if !allowed {
        return Failed, NotAllowed;
      }
      Interfere();
      var over, meta, destRemoved;
      over, r, stop, meta, destRemoved := Approach(force);
      if over {
        return;
      }
      if meta.isSymlink {
        r, stop := CopySymlink(meta, destRemoved);
      } else {
        r, stop := CopyFile(meta, destRemoved);
      }
    }
  }
}
