/** The command log: append, and rename to `.old` once the file has grown past the limit.

    A file is the list of what was appended to it, each an entry or the part of one that a failed write
    left. One process writes; any file operation may fail. */
module CommandLog {
  import opened Common

  const MAX_LOG_SIZE := 1_048_576

  function Size(file: seq<string>): nat {
    if file == [] then 0 else |file[0]| + Size(file[1..])
  }

  lemma {:induction false} SizeConcat(a: seq<string>, b: seq<string>)
    ensures Size(a + b) == Size(a) + Size(b)
  {
    if a == [] {
      assert a + b == b;
    } else {
      assert (a + b)[1..] == a[1..] + b;
      SizeConcat(a[1..], b);
    }
  }

  predicate IsSuffix(s: seq<string>, whole: seq<string>) {
    |s| <= |whole| && whole[|whole| - |s|..] == s
  }

  lemma SuffixGrows(s: seq<string>, whole: seq<string>, tail: seq<string>)
    requires IsSuffix(s, whole)
    ensures IsSuffix(s + tail, whole + tail)
  {
  }

  lemma SuffixIsTransitive(a: seq<string>, b: seq<string>, c: seq<string>)
    requires IsSuffix(a, b) && IsSuffix(b, c)
    ensures IsSuffix(a, c)
  {
    assert c[|c| - |b|..][|b| - |a|..] == c[|c| - |a|..];
  }

  lemma SuffixLosesFront(a: seq<string>, b: seq<string>, whole: seq<string>)
    requires IsSuffix(a + b, whole)
    ensures IsSuffix(b, whole)
  {
    assert (a + b)[|a|..] == b;
    SuffixIsTransitive(b, a + b, whole);
  }

  // Which operations of one write go through, and how many bytes of the entry reach the file.
  datatype Faults = Faults(opens: bool, stats: bool, renames: bool, reopens: bool, written: nat)

  function NoFaults(entry: string): Faults {
    Faults(true, true, true, true, |entry|)
  }

  datatype Files = Files(rotated: seq<string>, current: seq<string>)

  // One write with no failure.
  function Written(f: Files, entry: string): Files {
    if Size(f.current) > MAX_LOG_SIZE then Files(f.current, [entry]) else f.(current := f.current + [entry])
  }

  class Log {
    var isOpen: bool                 // the handle, which is always on the current file
    var rotated: seq<string>
    var current: seq<string>
    ghost var history: seq<string>   // all that was ever appended

    ghost predicate Valid()
      reads this
    {
      IsSuffix(rotated + current, history)
    }

    function Contents(): Files
      reads this
    {
      Files(rotated, current)
    }

    // Whatever is on disk when the process starts.
    constructor (rotated: seq<string>, current: seq<string>)
      ensures Valid() && Contents() == Files(rotated, current) && !isOpen
    {
      this.isOpen, this.rotated, this.current := false, rotated, current;
      this.history := rotated + current;
    }

    method Rotate()
      requires Valid()
      modifies this`rotated, this`current
      ensures Valid() && rotated == old(current) && current == []
    {
      SuffixLosesFront(rotated, current, history);
      assert current + [] == current;
      rotated, current := current, [];
    }

    method Append(buf: string)
      requires Valid()
      modifies this`current, this`history
      ensures Valid() && current == old(current) + [buf] && history == old(history) + [buf]
      ensures Size(current) == Size(old(current)) + |buf|
    {
      SizeConcat(current, [buf]);
      SuffixGrows(rotated + current, history, [buf]);
      assert (rotated + current) + [buf] == rotated + (current + [buf]);
      current := current + [buf];
      history := history + [buf];
    }

    // Under any failures the two files stay a contiguous tail of the history; without any, the entry is
    // last, the file it went to is at most the limit plus this entry, and nothing else was lost but the
    // file that a rotation replaced.
    method Write(entry: string, faults: Faults)
      requires Valid()
      modifies this
      ensures Valid()
      ensures history == old(history) ||
              (history == old(history) + [if faults.written < |entry| then entry[..faults.written] else entry]
               && current != [] && current[|current| - 1] == history[|history| - 1])
      // Only a file that cannot be opened loses an entry.
      ensures faults.opens && faults.reopens ==> history != old(history)
      ensures !old(isOpen) && !faults.opens ==> history == old(history) && Contents() == old(Contents())
      ensures faults == NoFaults(entry) ==>
        Contents() == Written(old(Contents()), entry) && history == old(history) + [entry]
      ensures faults.stats && faults.renames && history != old(history) ==> Size(current) <= MAX_LOG_SIZE + |entry|
      ensures rotated == old(rotated) || (rotated == old(current) && Size(rotated) > MAX_LOG_SIZE)
    {
      if !isOpen {
        isOpen := faults.opens;
      }
      if !isOpen {
        return;
      }
      if faults.stats && Size(current) > MAX_LOG_SIZE {
        if faults.renames {
          Rotate();
        }
        isOpen := faults.reopens;
      }
      if !isOpen {
        return;
      }
      Append(if faults.written < |entry| then entry[..faults.written] else entry);
    }
  }

  // ---------------------------------------------------------------- whole runs

  function Run(f: Files, entries: seq<string>): Files
    decreases |entries|
  {
    if entries == [] then f else Run(Written(f, entries[0]), entries[1..])
  }

  predicate Bounded(file: seq<string>, entryMax: nat) {
    Size(file) <= MAX_LOG_SIZE + entryMax
  }

  lemma WrittenIsBounded(f: Files, entry: string, entryMax: nat)
    requires |entry| <= entryMax
    ensures Bounded(Written(f, entry).current, entryMax)
    ensures Written(f, entry).current[|Written(f, entry).current| - 1] == entry
    ensures Written(f, entry).rotated == f.rotated || Written(f, entry).rotated == f.current
    ensures IsSuffix(Written(f, entry).rotated + Written(f, entry).current, f.rotated + f.current + [entry])
  {
    SizeConcat(f.current, [entry]);
    assert f.rotated + (f.current + [entry]) == f.rotated + f.current + [entry];
  }

  lemma {:induction false} RunKeepsASuffix(f: Files, entries: seq<string>)
    ensures IsSuffix(Run(f, entries).rotated + Run(f, entries).current, f.rotated + f.current + entries)
    decreases |entries|
  {
    var all := f.rotated + f.current;
    if entries == [] {
      assert all + entries == all;
    } else {
      var h, g := Written(f, entries[0]), Run(f, entries);
      WrittenIsBounded(f, entries[0], |entries[0]|);
      RunKeepsASuffix(h, entries[1..]);
      SuffixGrows(h.rotated + h.current, all + [entries[0]], entries[1..]);
      AppendHead(all, entries);
      SuffixIsTransitive(g.rotated + g.current, h.rotated + h.current + entries[1..], all + entries);
    }
  }

  lemma {:induction false} RunKeepsBounds(f: Files, entries: seq<string>, entryMax: nat)
    requires forall i :: 0 <= i < |entries| ==> |entries[i]| <= entryMax
    ensures var g := Run(f, entries);
      && (entries != [] ==> g.current != [] && g.current[|g.current| - 1] == entries[|entries| - 1])
      && (entries != [] ==> Bounded(g.current, entryMax))
      && (Bounded(g.rotated, entryMax) || g.rotated == f.rotated || g.rotated == f.current)
    decreases |entries|
  {
    if entries != [] {
      WrittenIsBounded(f, entries[0], entryMax);
      RunKeepsBounds(Written(f, entries[0]), entries[1..], entryMax);
    }
  }

  // Nothing is rotated, and so nothing lost, before the file has grown past the limit; the next write then rotates.
  lemma {:induction false} RotatesOnlyPastTheLimit(f: Files, entries: seq<string>, next: string)
    ensures Size(f.current) + Size(entries) <= 1_048_576 ==> Run(f, entries) == Files(f.rotated, f.current + entries)
    ensures Size(f.current) > 1_048_576 ==> Written(f, next) == Files(f.current, [next])
    ensures Size([next]) == |next|
    decreases |entries|
  {
    assert [next][1..] == [] && Size([]) == 0;
    if entries == [] {
      assert f.current + [] == f.current;
    } else {
      SizeConcat(f.current, [entries[0]]);
      AppendHead(f.current, entries);
      assert [entries[0]][1..] == [];
      RotatesOnlyPastTheLimit(Written(f, entries[0]), entries[1..], next);
    }
  }

  // After any run of writes the rotated file followed by the current one is a contiguous tail of all that
  // was there and all that was written, ending in the last entry. Each file the run wrote to is at most
  // the limit plus one entry; a rotated file can be larger only if the run found it as it is.
  lemma RunKeepsATail(f: Files, entries: seq<string>, entryMax: nat)
    requires forall i :: 0 <= i < |entries| ==> |entries[i]| <= entryMax
    ensures var g := Run(f, entries);
      && IsSuffix(g.rotated + g.current, f.rotated + f.current + entries)
      && (entries != [] ==> g.current != [] && g.current[|g.current| - 1] == entries[|entries| - 1])
      && (entries != [] ==> Bounded(g.current, entryMax))
      && (Bounded(g.rotated, entryMax) || g.rotated == f.rotated || g.rotated == f.current)
  {
    RunKeepsASuffix(f, entries);
    RunKeepsBounds(f, entries, entryMax);
  }

  // Storage stays bounded: from files within the bound, both stay within it whatever is written.
  lemma StorageIsBounded(f: Files, entries: seq<string>, entryMax: nat)
    requires forall i :: 0 <= i < |entries| ==> |entries[i]| <= entryMax
    requires Bounded(f.rotated, entryMax) && Bounded(f.current, entryMax)
    ensures Size(Run(f, entries).rotated) + Size(Run(f, entries).current) <= 2 * (MAX_LOG_SIZE + entryMax)
  {
    RunKeepsATail(f, entries, entryMax);
  }
}
