/** The size-bounded caches: write an entry, then delete the oldest until the bound holds again. */
module Cache {
  import opened Common

  datatype File = File(mtime: nat, data: string)
  datatype Entry = Entry(name: string, mtime: nat)
  const JSON := ".json"

  // What sweep_lru selects by: the end of the name.
  predicate EndsInJson(name: string) {
    |name| >= |JSON| && name[|name| - |JSON|..] == JSON
  }

  // What count_json_files and clear_json_files go by: `Path::extension`, which a bare `.json` does not have.
  predicate HasJsonExtension(name: string) {
    EndsInJson(name) && name != JSON
  }

  function JsonNames(files: map<string, File>): set<string> {
    set name | name in files && HasJsonExtension(name)
  }

  // By their names: whatever ends in `.json`, but for the count and the clearing not that alone.
  lemma JsonNamesAre(files: map<string, File>, name: string)
    requires name in files
    ensures name in JsonNames(files) <==> |name| > 5 && name[|name| - 5..] == ".json"
    ensures EndsInJson(name) <==> |name| >= 5 && name[|name| - 5..] == ".json"
  {
    assert |name| == 5 ==> name[|name| - 5..] == name;
  }

  predicate NoDuplicates(names: seq<string>) {
    forall i, j :: 0 <= i < j < |names| ==> names[i] != names[j]
  }

  // A directory listing: every name once, in any order.
  ghost predicate Listing(names: seq<string>, files: map<string, File>) {
    NoDuplicates(names) && forall name :: name in names <==> name in files
  }

  // Which files cannot be examined, and which cannot be deleted.
  datatype Faults = Faults(noStat: set<string>, noDelete: set<string>)

  const NO_FAULTS := Faults({}, {})

  // ---------------------------------------------------------------- sorting by age

  predicate Sorted(es: seq<Entry>) {
    forall i, j :: 0 <= i < j < |es| ==> es[i].mtime <= es[j].mtime
  }

  function Names(es: seq<Entry>): (r: seq<string>)
    ensures |r| == |es| && forall i :: 0 <= i < |es| ==> r[i] == es[i].name
  {
    if es == [] then [] else [es[0].name] + Names(es[1..])
  }

  // Before the first that is not older, which keeps the sort stable.
  function Insert(e: Entry, es: seq<Entry>): (r: seq<Entry>)
    ensures |r| == |es| + 1 && forall x :: x in r <==> x == e || x in es
  {
    if es == [] || e.mtime <= es[0].mtime then [e] + es else [es[0]] + Insert(e, es[1..])
  }

  function SortByMtime(es: seq<Entry>): (r: seq<Entry>)
    ensures |r| == |es| && forall x :: x in r <==> x in es
  {
    if es == [] then [] else Insert(es[0], SortByMtime(es[1..]))
  }

  predicate DistinctNames(es: seq<Entry>) {
    forall i, j :: 0 <= i < j < |es| ==> es[i].name != es[j].name
  }

  lemma {:induction false} InsertSorts(e: Entry, es: seq<Entry>)
    requires Sorted(es) && DistinctNames(es) && forall x :: x in es ==> x.name != e.name
    ensures Sorted(Insert(e, es)) && DistinctNames(Insert(e, es))
  {
    if es != [] && e.mtime > es[0].mtime {
      InsertSorts(e, es[1..]);
      var rest := Insert(e, es[1..]);
      forall j | 0 <= j < |rest| ensures es[0].mtime <= rest[j].mtime && es[0].name != rest[j].name {
        assert rest[j] in rest;
        assert es[0] in es;
      }
    }
  }

  lemma {:induction false} SortSorts(es: seq<Entry>)
    requires DistinctNames(es)
    ensures Sorted(SortByMtime(es)) && DistinctNames(SortByMtime(es))
  {
    if es != [] {
      SortSorts(es[1..]);
      InsertSorts(es[0], SortByMtime(es[1..]));
    }
  }

  // ---------------------------------------------------------------- the sweep

  // The entries with a readable age, in listing order.
  function WithMtime(names: seq<string>, files: map<string, File>, noStat: set<string>): (r: seq<Entry>)
    ensures |r| <= |names|
    ensures forall x :: x in r <==>
      x.name in names && x.name in files && EndsInJson(x.name) && x.name !in noStat && x.mtime == files[x.name].mtime
  {
    if names == [] then []
    else
      var rest := WithMtime(names[1..], files, noStat);
      if names[0] in files && EndsInJson(names[0]) && names[0] !in noStat
      then [Entry(names[0], files[names[0]].mtime)] + rest else rest
  }

  lemma {:induction false} WithMtimeIsDistinct(names: seq<string>, files: map<string, File>, noStat: set<string>)
    requires NoDuplicates(names)
    ensures DistinctNames(WithMtime(names, files, noStat))
  {
    if names != [] {
      WithMtimeIsDistinct(names[1..], files, noStat);
      var rest := WithMtime(names[1..], files, noStat);
      forall j | 0 <= j < |rest| ensures rest[j].name != names[0] {
        assert rest[j] in rest;
      }
    }
  }

  function NameSet(es: seq<Entry>): set<string> {
    set i | 0 <= i < |es| :: es[i].name
  }

  lemma {:induction false} DistinctNamesCount(es: seq<Entry>)
    requires DistinctNames(es)
    ensures |NameSet(es)| == |es|
  {
    if es != [] {
      var n := |es| - 1;
      DistinctNamesCount(es[..n]);
      assert NameSet(es) == NameSet(es[..n]) + {es[n].name};
    }
  }

  // Those a sweep may see: `.json` by name and not unreadable.
  function Visible(files: map<string, File>, noStat: set<string>): set<string> {
    set name | name in files && EndsInJson(name) && name !in noStat
  }

  // `victims` are the `excess` oldest of the visible entries.
  ghost predicate Oldest(files: map<string, File>, noStat: set<string>, victims: set<string>, excess: nat) {
    && victims <= Visible(files, noStat) && |victims| == excess
    && forall v, s :: v in victims && s in Visible(files, noStat) - victims ==> files[v].mtime <= files[s].mtime
  }

  class Dir {
    var files: map<string, File>

    constructor (files: map<string, File>)
      ensures this.files == files
    {
      this.files := files;
    }

    // Entry by entry. Each file with the extension is counted once, whatever the order of the listing.
    method CountJsonFiles(names: seq<string>) returns (n: nat)
      requires Listing(names, files)
      ensures n == |JsonNames(files)|
    {
      JsonAmongAll(names, files);
      n := CountListed(HasJsonExtension, names);
    }

    static method CountListed(hasExtension: string -> bool, names: seq<string>) returns (n: nat)
      requires NoDuplicates(names)
      ensures n == |Among(hasExtension, names)|
    {
      n := 0;
      var i := 0;
      AmongAll(hasExtension, names, map[]);
      while i < |names|
        invariant 0 <= i <= |names| && n == |Among(hasExtension, names[..i])|
      {
        AmongStep(hasExtension, names, i, map[]);
        if hasExtension(names[i]) {
          n := n + 1;
        }
        i := i + 1;
      }
    }

    // Deletes exactly the excess over `max` of the entries it can examine, oldest first, or none if the
    // count did not call for a sweep; what cannot be deleted stays, and nothing else changes.
    method SweepLru(max: nat, names: seq<string>, faults: Faults) returns (ghost victims: set<string>)
      requires Listing(names, files)
      modifies this
      ensures files == old(files) - (victims - faults.noDelete)
      ensures if |JsonNames(old(files))| <= max then victims == {}
              else Oldest(old(files), faults.noStat, victims, Excess(|Visible(old(files), faults.noStat)|, max))
    {
      victims := {};
      var count := CountJsonFiles(names);
      if count <= max {
        return;
      }
      var withMtime := SortByMtime(WithMtime(names, files, faults.noStat));
      WithMtimeIsDistinct(names, files, faults.noStat);
      SortSorts(WithMtime(names, files, faults.noStat));
      var excess := Excess(|withMtime|, max);
      VisibleAreThese(names, files, faults.noStat);
      OldestAreFirst(files, faults.noStat, withMtime, excess);
      DeleteFirst(withMtime, excess, faults.noDelete);
      victims := NameSet(withMtime[..excess]);
    }

    method DeleteFirst(withMtime: seq<Entry>, excess: nat, noDelete: set<string>)
      requires excess <= |withMtime|
      modifies this
      ensures files == old(files) - (NameSet(withMtime[..excess]) - noDelete)
    {
      var i := 0;
      while i < excess
        invariant i <= excess <= |withMtime|
        invariant files == old(files) - (NameSet(withMtime[..i]) - noDelete)
      {
        var name := withMtime[i].name;
        assert NameSet(withMtime[..i + 1]) == NameSet(withMtime[..i]) + {name};
        if name !in noDelete {
          files := files - {name};
        }
        i := i + 1;
      }
    }

    method WriteWithLru(key: string, value: File, max: nat, names: seq<string>, faults: Faults, writes: bool)
      requires Listing(names, if writes then files[key := value] else files)
      modifies this
      ensures var written := if writes then old(files)[key := value] else old(files);
        exists victims ::
          && files == written - (victims - faults.noDelete)
          && if |JsonNames(written)| <= max then victims == {}
             else Oldest(written, faults.noStat, victims, Excess(|Visible(written, faults.noStat)|, max))
    {
      if writes {
        files := files[key := value];
      }
      var _ := SweepLru(max, names, faults);
    }

    // Deletes every file with the extension and says how many, or stops at the first that will not go.
    method ClearJsonFiles(names: seq<string>, noDelete: set<string>) returns (cleared: Option<nat>)
      requires Listing(names, files)
      modifies this
      ensures cleared.Some? <==> JsonNames(old(files)) !! noDelete
      ensures cleared.Some? ==>
        files == old(files) - JsonNames(old(files)) && cleared.value == |JsonNames(old(files))|
      ensures LostOnly(old(files), files, JsonNames(old(files)))
    {
      JsonAmongAll(names, files);
      cleared := ClearListed(HasJsonExtension, names, noDelete);
    }

    method ClearListed(hasExtension: string -> bool, names: seq<string>, noDelete: set<string>)
      returns (cleared: Option<nat>)
      requires NoDuplicates(names)
      modifies this
      ensures cleared.Some? <==> Among(hasExtension, names) !! noDelete
      ensures cleared.Some? ==>
        files == old(files) - Among(hasExtension, names) && cleared.value == |Among(hasExtension, names)|
      ensures LostOnly(old(files), files, Among(hasExtension, names))
    {
      var n, i := 0, 0;
      AmongAll(hasExtension, names, files);
      while i < |names|
        invariant 0 <= i <= |names|
        invariant n == |Among(hasExtension, names[..i])| && Among(hasExtension, names[..i]) !! noDelete
        invariant files == old(files) - Among(hasExtension, names[..i])
      {
        var name := names[i];
        AmongStep(hasExtension, names, i, old(files));
        if hasExtension(name) {
          if name in noDelete {
            return None;
          }
          files, n := files - {name}, n + 1;
        }
        i := i + 1;
      }
      AmongAll(hasExtension, names, old(files));
      cleared := Some(n);
    }
  }

  function Among(hasExtension: string -> bool, names: seq<string>): set<string> {
    set name | name in names && hasExtension(name)
  }

  lemma AmongAll(hasExtension: string -> bool, names: seq<string>, files: map<string, File>)
    ensures Among(hasExtension, names[..0]) == {} && Among(hasExtension, names[..|names|]) == Among(hasExtension, names)
    ensures LostOnly(files, files - Among(hasExtension, names), Among(hasExtension, names))
  {
    assert names[..|names|] == names;
  }

  lemma JsonAmongAll(names: seq<string>, files: map<string, File>)
    requires Listing(names, files)
    ensures Among(HasJsonExtension, names) == JsonNames(files)
  {
  }

  lemma AmongStep(hasExtension: string -> bool, names: seq<string>, i: nat, files: map<string, File>)
    requires NoDuplicates(names) && i < |names|
    ensures var name, done, next := names[i], Among(hasExtension, names[..i]), Among(hasExtension, names[..i + 1]);
      if hasExtension(name) then
        next == done + {name} && |next| == |done| + 1 && name in Among(hasExtension, names)
          && files - done - {name} == files - next
      else next == done
    ensures LostOnly(files, files - Among(hasExtension, names[..i]), Among(hasExtension, names))
  {
    assert names[..i + 1] == names[..i] + [names[i]];
    assert names[i] !in names[..i];
  }

  // Some of `lost` may be gone; everything else is as it was.
  ghost predicate LostOnly(was: map<string, File>, now: map<string, File>, lost: set<string>) {
    now.Keys <= was.Keys && forall name :: name in was ==> if name in now then now[name] == was[name] else name in lost
  }

  function Excess(count: nat, max: nat): nat {
    if count > max then count - max else 0
  }

  lemma VisibleAreThese(names: seq<string>, files: map<string, File>, noStat: set<string>)
    requires Listing(names, files)
    ensures var es := SortByMtime(WithMtime(names, files, noStat));
      NameSet(es) == Visible(files, noStat) && |es| == |Visible(files, noStat)|
      && forall i :: 0 <= i < |es| ==> es[i].name in files && files[es[i].name].mtime == es[i].mtime
  {
    var raw := WithMtime(names, files, noStat);
    var es := SortByMtime(raw);
    WithMtimeIsDistinct(names, files, noStat);
    SortSorts(raw);
    forall i | 0 <= i < |es|
      ensures es[i].name in Visible(files, noStat) && files[es[i].name].mtime == es[i].mtime
    {
      assert es[i] in es;
    }
    forall name | name in Visible(files, noStat)
      ensures name in NameSet(es)
    {
      assert Entry(name, files[name].mtime) in raw;
    }
    DistinctNamesCount(es);
  }

  lemma OldestAreFirst(files: map<string, File>, noStat: set<string>, es: seq<Entry>, excess: nat)
    requires Sorted(es) && DistinctNames(es) && excess <= |es|
    requires NameSet(es) == Visible(files, noStat)
    requires forall i :: 0 <= i < |es| ==> es[i].name in files && files[es[i].name].mtime == es[i].mtime
    ensures Oldest(files, noStat, NameSet(es[..excess]), excess)
  {
    DistinctNamesCount(es[..excess]);
    assert NameSet(es[..excess]) <= NameSet(es);
    forall v, s | v in NameSet(es[..excess]) && s in Visible(files, noStat) - NameSet(es[..excess])
      ensures files[v].mtime <= files[s].mtime
    {
      var i :| 0 <= i < excess && es[..excess][i].name == v;
      var j :| 0 <= j < |es| && es[j].name == s;
      assert forall k :: 0 <= k < excess ==> es[..excess][k].name == es[k].name && es[k].name in NameSet(es[..excess]);
      assert j >= excess;
    }
  }

  // ---------------------------------------------------------------- what a sweep achieves

  // A sweep of a directory by someone who can examine and delete every entry, with victims as above.
  ghost predicate Swept(before: map<string, File>, max: nat, faults: Faults, victims: set<string>,
      after: map<string, File>)
  {
    && after == before - (victims - faults.noDelete)
    && if |JsonNames(before)| <= max then victims == {}
       else Oldest(before, faults.noStat, victims, Excess(|Visible(before, faults.noStat)|, max))
  }

  // Without failures, and with no file called just `.json`: at most `max` entries remain, exactly the
  // excess went, whatever went is no newer than whatever stayed, and nothing else was touched.
  lemma SweepBoundsTheCache(before: map<string, File>, max: nat, victims: set<string>, after: map<string, File>)
    requires JSON !in before && Swept(before, max, NO_FAULTS, victims, after)
    ensures |JsonNames(after)| == if |JsonNames(before)| > max then max else |JsonNames(before)|
    ensures |victims| == Excess(|JsonNames(before)|, max) && victims <= JsonNames(before)
    ensures forall v, s :: v in victims && s in JsonNames(after) ==> before[v].mtime <= after[s].mtime
    ensures forall name :: name in before && name !in victims ==> name in after && after[name] == before[name]
    ensures after.Keys <= before.Keys
  {
    assert Visible(before, {}) == JsonNames(before);
    assert victims - {} == victims;
    assert JsonNames(after) == JsonNames(before) - victims;
  }

  lemma CountApart(all: set<string>, part: set<string>)
    requires part <= all
    ensures |all - part| == |all| - |part|
  {
  }

  lemma CountLeft(all: set<string>, victims: set<string>, kept: set<string>)
    requires victims <= all
    ensures |all - (victims - kept)| == |all| - |victims| + |victims * kept|
  {
    CountApart(all, victims - kept);
    CountApart(victims, victims * kept);
    assert victims - kept == victims - victims * kept;
  }

  lemma VisibleAfter(files: map<string, File>, noStat: set<string>, gone: set<string>)
    ensures Visible(files - gone, noStat) == Visible(files, noStat) - gone
  {
  }

  // The entries a sweep selects by name but cannot examine.
  function Unreadable(files: map<string, File>, noStat: set<string>): set<string> {
    Visible(files, {}) - Visible(files, noStat)
  }

  // How many entries are left, whatever failed: without a sweep all, and after one those that could not be
  // examined, up to `max` of the others, and the victims that would not go.
  lemma SweepCount(before: map<string, File>, max: nat, faults: Faults, victims: set<string>, after: map<string, File>)
    requires Swept(before, max, faults, victims, after)
    ensures var visible := |Visible(before, faults.noStat)|;
      |Visible(after, {})| ==
        if |JsonNames(before)| <= max then |Visible(before, {})|
        else
          |Unreadable(before, faults.noStat)| + (if visible > max then max else visible) + |victims * faults.noDelete|
  {
    VisibleAfter(before, {}, victims - faults.noDelete);
    if |JsonNames(before)| > max {
      SomeAreVisible(before, faults.noStat);
      CountLeft(Visible(before, {}), victims, faults.noDelete);
    }
  }

  lemma SomeAreVisible(files: map<string, File>, noStat: set<string>)
    ensures Visible(files, noStat) <= Visible(files, {})
    ensures |Visible(files, {})| == |Unreadable(files, noStat)| + |Visible(files, noStat)|
  {
    CountApart(Visible(files, {}), Visible(files, noStat));
  }

  lemma NamesBesideTheBareOne(files: map<string, File>)
    ensures Visible(files, {}) == JsonNames(files) + if JSON in files then {JSON} else {}
    ensures |Visible(files, {})| == |JsonNames(files)| + if JSON in files then 1 else 0
  {
    assert Visible(files, {}) == JsonNames(files) + if JSON in files then {JSON} else {};
  }

  // The bound holds after a sweep exactly when: with no sweep called for, the bare name, which the count
  // passes over, does not make one too many; and otherwise every entry could be examined and every victim
  // deleted.
  lemma BoundHoldsExactlyWhen(before: map<string, File>, max: nat, faults: Faults, victims: set<string>,
                              after: map<string, File>)
    requires Swept(before, max, faults, victims, after)
    ensures |Visible(after, {})| <= max <==>
      if |JsonNames(before)| <= max then !(JSON in before && |JsonNames(before)| == max)
      else Unreadable(before, faults.noStat) == {} && victims * faults.noDelete == {}
  {
    SweepCount(before, max, faults, victims, after);
    NamesBesideTheBareOne(before);
    SomeAreVisible(before, faults.noStat);
  }

  // Without failures only the bare name can break the bound, and in a directory that is exactly full.
  lemma BareJsonEscapesTheCount(before: map<string, File>, max: nat, victims: set<string>, after: map<string, File>)
    requires Swept(before, max, NO_FAULTS, victims, after)
    ensures |Visible(after, {})| <= max <==> !(JSON in before && |JsonNames(before)| == max)
    ensures |Visible(after, {})| <= max + 1
  {
    SweepCount(before, max, NO_FAULTS, victims, after);
    NamesBesideTheBareOne(before);
    assert Unreadable(before, {}) == {} && victims * {} == {};
  }

  // Such a directory: one file in a cache of one, and the bare name.
  lemma OneTooMany()
    ensures var files := map[JSON := File(0, ""), "a.json" := File(1, "")];
      Swept(files, 1, NO_FAULTS, {}, files) && |Visible(files, {})| == 2
  {
    var files := map[JSON := File(0, ""), "a.json" := File(1, "")];
    assert EndsInJson("a.json") by {
      assert "a.json"[1..] == JSON;
    }
    assert "a.json" != JSON;
    assert JsonNames(files) == {"a.json"};
    NamesBesideTheBareOne(files);
    var nobody: set<string> := {};
    assert files - (nobody - nobody) == files;
  }

  // One bounded write: its key, value, victims.
  datatype Write = Write(key: string, value: File, victims: set<string>)

  ghost predicate IsRun(before: map<string, File>, max: nat, writes: seq<Write>, states: seq<map<string, File>>) {
    && |states| == |writes| + 1 && states[0] == before
    && forall i :: 0 <= i < |writes| ==>
         && writes[i].key != JSON
         && Swept(states[i][writes[i].key := writes[i].value], max, NO_FAULTS, writes[i].victims, states[i + 1])
  }

  // Every run of bounded writes leaves at most `max` entries after each write, from any directory.
  lemma {:induction false} RunOfWritesStaysBounded(before: map<string, File>, max: nat, writes: seq<Write>,
                                                   states: seq<map<string, File>>, i: nat)
    requires JSON !in before && IsRun(before, max, writes, states) && i <= |writes|
    ensures JSON !in states[i] && (i > 0 ==> |JsonNames(states[i])| <= max)
    ensures forall name :: name in before && !EndsInJson(name) && (forall k :: 0 <= k < i ==> writes[k].key != name) ==>
      name in states[i] && states[i][name] == before[name]
    decreases i
  {
    if i > 0 {
      RunOfWritesStaysBounded(before, max, writes, states, i - 1);
      var written := states[i - 1][writes[i - 1].key := writes[i - 1].value];
      SweepBoundsTheCache(written, max, writes[i - 1].victims, states[i]);
    }
  }

  // The entry just written survives its own sweep when it is strictly the newest and there is room for one.
  lemma NewestSurvives(before: map<string, File>, max: nat, victims: set<string>, after: map<string, File>, key: string)
    requires JSON !in before && Swept(before, max, NO_FAULTS, victims, after) && max >= 1
    requires key in JsonNames(before)
    requires forall name :: name in JsonNames(before) && name != key ==> before[name].mtime < before[key].mtime
    ensures key in after
  {
    SweepBoundsTheCache(before, max, victims, after);
    assert |JsonNames(before)| > 0;
    var s :| s in JsonNames(after);
    assert s in before && s !in victims;
  }
}
