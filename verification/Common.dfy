/** What several modules share. */
module Common {
  datatype Option<T> = None | Some(value: T)

  function Reversed<T>(s: seq<T>): seq<T> {
    if s == [] then [] else [s[|s| - 1]] + Reversed(s[..|s| - 1])
  }

  lemma ReversedPush<T>(s: seq<T>, x: T)
    ensures Reversed(s + [x]) == [x] + Reversed(s)
  {
    assert (s + [x])[..|s|] == s;
  }

  lemma {:induction false} ReversedAt<T>(s: seq<T>, k: nat)
    requires k < |s|
    ensures |Reversed(s)| == |s| && Reversed(s)[|s| - 1 - k] == s[k]
    decreases |s|
  {
    if |s| > 1 {
      ReversedAt(s[..|s| - 1], if k < |s| - 1 then k else 0);
    }
  }

  lemma Regroup<T>(a: seq<T>, b: seq<T>, c: seq<T>)
    ensures a + (b + c) == a + b + c
  {
  }

  lemma AppendHead<T>(s: seq<T>, t: seq<T>)
    requires t != []
    ensures s + [t[0]] + t[1..] == s + t
  {
  }

  function Without<T>(s: seq<T>, k: nat): seq<T>
    requires k < |s|
  {
    s[..k] + s[k + 1..]
  }

  lemma PartOf<T>(a: seq<T>, b: seq<T>)
    requires multiset(a) <= multiset(b)
    ensures forall x :: x in a ==> x in b
  {
    forall x | x in a
      ensures x in b
    {
      assert multiset(a)[x] > 0 && multiset(b)[x] > 0;
    }
  }

  // ---------------------------------------------------------------- selections

  // `at` is every index whose flag is up, in order.
  ghost predicate Selects(flags: seq<bool>, at: seq<nat>) {
    && (forall k :: 0 <= k < |at| ==> at[k] < |flags| && flags[at[k]])
    && (forall j, k :: 0 <= j < k < |at| ==> at[j] < at[k])
    && (forall i :: 0 <= i < |flags| && flags[i] ==> i in at)
  }

  function Shifted(at: seq<nat>): (r: seq<nat>)
    ensures |r| == |at| && forall k :: 0 <= k < |at| ==> r[k] == at[k] + 1
  {
    if at == [] then [] else [at[0] + 1] + Shifted(at[1..])
  }

  function InFront(flag: bool, at: seq<nat>): seq<nat> {
    (if flag then [0] else []) + Shifted(at)
  }

  lemma InFrontAt(flag: bool, flags: seq<bool>, at: seq<nat>, k: nat)
    requires Selects(flags, at) && k < |InFront(flag, at)|
    ensures var i, n := InFront(flag, at)[k], if flag then 1 else 0;
      && (k >= n ==> i == at[k - n] + 1) && (k < n ==> i == 0)
      && i < |flags| + 1 && ([flag] + flags)[i]
  {
    var n := if flag then 1 else 0;
    if k >= n {
      assert InFront(flag, at)[k] == Shifted(at)[k - n] == at[k - n] + 1;
      assert at[k - n] < |flags| && flags[at[k - n]];
    }
  }

  lemma InFrontAscends(flag: bool, flags: seq<bool>, at: seq<nat>, j: nat, k: nat)
    requires Selects(flags, at) && j < k < |InFront(flag, at)|
    ensures InFront(flag, at)[j] < InFront(flag, at)[k]
  {
    InFrontAt(flag, flags, at, j);
    InFrontAt(flag, flags, at, k);
  }

  lemma SelectsInFront(flag: bool, flags: seq<bool>, at: seq<nat>)
    requires Selects(flags, at)
    ensures Selects([flag] + flags, InFront(flag, at))
  {
    var all, more := InFront(flag, at), [flag] + flags;
    forall k | 0 <= k < |all|
      ensures all[k] < |more| && more[all[k]]
    {
      InFrontAt(flag, flags, at, k);
    }
    forall j, k | 0 <= j < k < |all|
      ensures all[j] < all[k]
    {
      InFrontAscends(flag, flags, at, j, k);
    }
    forall i | 0 <= i < |more| && more[i]
      ensures i in all
    {
      if i > 0 {
        assert flags[i - 1];
      }
      InFrontHas(flag, flags, at, i);
    }
  }

  lemma InFrontHas(flag: bool, flags: seq<bool>, at: seq<nat>, i: nat)
    requires i < |flags| + 1 && ([flag] + flags)[i]
    requires i > 0 ==> i - 1 in at
    ensures i in InFront(flag, at)
  {
    if i > 0 {
      var k :| 0 <= k < |at| && at[k] == i - 1;
      assert Shifted(at)[k] == i;
    }
  }
}
