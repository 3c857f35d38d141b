/** Step 2 of `find_libraries`: which libraries are loaded, and in which order. */
module LoadOrder {

  type Lib = nat

  // ---------------------------------------------------------------------------------
  // The load list
  // ---------------------------------------------------------------------------------

  ghost predicate NoRepeats(s: seq<Lib>)
  {
    forall i, j :: 0 <= i < j < |s| ==> s[i] != s[j]
  }

  /** Every entry is there for a first occurrence, in the same order. */
  ghost predicate InOrder(list: seq<Lib>, tasks: seq<Lib>, at: seq<nat>)
  {
    && |at| == |list|
    && (forall i :: 0 <= i < |at| ==> at[i] < |tasks| && tasks[at[i]] == list[i] && list[i] !in tasks[..at[i]])
    && (forall i, j :: 0 <= i < j < |at| ==> at[i] < at[j])
  }

  /** The list holds each library of a task that is neither linked nor the executable, once, where it first occurs. */
  method LoadList(tasks: seq<Lib>, linked: set<Lib>, exe: set<Lib>) returns (list: seq<Lib>, ghost at: seq<nat>)
    ensures forall l :: l in list <==> l in tasks && l !in linked && l !in exe
    ensures NoRepeats(list) && InOrder(list, tasks, at)
  {
    list, at := [], [];
    for k := 0 to |tasks|
      invariant forall l :: l in list <==> l in tasks[..k] && l !in linked && l !in exe
      invariant NoRepeats(list) && InOrder(list, tasks, at) && forall i :: 0 <= i < |at| ==> at[i] < k
    {
      var si := tasks[k];
      assert tasks[..k + 1] == tasks[..k] + [si];
      if si !in linked && si !in exe && si !in list {
        list, at := list + [si], at + [k];
      }
    }
    assert tasks[..|tasks|] == tasks;
  }

  // ---------------------------------------------------------------------------------
  // Shuffling
  // ---------------------------------------------------------------------------------

  /** One random number below the number of elements that are left, for each step. */
  ghost predicate Choices(c: seq<nat>)
  {
    forall i :: 0 <= i < |c| ==> c[i] < |c| - i
  }

  function Swapped(s: seq<Lib>, a: nat, b: nat): (t: seq<Lib>)
    requires a < |s| && b < |s|
    ensures |t| == |s|
  {
    s[a := s[b]][b := s[a]]
  }

  /** The first choice decides which of the elements that are left becomes the last of them, and so on. */
  ghost function Shuffled(s: seq<Lib>, c: seq<nat>): (t: seq<Lib>)
    requires |c| <= |s| && Choices(c)
    ensures |t| == |s|
    decreases |c|
  {
    if c == [] then s else Shuffled(Swapped(s, |c| - 1, c[0]), c[1..])
  }

  /** The elements of `s` in another order. */
  ghost predicate Permutation(s: seq<Lib>, t: seq<Lib>)
  {
    |s| == |t| && (forall x :: x in s <==> x in t) && NoRepeats(s) && NoRepeats(t)
  }

  /** A permutation that leaves the elements from `n` on where they are. */
  ghost predicate Above(s: seq<Lib>, t: seq<Lib>, n: nat)
  {
    Permutation(s, t) && n <= |s| && forall i :: n <= i < |s| ==> s[i] == t[i]
  }

  lemma SwappedSame(s: seq<Lib>, a: nat, b: nat)
    requires a < |s| && b < |s|
    ensures forall x :: x in Swapped(s, a, b) <==> x in s
    ensures NoRepeats(s) ==> NoRepeats(Swapped(s, a, b))
  {
    var t := Swapped(s, a, b);
    forall x | x in s ensures x in t {
      var i :| 0 <= i < |s| && s[i] == x;
      assert t[if i == a then b else if i == b then a else i] == x;
    }
  }

  /** The element that has to become the last but is elsewhere is among those that are left. */
  lemma Wanted(s: seq<Lib>, t: seq<Lib>, n: nat, r: nat)
    requires Above(s, t, n) && 0 < n && r < |s| && s[r] == t[n - 1]
    ensures r < n && Above(Swapped(s, n - 1, r), t, n - 1)
  {
    assert r >= n ==> s[r] == t[r];
    SwappedSame(s, n - 1, r);
  }

  ghost function Index(s: seq<Lib>, x: Lib): (r: nat)
    requires x in s
    ensures r < |s| && s[r] == x
  {
    var r :| 0 <= r < |s| && s[r] == x;
    r
  }

  /** The choices that lead from `s` to `t`. */
  ghost function ChoicesFor(s: seq<Lib>, t: seq<Lib>, n: nat): (c: seq<nat>)
    requires Above(s, t, n)
    ensures |c| == n && Choices(c)
    decreases n
  {
    if n == 0 then []
    else
      var r := Index(s, t[n - 1]);
      Wanted(s, t, n, r);
      [r] + ChoicesFor(Swapped(s, n - 1, r), t, n - 1)
  }

  /** Every permutation is the result of some choices. */
  lemma {:induction false} EveryPermutation(s: seq<Lib>, t: seq<Lib>, n: nat)
    requires Above(s, t, n)
    ensures Shuffled(s, ChoicesFor(s, t, n)) == t
    decreases n
  {
    if n > 0 {
      var r := Index(s, t[n - 1]);
      Wanted(s, t, n, r);
      EveryPermutation(Swapped(s, n - 1, r), t, n - 1);
      FirstChoice(s, r, ChoicesFor(Swapped(s, n - 1, r), t, n - 1));
    }
  }

  lemma FirstChoice(s: seq<Lib>, r: nat, c: seq<nat>)
    requires |c| < |s| && r <= |c| && Choices(c)
    ensures Choices([r] + c) && Shuffled(s, [r] + c) == Shuffled(Swapped(s, |c|, r), c)
  {
    var more := [r] + c;
    assert more[0] == r && more[1..] == c;
  }

  /** Every result is a permutation that leaves alone what is not shuffled. */
  lemma {:induction false} ShuffledPermutation(s: seq<Lib>, c: seq<nat>)
    requires NoRepeats(s) && |c| <= |s| && Choices(c)
    ensures Above(s, Shuffled(s, c), |c|)
    decreases |c|
  {
    if c != [] {
      var next := Swapped(s, |c| - 1, c[0]);
      SwappedSame(s, |c| - 1, c[0]);
      ShuffledPermutation(next, c[1..]);
    }
  }

  /** Different choices have different results: from the result the choices can be told. */
  lemma {:induction false} ChoicesTold(s: seq<Lib>, c: seq<nat>)
    requires NoRepeats(s) && |c| <= |s| && Choices(c)
    ensures Above(s, Shuffled(s, c), |c|) && ChoicesFor(s, Shuffled(s, c), |c|) == c
    decreases |c|
  {
    ShuffledPermutation(s, c);
    if c != [] {
      var n, t := |c|, Shuffled(s, c);
      var next := Swapped(s, n - 1, c[0]);
      SwappedSame(s, n - 1, c[0]);
      ShuffledPermutation(next, c[1..]);
      assert t[n - 1] == next[n - 1] == s[c[0]];
      assert Index(s, t[n - 1]) == c[0];
      ChoicesTold(next, c[1..]);
    }
  }

  lemma SwappedMultiset(s: seq<Lib>, a: nat, b: nat)
    requires a < |s| && b < |s|
    ensures multiset(Swapped(s, a, b)) == multiset(s)
  {
  }

  /** Whatever the list and the choices, nothing is lost or made up. */
  lemma {:induction false} ShuffledMultiset(s: seq<Lib>, c: seq<nat>)
    requires |c| <= |s| && Choices(c)
    ensures multiset(Shuffled(s, c)) == multiset(s)
    decreases |c|
  {
    if c != [] {
      SwappedMultiset(s, |c| - 1, c[0]);
      ShuffledMultiset(Swapped(s, |c| - 1, c[0]), c[1..]);
    }
  }

  /** `shuffle`, in place. It does nothing while there are no random numbers yet. */
  method Shuffle(v: array<Lib>, ready: bool, random: seq<nat>)
    requires |random| == v.Length && Choices(random)
    modifies v
    ensures v[..] == if ready then Shuffled(old(v[..]), random) else old(v[..])
    ensures multiset(v[..]) == multiset(old(v[..]))
  {
    if !ready {
      return;
    }
    var size := v.Length;
    ghost var left := random;
    for i := 0 to size
      invariant left == random[i..] && Choices(left) && Shuffled(v[..], left) == Shuffled(old(v[..]), random)
    {
      var n := size - i;
      var r := random[i];
      assert left[0] == r && left[1..] == random[i + 1..];
      ghost var before := v[..];
      v[n - 1], v[r] := v[r], v[n - 1];
      assert v[..] == Swapped(before, n - 1, r);
      left := left[1..];
    }
    ShuffledMultiset(old(v[..]), random);
  }
}
