/**
 * The few operations of Rust's `Vec` and iterators that the room code relies on:
 * `sort_unstable` / `sort_unstable_by_key`, `dedup` and `Iterator::position`.
 * Only what those library calls promise is stated; the sort below is one
 * particular sort meeting that promise (sorted and a permutation).
 */
module Sequences {
  import opened Common

  /** `s` is in ascending order of `key` (what `sort_unstable_by_key(key)` leaves). */
  ghost predicate SortedBy<T>(s: seq<T>, key: T -> int) {
    forall i, j :: 0 <= i < j < |s| ==> key(s[i]) <= key(s[j])
  }

  /** Inserts `x` into `s` before the first element whose key is not smaller. */
  function InsertBy<T>(x: T, s: seq<T>, key: T -> int): (r: seq<T>)
    ensures multiset(r) == multiset(s) + multiset{x}
    ensures |r| == |s| + 1
  {
    if s == [] then [x]
    else if key(x) <= key(s[0]) then [x] + s
    else
      assert s == [s[0]] + s[1..];
      [s[0]] + InsertBy(x, s[1..], key)
  }

  /** Inserting into a sorted sequence keeps it sorted. */
  lemma {:induction false} InsertBySorted<T>(x: T, s: seq<T>, key: T -> int)
    requires SortedBy(s, key)
    ensures SortedBy(InsertBy(x, s, key), key)
  {
    if s != [] && key(x) > key(s[0]) {
      var tail := InsertBy(x, s[1..], key);
      InsertBySorted(x, s[1..], key);
      forall i | 0 <= i < |tail|
        ensures key(s[0]) <= key(tail[i])
      {
        assert tail[i] in multiset(tail);
        if tail[i] != x {
          assert tail[i] in multiset(s[1..]);
          var k :| 0 <= k < |s[1..]| && s[1..][k] == tail[i];
          assert s[k + 1] == tail[i];
        }
      }
    }
  }

  /** Sorts `s` by ascending `key`; equal keys end up in some order. */
  function SortBy<T>(s: seq<T>, key: T -> int): (r: seq<T>)
    ensures SortedBy(r, key)
    ensures multiset(r) == multiset(s)
    ensures |r| == |s|
  {
    if s == [] then []
    else
      assert s == [s[0]] + s[1..];
      InsertBySorted(s[0], SortBy(s[1..], key), key);
      InsertBy(s[0], SortBy(s[1..], key), key)
  }

  /** Removes consecutive repeated elements, keeping the first of each run (`Vec::dedup`). */
  function Dedup<T(==)>(s: seq<T>): (r: seq<T>)
    ensures forall i :: 0 <= i < |r| ==> r[i] in s
    ensures forall i :: 0 <= i < |s| ==> s[i] in r
    ensures forall i :: 0 <= i < |r| - 1 ==> r[i] != r[i + 1]
    ensures |r| <= |s|
    ensures |s| > 0 ==> |r| > 0 && r[0] == s[0]
  {
    if |s| <= 1 then s
    else if s[0] == s[1] then Dedup(s[1..])
    else
      assert forall i :: 1 <= i < |s| ==> s[i] == s[1..][i - 1];
      [s[0]] + Dedup(s[1..])
  }

  /**
   * `dedup` works left to right: an element equal to the one before it is
   * dropped, any other element is kept, in order. With `Dedup([]) == []`
   * this determines the result for every input.
   */
  lemma {:induction false} DedupSnoc<T>(s: seq<T>, x: T)
    ensures Dedup(s + [x]) == Dedup(s) + (if s != [] && s[|s| - 1] == x then [] else [x])
  {
    if |s| >= 2 {
      assert (s + [x])[1..] == s[1..] + [x];
      DedupSnoc(s[1..], x);
    } else if |s| == 1 {
      assert (s + [x])[1..] == [x];
    }
  }

  /** `dedup` keeps a sorted sequence sorted. */
  lemma {:induction false} DedupSorted<T>(s: seq<T>, key: T -> int)
    requires SortedBy(s, key)
    ensures SortedBy(Dedup(s), key)
  {
    if |s| > 1 {
      DedupSorted(s[1..], key);
      if s[0] != s[1] {
        var rest := Dedup(s[1..]);
        KeysAbove(s[1..], rest, key(s[0]), key);
        ConsSorted(s[0], rest, key);
      }
    }
  }

  /** Elements drawn from a sequence whose keys are all at least `b` have keys at least `b`. */
  lemma KeysAbove<T>(s: seq<T>, r: seq<T>, b: int, key: T -> int)
    requires forall i :: 0 <= i < |s| ==> b <= key(s[i])
    requires forall i :: 0 <= i < |r| ==> r[i] in s
    ensures forall i :: 0 <= i < |r| ==> b <= key(r[i])
  {
    forall i | 0 <= i < |r|
      ensures b <= key(r[i])
    {
      var k :| 0 <= k < |s| && s[k] == r[i];
    }
  }

  /** Putting an element no larger than any of a sorted sequence in front keeps it sorted. */
  lemma ConsSorted<T>(x: T, s: seq<T>, key: T -> int)
    requires SortedBy(s, key)
    requires forall i :: 0 <= i < |s| ==> key(x) <= key(s[i])
    ensures SortedBy([x] + s, key)
  {
    var r := [x] + s;
    forall i, j | 0 <= i < j < |r|
      ensures key(r[i]) <= key(r[j])
    {
      assert r[j] == s[j - 1];
      if i > 0 {
        assert r[i] == s[i - 1];
      }
    }
  }

  /** The index of the first element equal to `x`, if any (`iter().position(|&v| v == x)`). */
  function Position<T(==)>(s: seq<T>, x: T): (r: Option<nat>)
    ensures r.Some? ==> r.value < |s| && s[r.value] == x
    ensures r.Some? ==> forall j :: 0 <= j < r.value ==> s[j] != x
    ensures r.None? <==> x !in s
  {
    if s == [] then None
    else if s[0] == x then Some(0)
    else
      assert s == [s[0]] + s[1..];
      match Position(s[1..], x)
      case None => None
      case Some(i) => Some(i + 1)
  }
}
