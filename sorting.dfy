/**
 * Sorting of payloads, as the queue's iteration does it: the payloads of
 * the live tokens, sorted by their own order (ascending for a min-queue,
 * descending for a max-queue), not by priority.
 */
module Sorting {

  /** le is a total order: reflexive, antisymmetric, transitive and total. */
  ghost predicate TotalOrder<T(!new)>(le: (T, T) -> bool)
  {
    (forall a :: le(a, a)) &&
    (forall a, b :: le(a, b) && le(b, a) ==> a == b) &&
    (forall a, b, c :: le(a, b) && le(b, c) ==> le(a, c)) &&
    (forall a, b :: le(a, b) || le(b, a))
  }

  /** s is in ascending order under le. */
  ghost predicate Ascending<T>(s: seq<T>, le: (T, T) -> bool)
  {
    forall i, j :: 0 <= i < j < |s| ==> le(s[i], s[j])
  }

  /** s is in descending order under le. */
  ghost predicate Descending<T>(s: seq<T>, le: (T, T) -> bool)
  {
    forall i, j :: 0 <= i < j < |s| ==> le(s[j], s[i])
  }

  /** Putting in front of an ascending sequence an element below all of it keeps it ascending. */
  lemma AscendingCons<T>(x: T, s: seq<T>, le: (T, T) -> bool)
    requires Ascending(s, le)
    requires forall y :: y in s ==> le(x, y)
    ensures Ascending([x] + s, le)
  {
    var t := [x] + s;
    forall i, j | 0 <= i < j < |t|
      ensures le(t[i], t[j])
    {
      if i > 0 {
        assert t[i] == s[i - 1] && t[j] == s[j - 1];
      } else {
        assert t[j] in s;
      }
    }
  }

  /** Under a total order, whatever is below the head of an ascending sequence is below all of it. */
  lemma BelowHead<T(!new)>(x: T, s: seq<T>, le: (T, T) -> bool)
    requires TotalOrder(le) && Ascending(s, le)
    requires |s| > 0 && le(x, s[0])
    ensures forall y :: y in s ==> le(x, y)
  {
    forall y | y in s
      ensures le(x, y)
    {
      var k :| 0 <= k < |s| && s[k] == y;
      assert k == 0 || le(s[0], s[k]);
    }
  }

  /** Insert x into the ascending sequence s. */
  function Insert<T(!new)>(x: T, s: seq<T>, le: (T, T) -> bool): (r: seq<T>)
    requires TotalOrder(le) && Ascending(s, le)
    ensures Ascending(r, le)
    ensures multiset(r) == multiset(s) + multiset{x}
    ensures forall y :: y in r <==> y == x || y in s
  {
    if s == [] then [x]
    else if le(x, s[0]) then
      BelowHead(x, s, le);
      AscendingCons(x, s, le);
      [x] + s
    else
      var rest := Insert(x, s[1..], le);
      assert s == [s[0]] + s[1..];
      BelowHead(s[0], s, le);
      assert le(s[0], x);
      AscendingCons(s[0], rest, le);
      [s[0]] + rest
  }

  /** The ascending permutation of s (Python's `sorted`). */
  function Sort<T(!new)>(s: seq<T>, le: (T, T) -> bool): (r: seq<T>)
    requires TotalOrder(le)
    ensures Ascending(r, le)
    ensures multiset(r) == multiset(s)
  {
    if s == [] then []
    else
      assert s == [s[0]] + s[1..];
      Insert(s[0], Sort(s[1..], le), le)
  }

  /** s back to front. */
  function Reverse<T>(s: seq<T>): (r: seq<T>)
    ensures |r| == |s|
    ensures forall i :: 0 <= i < |s| ==> r[i] == s[|s| - 1 - i]
    ensures multiset(r) == multiset(s)
  {
    if s == [] then []
    else
      assert s == [s[0]] + s[1..];
      Reverse(s[1..]) + [s[0]]
  }

  /** Reversing an ascending sequence gives a descending one. */
  lemma ReverseDescending<T>(s: seq<T>, le: (T, T) -> bool)
    requires Ascending(s, le)
    ensures Descending(Reverse(s), le)
  {
    var r := Reverse(s);
    forall i, j | 0 <= i < j < |r|
      ensures le(r[j], r[i])
    {
      assert r[j] == s[|s| - 1 - j] && r[i] == s[|s| - 1 - i];
    }
  }

  /** Dropping the first element loses exactly that element. */
  lemma DropFirst<T>(s: seq<T>)
    requires |s| > 0
    ensures multiset(s[1..]) == multiset(s) - multiset{s[0]}
  {
    assert s == [s[0]] + s[1..];
  }

  /** Sequences that agree on the first element and on the rest are equal. */
  lemma SameHeadSameTail<T>(a: seq<T>, b: seq<T>)
    requires |a| > 0 && |b| > 0 && a[0] == b[0] && a[1..] == b[1..]
    ensures a == b
  {
    assert a == [a[0]] + a[1..] && b == [b[0]] + b[1..];
  }

  /**
   * Under a total order a sequence has only one ascending permutation, so
   * Sort agrees with any other sorting algorithm (Python's included).
   */
  lemma {:induction false} AscendingPermutationUnique<T(!new)>(a: seq<T>, b: seq<T>, le: (T, T) -> bool)
    requires TotalOrder(le)
    requires Ascending(a, le) && Ascending(b, le)
    requires multiset(a) == multiset(b)
    ensures a == b
    decreases |a|
  {
    if a != [] {
      assert |b| == |a| by {
        assert |multiset(a)| == |a| && |multiset(b)| == |b|;
      }
      assert a[0] in multiset(b);
      assert b[0] in multiset(a);
      var i :| 0 <= i < |b| && b[i] == a[0];
      var j :| 0 <= j < |a| && a[j] == b[0];
      assert le(b[0], a[0]) by { assert i == 0 || le(b[0], b[i]); }
      assert le(a[0], b[0]) by { assert j == 0 || le(a[0], a[j]); }
      assert a[0] == b[0];
      DropFirst(a);
      DropFirst(b);
      AscendingPermutationUnique(a[1..], b[1..], le);
      SameHeadSameTail(a, b);
    }
  }
}
