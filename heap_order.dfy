/**
 * The array layout and ordering theory of the binary heap behind the
 * priority queue, stated over the sequence of priorities held in its
 * slots. One engine serves both orientations: `isMax` picks whether a
 * smaller (min-queue) or a larger (max-queue) priority is better.
 *
 * The sift operations of the queue are proved correct by the step lemmas
 * at the end of this module: each says that one swap of a sift keeps the
 * "heap order except around one slot" invariant, and that stopping is
 * only possible once heap order holds everywhere.
 */
module HeapOrder {

  // ---------------------------------------------------------------------------
  // Index arithmetic of the implicit binary tree

  /** Slot of the parent of slot j (only asked for non-root slots). */
  function Parent(j: nat): (p: nat)
    requires j > 0
    ensures p < j
    ensures j == 2 * p + 1 || j == 2 * p + 2
  {
    (j - 1) / 2
  }

  /** Slot of the left child of slot j. */
  function Left(j: nat): (c: nat)
    ensures c > j && Parent(c) == j
  {
    2 * j + 1
  }

  /** Slot of the right child of slot j, just after the left one. */
  function Right(j: nat): (c: nat)
    ensures c == Left(j) + 1 && Parent(c) == j
  {
    2 * j + 2
  }

  // ---------------------------------------------------------------------------
  // Orientation

  /** Priority a is strictly better than b: smaller in a min-queue, larger in a max-queue. */
  predicate Better(isMax: bool, a: int, b: int)
  {
    if isMax then a > b else a < b
  }

  /** Priority a may sit above b in the heap: b is not better than a. */
  predicate Ordered(isMax: bool, a: int, b: int)
  {
    !Better(isMax, b, a)
  }

  /** The priority in slot p may sit above the one in slot c (vacuous outside the slots). */
  predicate Above(vs: seq<int>, isMax: bool, p: nat, c: nat)
  {
    p < |vs| && c < |vs| ==> Ordered(isMax, vs[p], vs[c])
  }

  /** The edge from slot k to its parent is in heap order (vacuous for the root). */
  predicate Edge(vs: seq<int>, isMax: bool, k: nat)
  {
    0 < k < |vs| ==> Ordered(isMax, vs[Parent(k)], vs[k])
  }

  // ---------------------------------------------------------------------------
  // Heap order and its weakenings
  //
  // The quantifiers below fire only on Edge and Above terms, so that a
  // caller holding these facts is not flooded with instances it never uses.

  /** Every slot whose parent is at slot lo or beyond is ordered below its parent. */
  ghost predicate HeapFrom(vs: seq<int>, isMax: bool, lo: nat)
  {
    forall k {:trigger Edge(vs, isMax, k)} :: 0 < k < |vs| && Parent(k) >= lo ==> Edge(vs, isMax, k)
  }

  /** Heap order: every non-root slot is ordered below its parent. */
  ghost predicate IsHeap(vs: seq<int>, isMax: bool)
  {
    HeapFrom(vs, isMax, 0)
  }

  /**
   * The check the test-suite runs on a queue: every slot is ordered above
   * its left and its right child, where they exist.
   */
  ghost predicate ChildrenChecked(vs: seq<int>, isMax: bool)
  {
    forall i {:trigger Left(i)} :: 0 <= i < |vs| ==> Above(vs, isMax, i, Left(i)) && Above(vs, isMax, i, Right(i))
  }

  /**
   * Ready for a fix at slot i: heap order holds on every edge that does
   * not touch slot i, and the parent of i is ordered above i's children
   * (so whichever way the priority at i moves, the edges it leaves are sound).
   */
  ghost predicate SiftUpReady(vs: seq<int>, isMax: bool, i: nat)
  {
    i < |vs| &&
    (forall k {:trigger Edge(vs, isMax, k)} :: 0 < k < |vs| && k != i && Parent(k) != i ==> Edge(vs, isMax, k)) &&
    (i > 0 ==> Above(vs, isMax, Parent(i), Left(i)) && Above(vs, isMax, Parent(i), Right(i)))
  }

  /**
   * Ready for a downward sift at slot i within the sub-heaps rooted at lo
   * and beyond: every edge from a parent at lo or beyond holds except the
   * edges from i to its children, and i's parent (when it is counted) is
   * ordered above i's children.
   */
  ghost predicate SiftDownReady(vs: seq<int>, isMax: bool, i: nat, lo: nat)
  {
    lo <= i &&
    (forall k {:trigger Edge(vs, isMax, k)} :: 0 < k < |vs| && Parent(k) >= lo && Parent(k) != i ==> Edge(vs, isMax, k)) &&
    (i > 0 && Parent(i) >= lo ==> Above(vs, isMax, Parent(i), Left(i)) && Above(vs, isMax, Parent(i), Right(i)))
  }

  /** The upward sift at slot i swaps: i is not the root and is better than its parent. */
  predicate SiftsUp(vs: seq<int>, isMax: bool, i: nat)
  {
    0 < i < |vs| && Better(isMax, vs[i], vs[Parent(i)])
  }

  /** The downward sift at slot i swaps: some child of i is better than it. */
  predicate SiftsDown(vs: seq<int>, isMax: bool, i: nat)
  {
    i < |vs| &&
    ((Left(i) < |vs| && Better(isMax, vs[Left(i)], vs[i])) ||
     (Right(i) < |vs| && Better(isMax, vs[Right(i)], vs[i])))
  }

  /** Exchange the elements at slots i and j. */
  function Swapped<A>(s: seq<A>, i: nat, j: nat): (r: seq<A>)
    requires i < |s| && j < |s|
    ensures |r| == |s| && r[i] == s[j] && r[j] == s[i]
    ensures forall k :: 0 <= k < |s| && k != i && k != j ==> r[k] == s[k]
  {
    s[i := s[j]][j := s[i]]
  }

  // ---------------------------------------------------------------------------
  // Lemmas

  /** Exchanging two slots keeps the same elements. */
  lemma SwappedPermutes<A>(s: seq<A>, i: nat, j: nat)
    requires i < |s| && j < |s|
    ensures multiset(Swapped(s, i, j)) == multiset(s)
  {
    var t := s[i := s[j]];
    assert multiset(t) == multiset(s) - multiset{s[i]} + multiset{s[j]};
    assert Swapped(s, i, j) == t[j := s[i]];
  }

  /** Dropping the last slot loses exactly its element. */
  lemma DropLast<A>(s: seq<A>)
    requires |s| > 0
    ensures multiset(s[..|s| - 1]) == multiset(s) - multiset{s[|s| - 1]}
  {
    assert s == s[..|s| - 1] + [s[|s| - 1]];
  }

  /** The parent-based heap order is the child-based check of the test-suite. */
  lemma {:induction false} HeapIffChildrenChecked(vs: seq<int>, isMax: bool)
    ensures IsHeap(vs, isMax) <==> ChildrenChecked(vs, isMax)
  {
    if IsHeap(vs, isMax) {
      forall i | 0 <= i < |vs|
        ensures Above(vs, isMax, i, Left(i)) && Above(vs, isMax, i, Right(i))
      {
        assert Edge(vs, isMax, Left(i)) && Edge(vs, isMax, Right(i));
      }
    }
    if ChildrenChecked(vs, isMax) {
      forall k | 0 < k < |vs| && Parent(k) >= 0
        ensures Edge(vs, isMax, k)
      {
        var p := Parent(k);
        assert Above(vs, isMax, p, Left(p)) && Above(vs, isMax, p, Right(p));
      }
    }
  }

  /** Ordered is transitive in either orientation. */
  lemma OrderedTransitive(isMax: bool, a: int, b: int, c: int)
    requires Ordered(isMax, a, b) && Ordered(isMax, b, c)
    ensures Ordered(isMax, a, c)
  {
  }

  /** The root of a heap holds an extremal priority: it is ordered above every slot. */
  lemma {:induction false} RootIsExtremal(vs: seq<int>, isMax: bool, k: nat)
    requires IsHeap(vs, isMax) && k < |vs|
    ensures Ordered(isMax, vs[0], vs[k])
    decreases k
  {
    if k > 0 {
      assert Edge(vs, isMax, k);
      RootIsExtremal(vs, isMax, Parent(k));
    }
  }

  /** The single-slot form of RootIsExtremal, for every slot at once. */
  lemma RootIsExtremalAll(vs: seq<int>, isMax: bool)
    requires IsHeap(vs, isMax) && |vs| > 0
    ensures forall k :: 0 <= k < |vs| ==> Ordered(isMax, vs[0], vs[k])
  {
    forall k | 0 <= k < |vs| ensures Ordered(isMax, vs[0], vs[k]) {
      RootIsExtremal(vs, isMax, k);
    }
  }

  /** One swap of an upward sift keeps the sift ready one level up, with the new slot ordered above its children. */
  lemma UpStep(vs: seq<int>, isMax: bool, i: nat)
    requires SiftUpReady(vs, isMax, i) && SiftsUp(vs, isMax, i)
    ensures SiftUpReady(Swapped(vs, i, Parent(i)), isMax, Parent(i))
    ensures var p := Parent(i); Above(Swapped(vs, i, p), isMax, p, Left(p)) && Above(Swapped(vs, i, p), isMax, p, Right(p))
  {
    var p := Parent(i);
    var ws := Swapped(vs, i, p);
    forall k | 0 < k < |ws| && k != p && Parent(k) != p
      ensures Edge(ws, isMax, k)
    {
      if Parent(k) == i {
        assert ws[Parent(k)] == vs[p];
        assert Above(vs, isMax, p, Left(i)) && Above(vs, isMax, p, Right(i));
        assert k == Left(i) || k == Right(i);
      } else {
        assert Edge(vs, isMax, k);
      }
    }
    if p > 0 {
      assert Edge(vs, isMax, p);
    }
    var l, r := Left(p), Right(p);
    if l != i {
      assert Edge(vs, isMax, l);
    }
    if r != i {
      assert Edge(vs, isMax, r);
    }
  }

  /** An upward sift that stops at a slot ordered above its children leaves a heap. */
  lemma UpStop(vs: seq<int>, isMax: bool, i: nat)
    requires SiftUpReady(vs, isMax, i) && !SiftsUp(vs, isMax, i)
    requires Above(vs, isMax, i, Left(i)) && Above(vs, isMax, i, Right(i))
    ensures IsHeap(vs, isMax)
  {
    forall k | 0 < k < |vs| && Parent(k) >= 0
      ensures Edge(vs, isMax, k)
    {
      if Parent(k) == i {
        assert k == Left(i) || k == Right(i);
      }
    }
  }

  /** A heap is ready for a downward sift at any slot (the sift will not move). */
  lemma HeapDownReady(vs: seq<int>, isMax: bool, i: nat)
    requires IsHeap(vs, isMax) && i < |vs|
    ensures SiftDownReady(vs, isMax, i, 0)
  {
    if i > 0 {
      assert Edge(vs, isMax, i);
      assert Edge(vs, isMax, Left(i)) && Edge(vs, isMax, Right(i));
    }
  }

  /** A fix whose upward sift does not move leaves the slot ready for the downward sift. */
  lemma FixGoesDown(vs: seq<int>, isMax: bool, i: nat)
    requires SiftUpReady(vs, isMax, i) && !SiftsUp(vs, isMax, i)
    ensures SiftDownReady(vs, isMax, i, 0)
  {
    forall k | 0 < k < |vs| && Parent(k) >= 0 && Parent(k) != i
      ensures Edge(vs, isMax, k)
    {
      if k != i {
        assert Edge(vs, isMax, k);
      }
    }
  }

  /**
   * One swap of a downward sift with the better child c (c is a child of i,
   * ordered above its sibling, and better than i) keeps the sift ready at c.
   */
  lemma DownStep(vs: seq<int>, isMax: bool, i: nat, c: nat, lo: nat)
    requires SiftDownReady(vs, isMax, i, lo)
    requires (c == Left(i) || c == Right(i)) && c < |vs|
    requires Above(vs, isMax, c, Left(i)) && Above(vs, isMax, c, Right(i))
    requires Better(isMax, vs[c], vs[i])
    ensures SiftDownReady(Swapped(vs, i, c), isMax, c, lo)
  {
    var ws := Swapped(vs, i, c);
    forall k | 0 < k < |ws| && Parent(k) >= lo && Parent(k) != c
      ensures Edge(ws, isMax, k)
    {
      if k == i {
        assert ws[k] == vs[c];
        assert Above(vs, isMax, Parent(i), Left(i)) && Above(vs, isMax, Parent(i), Right(i));
      } else if Parent(k) == i {
        assert ws[Parent(k)] == vs[c];
        assert k == Left(i) || k == Right(i);
      } else {
        assert Edge(vs, isMax, k);
      }
    }
    assert Edge(vs, isMax, Left(c)) && Edge(vs, isMax, Right(c));
  }

  /** A downward sift that stops at a slot ordered above both its children leaves heap order from lo on. */
  lemma DownStop(vs: seq<int>, isMax: bool, i: nat, lo: nat)
    requires SiftDownReady(vs, isMax, i, lo)
    requires Above(vs, isMax, i, Left(i)) && Above(vs, isMax, i, Right(i))
    ensures HeapFrom(vs, isMax, lo)
  {
    forall k | 0 < k < |vs| && Parent(k) >= lo
      ensures Edge(vs, isMax, k)
    {
      if Parent(k) == i {
        assert k == Left(i) || k == Right(i);
      }
    }
  }

  /** A new last slot can be fixed by an upward sift. */
  lemma AppendReady(vs: seq<int>, isMax: bool, x: int)
    requires IsHeap(vs, isMax)
    ensures SiftUpReady(vs + [x], isMax, |vs|)
  {
    var ws := vs + [x];
    forall k | 0 < k < |ws| && k != |vs| && Parent(k) != |vs|
      ensures Edge(ws, isMax, k)
    {
      assert Edge(vs, isMax, k);
    }
  }

  /** Overwriting one slot of a heap leaves that slot ready for a fix. */
  lemma ReplaceReady(vs: seq<int>, isMax: bool, j: nat, x: int)
    requires IsHeap(vs, isMax) && j < |vs|
    ensures SiftUpReady(vs[j := x], isMax, j)
  {
    var ws := vs[j := x];
    forall k | 0 < k < |ws| && k != j && Parent(k) != j
      ensures Edge(ws, isMax, k)
    {
      assert Edge(vs, isMax, k);
    }
    if j > 0 {
      assert Edge(vs, isMax, j);
      assert Edge(vs, isMax, Left(j)) && Edge(vs, isMax, Right(j));
    }
  }

  /** Moving the last slot into slot j and dropping the last slot leaves j ready for a fix. */
  lemma RemoveReady(vs: seq<int>, isMax: bool, j: nat)
    requires IsHeap(vs, isMax) && j < |vs| - 1
    ensures SiftUpReady(Swapped(vs, j, |vs| - 1)[..|vs| - 1], isMax, j)
  {
    var n := |vs| - 1;
    assert Swapped(vs, j, n)[..n] == vs[..n][j := vs[n]];
    forall k | 0 < k < n && Parent(k) >= 0
      ensures Edge(vs[..n], isMax, k)
    {
      assert Edge(vs, isMax, k);
    }
    ReplaceReady(vs[..n], isMax, j, vs[n]);
  }

  /** Moving the last slot to the root and dropping the last slot leaves the root ready for a downward sift. */
  lemma PopReady(vs: seq<int>, isMax: bool)
    requires IsHeap(vs, isMax) && |vs| > 0
    ensures SiftDownReady(Swapped(vs, 0, |vs| - 1)[..|vs| - 1], isMax, 0, 0)
  {
    var n := |vs| - 1;
    var ws := Swapped(vs, 0, n)[..n];
    forall k | 0 < k < |ws| && Parent(k) >= 0 && Parent(k) != 0
      ensures Edge(ws, isMax, k)
    {
      assert Edge(vs, isMax, k);
    }
  }

  /** Dropping the last slot of a heap leaves a heap. */
  lemma DropLastReady(vs: seq<int>, isMax: bool)
    requires IsHeap(vs, isMax) && |vs| > 0
    ensures IsHeap(vs[..|vs| - 1], isMax)
  {
    var ws := vs[..|vs| - 1];
    forall k | 0 < k < |ws|
      ensures Edge(ws, isMax, k)
    {
      assert Edge(vs, isMax, k);
    }
  }

  /** A heap of at most one slot has no edges to check. */
  lemma TinyHeap(vs: seq<int>, isMax: bool)
    requires |vs| <= 1
    ensures IsHeap(vs, isMax)
  {
  }

  /** Before heapify, every slot past the parent of the last slot is a leaf, so heap order from there on holds. */
  lemma HeapifyStart(vs: seq<int>, isMax: bool)
    requires |vs| > 1
    ensures HeapFrom(vs, isMax, Parent(|vs| - 1) + 1)
  {
    forall k | 0 < k < |vs|
      ensures Parent(k) <= Parent(|vs| - 1)
    {
    }
  }
}
