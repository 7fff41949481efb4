/**
 * The skyline client of the priority queue: a sweep from left to right
 * over the x values where buildings start or end, keeping the buildings
 * that stand at the current x in a max-queue keyed by height, and
 * emitting a key point wherever the tallest height changes.
 *
 * The first half of the module defines what the outline of a set of
 * buildings is (`HeightAt`, `Outline`, `SkylineOf`) and proves what it
 * promises; the second half is the sweep itself, proved to compute it.
 */
module Skylines {
  import opened HeapOrder
  import opened PriorityQueues

  /** A building spans [left, right) on the x axis at the given height. */
  datatype Building = Building(left: int, height: int, right: int)

  /** Python's `set(Building(*b) for b in buildings)`: duplicates collapse. */
  function BuildingSet(input: seq<(int, int, int)>): (bs: set<Building>)
    ensures forall b :: b in bs <==> exists t :: t in input && b == Building(t.0, t.1, t.2)
  {
    set t | t in input :: Building(t.0, t.1, t.2)
  }

  /** Every building has positive width. */
  predicate WellFormed(input: seq<(int, int, int)>)
  {
    forall t :: t in input ==> t.0 < t.2
  }

  /** Building b stands at x (its right edge is open). */
  predicate Covers(b: Building, x: int)
  {
    b.left <= x < b.right
  }

  /** The x values where some building starts or ends. */
  function Edges(bs: set<Building>): (es: set<int>)
    ensures forall x :: x in es <==> exists b :: b in bs && (b.left == x || b.right == x)
  {
    (set b | b in bs :: b.left) + (set b | b in bs :: b.right)
  }

  // ---------------------------------------------------------------------------
  // The height of the skyline at one x

  /** h is the tallest height standing at x, the ground (0) included. */
  ghost predicate IsHeightAt(bs: set<Building>, x: int, h: int)
  {
    h >= 0 &&
    (forall b :: b in bs && Covers(b, x) ==> b.height <= h) &&
    (h == 0 || exists b :: b in bs && Covers(b, x) && b.height == h)
  }

  /** The height of the skyline at x. */
  ghost function HeightAt(bs: set<Building>, x: int): int
    decreases bs
  {
    if bs == {} then 0
    else
      var b :| b in bs;
      var rest := HeightAt(bs - {b}, x);
      if Covers(b, x) && b.height > rest then b.height else rest
  }

  /** The height at x is the tallest standing there, or the ground's. */
  lemma {:induction false} HeightAtIsTallest(bs: set<Building>, x: int)
    ensures IsHeightAt(bs, x, HeightAt(bs, x))
    decreases bs
  {
    if bs != {} {
      var b :| b in bs && HeightAt(bs, x) ==
        (var rest := HeightAt(bs - {b}, x); if Covers(b, x) && b.height > rest then b.height else rest);
      HeightAtIsTallest(bs - {b}, x);
    }
  }

  /** The tallest height is determined: any h meeting its description is it. */
  lemma HeightAtUnique(bs: set<Building>, x: int, h: int)
    requires IsHeightAt(bs, x, h)
    ensures h == HeightAt(bs, x)
  {
    var g := HeightAt(bs, x);
    HeightAtIsTallest(bs, x);
    if h != 0 {
      var b :| b in bs && Covers(b, x) && b.height == h;
      assert h <= g;
    }
    if g != 0 {
      var b :| b in bs && Covers(b, x) && b.height == g;
      assert g <= h;
    }
  }

  /** The height at x computed over a listing of the buildings. */
  function TallestIn(bs: seq<Building>, x: int): int
  {
    if bs == [] then 0
    else
      var rest := TallestIn(bs[1..], x);
      if Covers(bs[0], x) && bs[0].height > rest then bs[0].height else rest
  }

  /** The listing's height at x meets the description of the skyline's height. */
  lemma {:induction false} TallestInBounds(bs: seq<Building>, x: int)
    ensures IsHeightAt((set b | b in bs), x, TallestIn(bs, x))
    decreases |bs|
  {
    if bs != [] {
      TallestInBounds(bs[1..], x);
      var rest := set b | b in bs[1..];
      assert (set b | b in bs) == {bs[0]} + rest;
      var h := TallestIn(bs[1..], x);
      if h != 0 && !(Covers(bs[0], x) && bs[0].height > h) {
        var w :| w in rest && Covers(w, x) && w.height == h;
        assert w in (set b | b in bs);
      }
    }
  }

  /** The listing computes the height of the skyline of its set of buildings. */
  lemma TallestInIsHeight(bs: seq<Building>, x: int)
    ensures TallestIn(bs, x) == HeightAt((set b | b in bs), x)
  {
    TallestInBounds(bs, x);
    HeightAtUnique((set b | b in bs), x, TallestIn(bs, x));
  }

  // ---------------------------------------------------------------------------
  // Sorted significant x values (Python's `sorted` over the keys of `xs`)

  predicate Increasing(s: seq<int>)
  {
    forall i, j :: 0 <= i < j < |s| ==> s[i] < s[j]
  }

  lemma {:induction false} MinExists(s: set<int>)
    requires s != {}
    ensures exists m :: m in s && forall y :: y in s ==> m <= y
    decreases s
  {
    if forall y :: y !in s {  // a non-empty set has a member
      assert false;
    }
    var a :| a in s;
    if s != {a} {
      MinExists(s - {a});
      var m :| m in s - {a} && forall y :: y in s - {a} ==> m <= y;
      var least := if a < m then a else m;
      forall y | y in s
        ensures least <= y
      {
        if y != a {
          assert y in s - {a};
        }
      }
    } else {
      assert forall y :: y in s ==> a <= y;
    }
  }

  /** The elements of s in strictly increasing order. */
  function SortedSet(s: set<int>): (r: seq<int>)
    ensures Increasing(r)
    ensures forall y :: y in r <==> y in s
    decreases s
  {
    if s == {} then []
    else
      MinExists(s);
      var m :| m in s && forall y :: y in s ==> m <= y;
      var rest := SortedSet(s - {m});
      LeastFirst(s, m, rest);
      [m] + rest
  }

  /** The least element of s, then the rest of s increasing, lists s increasing. */
  lemma LeastFirst(s: set<int>, m: int, rest: seq<int>)
    requires m in s && forall y :: y in s ==> m <= y
    requires Increasing(rest) && forall y :: y in rest <==> y in s - {m}
    ensures Increasing([m] + rest) && forall y :: y in [m] + rest <==> y in s
  {
    var r := [m] + rest;
    forall i, j | 0 <= i < j < |r|
      ensures r[i] < r[j]
    {
      assert r[j] == rest[j - 1] && r[j] in s - {m};
      if i > 0 {
        assert r[i] == rest[i - 1];
      }
    }
  }

  /** There is only one strictly increasing listing of a set. */
  lemma {:induction false} IncreasingUnique(a: seq<int>, b: seq<int>)
    requires Increasing(a) && Increasing(b)
    requires forall y :: y in a <==> y in b
    ensures a == b
    decreases |a|
  {
    if a != [] {
      assert a[0] in a;
    }
    if b != [] {
      assert b[0] in b;
    }
    if a != [] && b != [] {
      SameTails(a, b);
      IncreasingUnique(a[1..], b[1..]);
      assert a == [a[0]] + a[1..] && b == [b[0]] + b[1..];
    }
  }

  /** Two increasing listings of the same values start alike and go on with the same values. */
  lemma SameTails(a: seq<int>, b: seq<int>)
    requires Increasing(a) && Increasing(b) && a != [] && b != []
    requires forall y :: y in a <==> y in b
    ensures a[0] == b[0] && Increasing(a[1..]) && Increasing(b[1..])
    ensures forall y :: y in a[1..] <==> y in b[1..]
  {
    assert a[0] in b && b[0] in a;
    var i :| 0 <= i < |b| && b[i] == a[0];
    var j :| 0 <= j < |a| && a[j] == b[0];
    assert b[0] <= a[0] && a[0] <= b[0];
    forall y
      ensures y in a[1..] <==> y in b[1..]
    {
      if y in a[1..] {
        var k :| 1 <= k < |a| && a[k] == y;
        assert y in b && y != b[0];
      }
      if y in b[1..] {
        var k :| 1 <= k < |b| && b[k] == y;
        assert y in a && y != a[0];
      }
    }
  }

  // ---------------------------------------------------------------------------
  // The outline: key points where the height changes

  /** The height the points o report last (the ground before any point). */
  function LastHeight(o: seq<(int, int)>): int
  {
    if o == [] then 0 else o[|o| - 1].1
  }

  /**
   * The key points among height samples taken left to right: a sample is
   * kept wherever its height differs from the height last kept.
   */
  function Compress(samples: seq<(int, int)>): seq<(int, int)>
    decreases |samples|
  {
    if samples == [] then []
    else
      var o := Compress(samples[..|samples| - 1]);
      var p := samples[|samples| - 1];
      if p.1 != LastHeight(o) then o + [p] else o
  }

  /** The height of the skyline sampled at each of xs. */
  ghost function Samples(bs: set<Building>, xs: seq<int>): (s: seq<(int, int)>)
    ensures |s| == |xs|
    decreases |xs|
  {
    if xs == [] then []
    else
      var n := |xs| - 1;
      Samples(bs, xs[..n]) + [(xs[n], HeightAt(bs, xs[n]))]
  }

  /** The k-th sample is taken at xs[k] and reads the skyline's height there. */
  lemma {:induction false} SamplesAt(bs: set<Building>, xs: seq<int>)
    ensures forall k :: 0 <= k < |xs| ==> Samples(bs, xs)[k] == (xs[k], HeightAt(bs, xs[k]))
    decreases |xs|
  {
    if xs != [] {
      var n := |xs| - 1;
      SamplesAt(bs, xs[..n]);
      forall k | 0 <= k < n
        ensures Samples(bs, xs)[k] == (xs[k], HeightAt(bs, xs[k]))
      {
        assert xs[..n][k] == xs[k];
      }
    }
  }

  /** The key points of the skyline over the x values xs, scanned left to right. */
  ghost function Outline(bs: set<Building>, xs: seq<int>): seq<(int, int)>
  {
    Compress(Samples(bs, xs))
  }

  /** The skyline of the input: its outline over its sorted edges. */
  ghost function SkylineOf(input: seq<(int, int, int)>): seq<(int, int)>
  {
    var bs := BuildingSet(input);
    Outline(bs, SortedSet(Edges(bs)))
  }

  /** The height the points o give at x: that of the last point at or before x. */
  function HeightIn(o: seq<(int, int)>, x: int): int
  {
    if o == [] then 0
    else if o[|o| - 1].0 <= x then o[|o| - 1].1
    else HeightIn(o[..|o| - 1], x)
  }

  /** The points of o lie strictly left to right. */
  predicate LeftToRight(o: seq<(int, int)>)
  {
    forall i, j :: 0 <= i < j < |o| ==> o[i].0 < o[j].0
  }

  /** Every point of o changes the height reported before it. */
  predicate Changing(o: seq<(int, int)>)
  {
    forall i :: 0 <= i < |o| ==> o[i].1 != LastHeight(o[..i])
  }

  /** Compressing keeps samples only, and keeps them left to right. */
  lemma {:induction false} CompressKeeps(s: seq<(int, int)>)
    ensures forall p :: p in Compress(s) ==> p in s
    ensures LeftToRight(s) ==> LeftToRight(Compress(s))
    decreases |s|
  {
    if s != [] {
      var t := s[..|s| - 1];
      var p := s[|s| - 1];
      CompressKeeps(t);
      var o := Compress(t);
      forall q | q in o
        ensures q in s
      {
        var k :| 0 <= k < |t| && t[k] == q;
        assert s[k] == q;
      }
      if LeftToRight(s) {
        assert LeftToRight(t) by {
          forall i, j | 0 <= i < j < |t|
            ensures t[i].0 < t[j].0
          {
            assert t[i] == s[i] && t[j] == s[j];
          }
        }
        var o' := Compress(s);
        if o' != o {
          forall q | q in o
            ensures q.0 < p.0
          {
            var k :| 0 <= k < |t| && t[k] == q;
            assert s[k] == q;
          }
          forall i, j | 0 <= i < j < |o'|
            ensures o'[i].0 < o'[j].0
          {
            assert o'[i] == o[i] && o[i] in o;
            if j < |o| {
              assert o'[j] == o[j];
            }
          }
        }
      }
    }
  }

  /** Consecutive key points differ in height, and the first rises off the ground. */
  lemma {:induction false} CompressChanges(s: seq<(int, int)>)
    ensures Changing(Compress(s))
    decreases |s|
  {
    if s != [] {
      var t := s[..|s| - 1];
      CompressChanges(t);
      var o := Compress(t);
      var o' := Compress(s);
      if o' != o {
        forall i | 0 <= i < |o'|
          ensures o'[i].1 != LastHeight(o'[..i])
        {
          if i < |o| {
            assert o'[i] == o[i] && o'[..i] == o[..i];
          } else {
            assert o'[..i] == o;
          }
        }
      }
    }
  }

  /** Reading the key points back at any sample gives the sampled height. */
  lemma {:induction false} CompressDescribes(s: seq<(int, int)>)
    requires LeftToRight(s)
    ensures forall k :: 0 <= k < |s| ==> HeightIn(Compress(s), s[k].0) == s[k].1
    decreases |s|
  {
    if s != [] {
      var n := |s| - 1;
      var t := s[..n];
      assert LeftToRight(t) by {
        forall i, j | 0 <= i < j < |t|
          ensures t[i].0 < t[j].0
        {
          assert t[i] == s[i] && t[j] == s[j];
        }
      }
      CompressDescribes(t);
      CompressPointsBefore(s);
      CompressDescribesLast(s);
    }
  }

  /** The points kept from all samples but the last lie left of the last sample. */
  lemma CompressPointsBefore(s: seq<(int, int)>)
    requires LeftToRight(s) && s != []
    ensures forall p :: p in Compress(s[..|s| - 1]) ==> p.0 < s[|s| - 1].0
  {
    var n := |s| - 1;
    var t := s[..n];
    CompressKeeps(t);
    forall p | p in Compress(t)
      ensures p.0 < s[n].0
    {
      var k :| 0 <= k < n && t[k] == p;
      assert s[k] == t[k];
    }
  }

  /** One more sample, right of all the others, keeps the earlier readings and adds its own. */
  lemma CompressDescribesLast(s: seq<(int, int)>)
    requires LeftToRight(s) && s != []
    requires forall p :: p in Compress(s[..|s| - 1]) ==> p.0 < s[|s| - 1].0
    requires forall k :: 0 <= k < |s| - 1 ==> HeightIn(Compress(s[..|s| - 1]), s[k].0) == s[k].1
    ensures forall k :: 0 <= k < |s| ==> HeightIn(Compress(s), s[k].0) == s[k].1
  {
    forall k | 0 <= k < |s|
      ensures HeightIn(Compress(s), s[k].0) == s[k].1
    {
      if k < |s| - 1 {
        CompressKeepsEarlier(s, k);
      } else {
        CompressReadsLast(s);
      }
    }
  }

  /** A sample left of the last one reads the same once the last one is compressed in. */
  lemma CompressKeepsEarlier(s: seq<(int, int)>, k: nat)
    requires LeftToRight(s) && k < |s| - 1
    requires HeightIn(Compress(s[..|s| - 1]), s[k].0) == s[k].1
    ensures HeightIn(Compress(s), s[k].0) == s[k].1
  {
    var n := |s| - 1;
    var o := Compress(s[..n]);
    var o' := Compress(s);
    if o' != o {
      assert o' == o + [s[n]];
      assert o'[..|o|] == o;
      assert s[k].0 < s[n].0;
    }
  }

  /** The last sample, right of every point kept before it, reads its own height. */
  lemma CompressReadsLast(s: seq<(int, int)>)
    requires s != []
    requires forall p :: p in Compress(s[..|s| - 1]) ==> p.0 < s[|s| - 1].0
    ensures HeightIn(Compress(s), s[|s| - 1].0) == s[|s| - 1].1
  {
    var n := |s| - 1;
    var o := Compress(s[..n]);
    if Compress(s) == o {
      forall i | 0 <= i < |o|
        ensures o[i].0 < s[n].0
      {
        assert o[i] in o;
      }
      LastPointBefore(o, s[n].0);
    }
  }

  /** Outline points sit on scanned x values, strictly left to right. */
  lemma OutlineIncreasing(bs: set<Building>, xs: seq<int>)
    requires Increasing(xs)
    ensures LeftToRight(Outline(bs, xs))
  {
    SamplesAt(bs, xs);
    CompressKeeps(Samples(bs, xs));
  }

  /** Every outline point is at a scanned x and records the true height there. */
  lemma OutlineHeights(bs: set<Building>, xs: seq<int>)
    ensures forall p :: p in Outline(bs, xs) ==> p.0 in xs && p.1 == HeightAt(bs, p.0)
  {
    var s := Samples(bs, xs);
    CompressKeeps(s);
    SamplesAt(bs, xs);
    forall p | p in Outline(bs, xs)
      ensures p.0 in xs && p.1 == HeightAt(bs, p.0)
    {
      var k :| 0 <= k < |s| && s[k] == p;
    }
  }

  /** Reading the outline back at any scanned x gives the true height there. */
  lemma OutlineDescribes(bs: set<Building>, xs: seq<int>)
    requires Increasing(xs)
    ensures forall k :: 0 <= k < |xs| ==> HeightIn(Outline(bs, xs), xs[k]) == HeightAt(bs, xs[k])
  {
    var s := Samples(bs, xs);
    SamplesAt(bs, xs);
    CompressDescribes(s);
    forall k | 0 <= k < |xs|
      ensures HeightIn(Outline(bs, xs), xs[k]) == HeightAt(bs, xs[k])
    {
      assert s[k] == (xs[k], HeightAt(bs, xs[k]));
    }
  }

  /** Past every point of o, reading o gives its last height. */
  lemma LastPointBefore(o: seq<(int, int)>, x: int)
    requires forall i :: 0 <= i < |o| ==> o[i].0 < x
    ensures HeightIn(o, x) == LastHeight(o)
  {
  }

  /** With no point of o in (y, x], o reads the same at x as at y. */
  lemma {:induction false} HeightInGap(o: seq<(int, int)>, y: int, x: int)
    requires y <= x
    requires forall p :: p in o ==> !(y < p.0 <= x)
    ensures HeightIn(o, x) == HeightIn(o, y)
  {
    if o != [] && y < o[|o| - 1].0 {
      HeightInGap(o[..|o| - 1], y, x);
    }
  }

  /** Before every point of o, o reads the ground. */
  lemma {:induction false} HeightInBefore(o: seq<(int, int)>, x: int)
    requires forall p :: p in o ==> x < p.0
    ensures HeightIn(o, x) == 0
  {
    if o != [] {
      HeightInBefore(o[..|o| - 1], x);
    }
  }

  /** Two places covered by the same buildings have the same height. */
  lemma HeightAtSameCover(bs: set<Building>, x: int, y: int)
    requires forall b :: b in bs ==> (Covers(b, x) <==> Covers(b, y))
    ensures HeightAt(bs, x) == HeightAt(bs, y)
  {
    HeightAtIsTallest(bs, y);
    HeightAtUnique(bs, x, HeightAt(bs, y));
  }

  /** If some of ks is at or before x, one of them is the last such. */
  lemma {:induction false} LastKeyAtOrBefore(ks: seq<int>, x: int)
    requires exists i :: 0 <= i < |ks| && ks[i] <= x
    ensures exists k :: 0 <= k < |ks| && ks[k] <= x && (k + 1 == |ks| || x < ks[k + 1])
  {
    var n := |ks| - 1;
    if x < ks[n] {
      var i :| 0 <= i < |ks| && ks[i] <= x;
      assert i < n && ks[..n][i] == ks[i];
      LastKeyAtOrBefore(ks[..n], x);
      var k :| 0 <= k < n && ks[..n][k] <= x && (k + 1 == n || x < ks[..n][k + 1]);
      assert ks[k] <= x && (k + 1 == |ks| || x < ks[k + 1]);
    } else {
      assert ks[n] <= x && n + 1 == |ks|;
    }
  }

  /**
   * The shape of the skyline: its points lie on building edges, strictly
   * left to right, each records the true height there, and each changes
   * the height reported before it.
   */
  lemma SkylineShape(input: seq<(int, int, int)>)
    ensures var bs, o := BuildingSet(input), SkylineOf(input);
      LeftToRight(o) && Changing(o) &&
      forall p :: p in o ==> p.0 in Edges(bs) && p.1 == HeightAt(bs, p.0)
  {
    var bs := BuildingSet(input);
    var ks := SortedSet(Edges(bs));
    OutlineIncreasing(bs, ks);
    OutlineHeights(bs, ks);
    CompressChanges(Samples(bs, ks));
  }

  /** Left of every scanned x, the outline and the buildings both give the ground. */
  lemma OutlineBeforeKeys(bs: set<Building>, ks: seq<int>, x: int)
    requires forall b :: b in bs ==> b.left in ks
    requires forall i :: 0 <= i < |ks| ==> x < ks[i]
    ensures HeightIn(Outline(bs, ks), x) == HeightAt(bs, x)
  {
    OutlineHeights(bs, ks);
    forall p | p in Outline(bs, ks)
      ensures x < p.0
    {
      var i :| 0 <= i < |ks| && ks[i] == p.0;
    }
    HeightInBefore(Outline(bs, ks), x);
    forall b | b in bs
      ensures !Covers(b, x)
    {
      var i :| 0 <= i < |ks| && ks[i] == b.left;
    }
    GroundAt(bs, x);
  }

  /**
   * Between the k-th scanned x and the next, the outline keeps the height
   * it gives at the k-th, and so do the buildings when every edge is scanned.
   */
  lemma OutlineBetweenKeys(bs: set<Building>, ks: seq<int>, x: int, k: nat)
    requires Increasing(ks) && k < |ks| && ks[k] <= x && (k + 1 == |ks| || x < ks[k + 1])
    requires forall b :: b in bs ==> b.left in ks && b.right in ks
    ensures HeightIn(Outline(bs, ks), x) == HeightAt(bs, x)
  {
    var o := Outline(bs, ks);
    forall j | 0 <= j < |ks|
      ensures ks[j] <= x <==> j <= k
    {
      if j < k { assert ks[j] < ks[k]; }
      if j > k + 1 { assert ks[k + 1] < ks[j]; }
    }
    OutlineHeights(bs, ks);
    forall p | p in o
      ensures !(ks[k] < p.0 <= x)
    {
      var j :| 0 <= j < |ks| && ks[j] == p.0;
      if j < k { assert ks[j] < ks[k]; }
    }
    HeightInGap(o, ks[k], x);
    forall b | b in bs
      ensures Covers(b, x) <==> Covers(b, ks[k])
    {
      var i :| 0 <= i < |ks| && ks[i] == b.left;
      var j :| 0 <= j < |ks| && ks[j] == b.right;
      if i < k { assert ks[i] < ks[k]; }
    }
    HeightAtSameCover(bs, x, ks[k]);
    OutlineDescribes(bs, ks);
  }

  /**
   * What the skyline means: reading it back at any x whatever gives the
   * height of the tallest building standing at x, or the ground's.
   */
  lemma SkylineEverywhere(input: seq<(int, int, int)>, x: int)
    ensures HeightIn(SkylineOf(input), x) == HeightAt(BuildingSet(input), x)
  {
    var bs := BuildingSet(input);
    var ks := SortedSet(Edges(bs));
    forall b | b in bs
      ensures b.left in ks && b.right in ks
    {
      assert b.left in Edges(bs) && b.right in Edges(bs);
    }
    if forall i :: 0 <= i < |ks| ==> x < ks[i] {
      OutlineBeforeKeys(bs, ks, x);
    } else {
      LastKeyAtOrBefore(ks, x);
      var k :| 0 <= k < |ks| && ks[k] <= x && (k + 1 == |ks| || x < ks[k + 1]);
      OutlineBetweenKeys(bs, ks, x, k);
    }
  }

  // ---------------------------------------------------------------------------
  // The sweep

  /** Python's `xs[k]` on a defaultdict(list). */
  function Get(xs: map<int, seq<Building>>, k: int): seq<Building>
  {
    if k in xs then xs[k] else []
  }

  /** The buildings starting or ending at x, each once. */
  ghost predicate GroupAt(bs: set<Building>, x: int, group: seq<Building>)
  {
    Distinct(group) &&
    forall b :: b in group <==> b in bs && (b.left == x || b.right == x)
  }

  /** Maps every edge x of the buildings to the buildings that start or end there. */
  method GroupByEdges(bs: set<Building>) returns (xs: map<int, seq<Building>>)
    requires forall b :: b in bs ==> b.left < b.right
    ensures xs.Keys == Edges(bs)
    ensures forall x :: x in xs ==> GroupAt(bs, x, xs[x])
  {
    xs := map[];
    var rest := bs;
    ghost var done: set<Building> := {};
    while rest != {}
      invariant done + rest == bs && done !! rest
      invariant xs.Keys == Edges(done)
      invariant forall x :: x in xs ==> GroupAt(done, x, xs[x])
      decreases rest
    {
      if forall y :: y !in rest {  // a non-empty set has a member
        assert false;
      }
      var b :| b in rest;
      ghost var before := xs;
      xs := xs[b.left := Get(xs, b.left) + [b]];
      xs := xs[b.right := Get(xs, b.right) + [b]];
      Grouped(before, done, b);
      rest, done := rest - {b}, done + {b};
    }
    assert done == bs;
  }

  /** Filing b under both its edges keeps the map a grouping of the buildings seen. */
  lemma Grouped(xs: map<int, seq<Building>>, done: set<Building>, b: Building)
    requires b !in done && b.left < b.right
    requires xs.Keys == Edges(done) && forall x :: x in xs ==> GroupAt(done, x, xs[x])
    ensures var xs1 := xs[b.left := Get(xs, b.left) + [b]];
      var xs2 := xs1[b.right := Get(xs1, b.right) + [b]];
      xs2.Keys == Edges(done + {b}) && forall x :: x in xs2 ==> GroupAt(done + {b}, x, xs2[x])
  {
    var xs1 := xs[b.left := Get(xs, b.left) + [b]];
    var xs2 := xs1[b.right := Get(xs1, b.right) + [b]];
    GroupedKeys(xs, done, b);
    forall x | x in xs2
      ensures GroupAt(done + {b}, x, xs2[x])
    {
      if x == b.left || x == b.right {
        Grown(done, b, x, Get(xs, x));
      } else {
        assert xs2[x] == xs[x];
      }
    }
  }

  /** Filing b under both its edges makes the keys the edges of the buildings seen. */
  lemma GroupedKeys(xs: map<int, seq<Building>>, done: set<Building>, b: Building)
    requires xs.Keys == Edges(done)
    ensures var xs1 := xs[b.left := Get(xs, b.left) + [b]];
      xs1[b.right := Get(xs1, b.right) + [b]].Keys == Edges(done + {b})
  {
  }

  /** Adding b to the group of one of its own edges keeps it a group. */
  lemma Grown(done: set<Building>, b: Building, x: int, group: seq<Building>)
    requires GroupAt(done, x, group) && b !in done && (b.left == x || b.right == x)
    ensures GroupAt(done + {b}, x, group + [b])
  {
    assert b !in group;
  }

  /** Python's `max(b.right for b in bs)`. */
  method MaxRight(bs: set<Building>) returns (m: int)
    requires bs != {}
    ensures forall b :: b in bs ==> b.right <= m
    ensures exists b :: b in bs && b.right == m
  {
    var b0 :| b0 in bs;
    m := b0.right;
    var rest := bs - {b0};
    while rest != {}
      invariant rest <= bs && b0 !in rest
      invariant forall b :: b in bs - rest ==> b.right <= m
      invariant exists b :: b in bs - rest && b.right == m
      decreases rest
    {
      var b :| b in rest;
      if b.right > m {
        m := b.right;
      }
      rest := rest - {b};
    }
  }

  /**
   * The sweep's bookkeeping: pq is a max-queue of buildings by height in
   * which the floor token and one token per standing building are live,
   * and nothing else; locs finds the token of every standing building.
   */
  ghost predicate Tracks(pq: PriorityQueue<Building>, locs: map<Building, Locator<Building>>,
                         floor: Locator<Building>, standing: set<Building>)
    reads pq, pq.tokens, locs.Values, floor
  {
    pq.Valid() && pq.Keyed() && pq.isMax && (forall b :: pq.key(b) == b.height) &&
    floor in pq.tokens && floor.item.height == 0 &&
    (forall b :: b in standing ==>
      b in locs && locs[b] in pq.tokens && locs[b].item == b && locs[b] != floor) &&
    (forall l :: l in pq.tokens && l != floor ==>
      l.item in standing && l.item in locs && locs[l.item] == l)
  }

  /** Building b starts: `locs[b] = pq.append(b)`. */
  method Enter(pq: PriorityQueue<Building>, locs: map<Building, Locator<Building>>,
               floor: Locator<Building>, ghost standing: set<Building>, b: Building)
    returns (locs': map<Building, Locator<Building>>)
    requires Tracks(pq, locs, floor, standing) && b !in standing
    modifies pq`pq, pq`vals, pq`items, pq`tokens, pq.tokens`index
    ensures Tracks(pq, locs', floor, standing + {b})
    ensures forall l :: l in pq.tokens ==> l in old(pq.tokens) || fresh(l)
  {
    var token := pq.Append(b);
    locs' := locs[b := token];
  }

  /** Building b ends: `pq.remove(locs[b]); del locs[b]`. */
  method Leave(pq: PriorityQueue<Building>, locs: map<Building, Locator<Building>>,
               floor: Locator<Building>, ghost standing: set<Building>, b: Building)
    returns (locs': map<Building, Locator<Building>>)
    requires Tracks(pq, locs, floor, standing) && b in standing
    modifies pq`pq, pq`vals, pq`items, pq`tokens, pq.tokens`index
    ensures Tracks(pq, locs', floor, standing - {b})
    ensures pq.tokens <= old(pq.tokens)
  {
    pq.LiveIffToken(locs[b]);
    var r := pq.Remove(locs[b]);
    assert r.Ok?;
    locs' := locs - {b};
  }

  /** The buildings of the group for x that start there (resp. end there). */
  ghost function Starting(group: seq<Building>, x: int): set<Building>
  {
    set b | b in group && b.left == x
  }

  ghost function Ending(group: seq<Building>, x: int): set<Building>
  {
    set b | b in group && b.right == x
  }

  /** Taking one more building of a group into account adds or removes just that building. */
  lemma VisitedSnoc(standing: set<Building>, group: seq<Building>, i: nat, x: int)
    requires i < |group| && group[i].left < group[i].right
    ensures var b, v := group[i], standing + Starting(group[..i], x) - Ending(group[..i], x);
      standing + Starting(group[..i + 1], x) - Ending(group[..i + 1], x) ==
      if b.left == x then v + {b} else if b.right == x then v - {b} else v
  {
    assert group[..i + 1] == group[..i] + [group[i]];
  }

  /** The inner loop of the sweep: every building of the group for x starts or ends. */
  method Visit(pq: PriorityQueue<Building>, locs: map<Building, Locator<Building>>,
               floor: Locator<Building>, ghost standing: set<Building>,
               group: seq<Building>, x: int)
    returns (locs': map<Building, Locator<Building>>, ghost standing': set<Building>)
    requires Tracks(pq, locs, floor, standing) && Distinct(group)
    requires forall b :: b in group ==> b.left < b.right && (b.left == x || b.right == x)
    requires forall b :: b in group && b.left == x ==> b !in standing
    requires forall b :: b in group && b.right == x ==> b in standing
    modifies pq`pq, pq`vals, pq`items, pq`tokens, pq.tokens`index
    ensures Tracks(pq, locs', floor, standing')
    ensures standing' == standing + Starting(group, x) - Ending(group, x)
    ensures forall l :: l in pq.tokens ==> l in old(pq.tokens) || fresh(l)
  {
    locs', standing' := locs, standing;
    var i := 0;
    while i < |group|
      invariant 0 <= i <= |group|
      invariant Tracks(pq, locs', floor, standing')
      invariant standing' == standing + Starting(group[..i], x) - Ending(group[..i], x)
      invariant forall l :: l in pq.tokens ==> l in old(pq.tokens) || fresh(l)
    {
      var b := group[i];
      assert b !in group[..i] by {
        forall k | 0 <= k < i ensures group[k] != b { }
      }
      VisitedSnoc(standing, group, i, x);
      if x == b.left {
        locs' := Enter(pq, locs', floor, standing', b);
        standing' := standing' + {b};
      } else if x == b.right {
        locs' := Leave(pq, locs', floor, standing', b);
        standing' := standing' - {b};
      }
      i := i + 1;
    }
    assert group[..i] == group;
  }

  /** The buildings standing once the edges in done have been swept. */
  ghost function Standing(bs: set<Building>, done: seq<int>): set<Building>
  {
    set b | b in bs && b.left in done && b.right !in done
  }

  /**
   * One step of the sweep, on values: at the i-th sorted edge x, the
   * buildings of its group that start there are not standing yet, those
   * that end there are, and afterwards exactly the buildings covering x stand.
   */
  lemma SweepStep(bs: set<Building>, keys: seq<int>, i: nat, group: seq<Building>)
    requires Increasing(keys) && i < |keys|
    requires forall b :: b in bs ==> b.left < b.right && b.left in keys && b.right in keys
    requires GroupAt(bs, keys[i], group)
    ensures forall b :: b in group && b.left == keys[i] ==> b !in Standing(bs, keys[..i])
    ensures forall b :: b in group && b.right == keys[i] ==> b in Standing(bs, keys[..i])
    ensures Standing(bs, keys[..i + 1]) ==
      Standing(bs, keys[..i]) + Starting(group, keys[i]) - Ending(group, keys[i])
    ensures forall b :: b in Standing(bs, keys[..i + 1]) <==> b in bs && Covers(b, keys[i])
  {
    var x := keys[i];
    forall k | k in keys
      ensures (k in keys[..i] <==> k < x) && (k in keys[..i + 1] <==> k <= x)
    {
      var j :| 0 <= j < |keys| && keys[j] == k;
      if k in keys[..i] {
        var j' :| 0 <= j' < i && keys[j'] == k;
      }
      if k in keys[..i + 1] {
        var j' :| 0 <= j' <= i && keys[j'] == k;
      }
      if j < i {
        assert keys[..i][j] == k;
      }
      if j <= i {
        assert keys[..i + 1][j] == k;
      }
    }
  }

  /**
   * The outline over one more edge, from the points recorded so far: the
   * point (x, h) for the true height h at x is recorded exactly when h
   * differs from the last height recorded.
   */
  lemma OutlineStep(bs: set<Building>, keys: seq<int>, i: nat, res: seq<(int, int)>, h: int)
    requires i < |keys| && res == [(0, 0)] + Outline(bs, keys[..i]) && h == HeightAt(bs, keys[i])
    ensures (if res[|res| - 1].1 != h then res + [(keys[i], h)] else res) ==
      [(0, 0)] + Outline(bs, keys[..i + 1])
  {
    var t := Samples(bs, keys[..i]);
    var s := Samples(bs, keys[..i + 1]);
    assert keys[..i + 1][..i] == keys[..i];
    assert s[..i] == t;
    assert res[|res| - 1].1 == LastHeight(Outline(bs, keys[..i]));
  }

  /** With the sweep's bookkeeping in place, the queue's top is the skyline height at x. */
  lemma PeekIsHeight(pq: PriorityQueue<Building>, locs: map<Building, Locator<Building>>,
                     floor: Locator<Building>, standing: set<Building>, bs: set<Building>, x: int)
    requires Tracks(pq, locs, floor, standing)
    requires forall b :: b in standing <==> b in bs && Covers(b, x)
    ensures |pq.pq| > 0 && IsHeightAt(bs, x, pq.Peek().height)
  {
    assert floor == pq.pq[floor.index];
    assert |pq.pq| > 0;
    var top := pq.pq[0];
    var h := pq.Peek().height;
    assert top in pq.tokens && h == top.value;
    assert floor.value == 0;
    forall b | b in bs && Covers(b, x)
      ensures b.height <= h
    {
      assert locs[b] in pq.tokens && locs[b].value == b.height;
    }
    if top != floor {
      assert top.item in standing;
    }
  }

  /** The set-up of the sweep: an empty max-queue by height holding only the floor. */
  method Start(bs: set<Building>)
    returns (pq: PriorityQueue<Building>, locs: map<Building, Locator<Building>>,
             floorToken: Locator<Building>)
    requires bs != {}
    ensures fresh(pq) && forall l :: l in pq.tokens ==> fresh(l)
    ensures Tracks(pq, locs, floorToken, {})
    ensures floorToken.item in locs && locs[floorToken.item] == floorToken
    ensures floorToken.item.left == 0 && forall b :: b in bs ==> b.right <= floorToken.item.right
    ensures exists b :: b in bs && b.right == floorToken.item.right
  {
    pq := new PriorityQueue<Building>([], (b: Building) => b.height, true);
    locs := map[];
    var far := MaxRight(bs);
    var floor := Building(0, 0, far);
    floorToken := pq.Append(floor);
    locs := locs[floor := floorToken];
  }

  /**
   * One round of the outer loop of the sweep at x = keys[i]: the buildings
   * of x's group start or end, then the height at the top of the queue is
   * recorded if it differs from the last one recorded.
   */
  method Scan(pq: PriorityQueue<Building>, locs: map<Building, Locator<Building>>,
              floorToken: Locator<Building>, ghost bs: set<Building>, ghost standing: set<Building>,
              keys: seq<int>, i: nat, group: seq<Building>, res: seq<(int, int)>)
    returns (locs': map<Building, Locator<Building>>, ghost standing': set<Building>,
             res': seq<(int, int)>)
    requires Increasing(keys) && i < |keys|
    requires forall b :: b in bs ==> b.left < b.right && b.left in keys && b.right in keys
    requires GroupAt(bs, keys[i], group)
    requires Tracks(pq, locs, floorToken, standing) && standing == Standing(bs, keys[..i])
    requires res == [(0, 0)] + Outline(bs, keys[..i])
    modifies pq`pq, pq`vals, pq`items, pq`tokens, pq.tokens`index
    ensures Tracks(pq, locs', floorToken, standing') && standing' == Standing(bs, keys[..i + 1])
    ensures res' == [(0, 0)] + Outline(bs, keys[..i + 1])
    ensures forall l :: l in pq.tokens ==> l in old(pq.tokens) || fresh(l)
  {
    var x := keys[i];
    SweepStep(bs, keys, i, group);
    locs', standing' := Visit(pq, locs, floorToken, standing, group, x);
    PeekIsHeight(pq, locs', floorToken, standing', bs, x);
    var h := pq.Peek().height;
    HeightAtUnique(bs, x, h);
    OutlineStep(bs, keys, i, res, h);
    res' := res;
    if res[|res| - 1].1 != h {
      res' := res + [(x, h)];
    }
  }

  /** The edges the sweep visits, in order, and the buildings on each. */
  ghost predicate Plan(bs: set<Building>, xs: map<int, seq<Building>>, keys: seq<int>)
  {
    Increasing(keys) &&
    (forall b :: b in bs ==> b.left < b.right && b.left in keys && b.right in keys) &&
    (forall k :: k in keys ==> k in xs && GroupAt(bs, k, xs[k]))
  }

  /**
   * The part of `skyline` before the sweep: the buildings without
   * duplicates, their groups by edge, and the edges sorted.
   */
  method Prepare(buildings: seq<(int, int, int)>)
    returns (bs: set<Building>, xs: map<int, seq<Building>>, keys: seq<int>)
    requires |buildings| > 0 && WellFormed(buildings)
    ensures bs == BuildingSet(buildings) && bs != {} && Plan(bs, xs, keys)
    ensures Outline(bs, keys) == SkylineOf(buildings)
  {
    bs := BuildingSet(buildings);
    assert Building(buildings[0].0, buildings[0].1, buildings[0].2) in bs;
    xs := GroupByEdges(bs);
    keys := SortedSet(xs.Keys);
  }

  /**
   * The sweep of `skyline` over the sorted edges, from the set-up on: it
   * returns the recorded points, the implicit starting point (0, 0) first.
   */
  method Sweep(pq: PriorityQueue<Building>, locs: map<Building, Locator<Building>>,
               floorToken: Locator<Building>, ghost bs: set<Building>,
               xs: map<int, seq<Building>>, keys: seq<int>)
    returns (res: seq<(int, int)>)
    requires Plan(bs, xs, keys) && Tracks(pq, locs, floorToken, {})
    modifies pq`pq, pq`vals, pq`items, pq`tokens, pq.tokens`index
    ensures res == [(0, 0)] + Outline(bs, keys)
  {
    var locs' := locs;
    res := [(0, 0)];
    ghost var standing: set<Building> := {};
    var i := 0;
    while i < |keys|
      invariant 0 <= i <= |keys|
      invariant forall l :: l in pq.tokens ==> l in old(pq.tokens) || fresh(l)
      invariant Tracks(pq, locs', floorToken, standing) && standing == Standing(bs, keys[..i])
      invariant res == [(0, 0)] + Outline(bs, keys[..i])
    {
      locs', standing, res := Scan(pq, locs', floorToken, bs, standing, keys, i, xs[keys[i]], res);
      i := i + 1;
    }
    assert keys[..i] == keys;
  }

  /**
   * `skyline(buildings)`: the key points of the outline of the buildings,
   * left to right, where the height changes.
   */
  method Skyline(buildings: seq<(int, int, int)>) returns (res: seq<(int, int)>)
    requires |buildings| > 0 && WellFormed(buildings)
    ensures res == SkylineOf(buildings)
  {
    var bs, xs, keys := Prepare(buildings);
    var pq, locs, floorToken := Start(bs);
    res := Sweep(pq, locs, floorToken, bs, xs, keys);
    res := res[1..];
  }

  // ---------------------------------------------------------------------------
  // The check that comes with the program: the original UVa problem

  function UvaInput(): seq<(int, int, int)>
  {
    [(1, 11, 5), (2, 6, 7), (3, 13, 9), (12, 7, 16), (14, 3, 25), (19, 18, 22), (23, 13, 29), (24, 4, 28)]
  }

  function UvaOutput(): seq<(int, int)>
  {
    [(1, 11), (3, 13), (9, 0), (12, 7), (16, 3), (19, 18), (22, 3), (23, 13), (29, 0)]
  }

  function UvaBuildings(): set<Building>
  {
    {Building(1, 11, 5), Building(2, 6, 7), Building(3, 13, 9), Building(12, 7, 16),
     Building(14, 3, 25), Building(19, 18, 22), Building(23, 13, 29), Building(24, 4, 28)}
  }

  function UvaKeys(): seq<int>
  {
    [1, 2, 3, 5, 7, 9, 12, 14, 16, 19, 22, 23, 24, 25, 28, 29]
  }

  /** The heights of the skyline of the example at its edges. */
  function UvaSamples(): seq<(int, int)>
  {
    [(1, 11), (2, 11), (3, 13), (5, 13), (7, 13), (9, 0), (12, 7), (14, 7),
     (16, 3), (19, 18), (22, 3), (23, 13), (24, 13), (25, 13), (28, 13), (29, 0)]
  }

  /** The height at x is that of the tallest building w standing there. */
  lemma TallestAt(bs: set<Building>, x: int, w: Building)
    requires w in bs && Covers(w, x) && w.height >= 0
    requires forall b :: b in bs && Covers(b, x) ==> b.height <= w.height
    ensures HeightAt(bs, x) == w.height
  {
    HeightAtUnique(bs, x, w.height);
  }

  /** Where no building stands, the height is the ground's. */
  lemma GroundAt(bs: set<Building>, x: int)
    requires forall b :: b in bs ==> !Covers(b, x)
    ensures HeightAt(bs, x) == 0
  {
    HeightAtUnique(bs, x, 0);
  }

  lemma UvaHeight1(bs: set<Building>)
    requires bs == UvaBuildings()
    ensures HeightAt(bs, 1) == 11
  {
    TallestAt(bs, 1, Building(1, 11, 5));
  }

  lemma UvaHeight2(bs: set<Building>)
    requires bs == UvaBuildings()
    ensures HeightAt(bs, 2) == 11
  {
    TallestAt(bs, 2, Building(1, 11, 5));
  }

  lemma UvaHeight3(bs: set<Building>)
    requires bs == UvaBuildings()
    ensures HeightAt(bs, 3) == 13
  {
    TallestAt(bs, 3, Building(3, 13, 9));
  }

  lemma UvaHeight5(bs: set<Building>)
    requires bs == UvaBuildings()
    ensures HeightAt(bs, 5) == 13
  {
    TallestAt(bs, 5, Building(3, 13, 9));
  }

  lemma UvaHeight7(bs: set<Building>)
    requires bs == UvaBuildings()
    ensures HeightAt(bs, 7) == 13
  {
    TallestAt(bs, 7, Building(3, 13, 9));
  }

  lemma UvaHeight9(bs: set<Building>)
    requires bs == UvaBuildings()
    ensures HeightAt(bs, 9) == 0
  {
    GroundAt(bs, 9);
  }

  lemma UvaHeight12(bs: set<Building>)
    requires bs == UvaBuildings()
    ensures HeightAt(bs, 12) == 7
  {
    TallestAt(bs, 12, Building(12, 7, 16));
  }

  lemma UvaHeight14(bs: set<Building>)
    requires bs == UvaBuildings()
    ensures HeightAt(bs, 14) == 7
  {
    TallestAt(bs, 14, Building(12, 7, 16));
  }

  lemma UvaHeight16(bs: set<Building>)
    requires bs == UvaBuildings()
    ensures HeightAt(bs, 16) == 3
  {
    TallestAt(bs, 16, Building(14, 3, 25));
  }

  lemma UvaHeight19(bs: set<Building>)
    requires bs == UvaBuildings()
    ensures HeightAt(bs, 19) == 18
  {
    TallestAt(bs, 19, Building(19, 18, 22));
  }

  lemma UvaHeight22(bs: set<Building>)
    requires bs == UvaBuildings()
    ensures HeightAt(bs, 22) == 3
  {
    TallestAt(bs, 22, Building(14, 3, 25));
  }

  lemma UvaHeight23(bs: set<Building>)
    requires bs == UvaBuildings()
    ensures HeightAt(bs, 23) == 13
  {
    TallestAt(bs, 23, Building(23, 13, 29));
  }

  lemma UvaHeight24(bs: set<Building>)
    requires bs == UvaBuildings()
    ensures HeightAt(bs, 24) == 13
  {
    TallestAt(bs, 24, Building(23, 13, 29));
  }

  lemma UvaHeight25(bs: set<Building>)
    requires bs == UvaBuildings()
    ensures HeightAt(bs, 25) == 13
  {
    TallestAt(bs, 25, Building(23, 13, 29));
  }

  lemma UvaHeight28(bs: set<Building>)
    requires bs == UvaBuildings()
    ensures HeightAt(bs, 28) == 13
  {
    TallestAt(bs, 28, Building(23, 13, 29));
  }

  lemma UvaHeight29(bs: set<Building>)
    requires bs == UvaBuildings()
    ensures HeightAt(bs, 29) == 0
  {
    GroundAt(bs, 29);
  }

  lemma UvaSampledFirst(bs: set<Building>, ks: seq<int>)
    requires bs == UvaBuildings() && ks == UvaKeys()
    ensures Samples(bs, ks[..4]) == [(1, 11), (2, 11), (3, 13), (5, 13)]
  {
    assert Samples(bs, ks[..0]) == [];
    UvaHeight1(bs);
    assert ks[..1][..0] == ks[..0];
    assert Samples(bs, ks[..1]) == [(1, 11)];
    UvaHeight2(bs);
    assert ks[..2][..1] == ks[..1];
    assert Samples(bs, ks[..2]) == [(1, 11), (2, 11)];
    UvaHeight3(bs);
    assert ks[..3][..2] == ks[..2];
    assert Samples(bs, ks[..3]) == [(1, 11), (2, 11), (3, 13)];
    UvaHeight5(bs);
    assert ks[..4][..3] == ks[..3];
    assert Samples(bs, ks[..4]) == [(1, 11), (2, 11), (3, 13), (5, 13)];
  }

  lemma UvaSampledLeft(bs: set<Building>, ks: seq<int>)
    requires bs == UvaBuildings() && ks == UvaKeys()
    ensures Samples(bs, ks[..8]) == UvaSamples()[..8]
  {
    UvaSampledFirst(bs, ks);
    UvaHeight7(bs);
    assert ks[..5][..4] == ks[..4];
    assert Samples(bs, ks[..5]) == [(1, 11), (2, 11), (3, 13), (5, 13), (7, 13)];
    UvaHeight9(bs);
    assert ks[..6][..5] == ks[..5];
    assert Samples(bs, ks[..6]) == [(1, 11), (2, 11), (3, 13), (5, 13), (7, 13), (9, 0)];
    UvaHeight12(bs);
    assert ks[..7][..6] == ks[..6];
    assert Samples(bs, ks[..7]) == [(1, 11), (2, 11), (3, 13), (5, 13), (7, 13), (9, 0), (12, 7)];
    UvaHeight14(bs);
    assert ks[..8][..7] == ks[..7];
    assert Samples(bs, ks[..8]) == [(1, 11), (2, 11), (3, 13), (5, 13), (7, 13), (9, 0), (12, 7), (14, 7)];
  }

  lemma UvaSampledRight(bs: set<Building>, ks: seq<int>)
    requires bs == UvaBuildings() && ks == UvaKeys()
    ensures Samples(bs, ks[..16]) == UvaSamples()[..16]
  {
    UvaSampledLeft(bs, ks);
    UvaHeight16(bs);
    assert ks[..9][..8] == ks[..8];
    assert Samples(bs, ks[..9]) == [(1, 11), (2, 11), (3, 13), (5, 13), (7, 13), (9, 0), (12, 7), (14, 7), (16, 3)];
    UvaHeight19(bs);
    assert ks[..10][..9] == ks[..9];
    assert Samples(bs, ks[..10]) == [(1, 11), (2, 11), (3, 13), (5, 13), (7, 13), (9, 0), (12, 7), (14, 7), (16, 3), (19, 18)];
    UvaHeight22(bs);
    assert ks[..11][..10] == ks[..10];
    assert Samples(bs, ks[..11]) == [(1, 11), (2, 11), (3, 13), (5, 13), (7, 13), (9, 0), (12, 7), (14, 7), (16, 3), (19, 18), (22, 3)];
    UvaHeight23(bs);
    assert ks[..12][..11] == ks[..11];
    assert Samples(bs, ks[..12]) == [(1, 11), (2, 11), (3, 13), (5, 13), (7, 13), (9, 0), (12, 7), (14, 7), (16, 3), (19, 18), (22, 3), (23, 13)];
    UvaHeight24(bs);
    assert ks[..13][..12] == ks[..12];
    assert Samples(bs, ks[..13]) == [(1, 11), (2, 11), (3, 13), (5, 13), (7, 13), (9, 0), (12, 7), (14, 7), (16, 3), (19, 18), (22, 3), (23, 13), (24, 13)];
    UvaHeight25(bs);
    assert ks[..14][..13] == ks[..13];
    assert Samples(bs, ks[..14]) == [(1, 11), (2, 11), (3, 13), (5, 13), (7, 13), (9, 0), (12, 7), (14, 7), (16, 3), (19, 18), (22, 3), (23, 13), (24, 13), (25, 13)];
    UvaHeight28(bs);
    assert ks[..15][..14] == ks[..14];
    assert Samples(bs, ks[..15]) == [(1, 11), (2, 11), (3, 13), (5, 13), (7, 13), (9, 0), (12, 7), (14, 7), (16, 3), (19, 18), (22, 3), (23, 13), (24, 13), (25, 13), (28, 13)];
    UvaHeight29(bs);
    assert ks[..16][..15] == ks[..15];
    assert Samples(bs, ks[..16]) == [(1, 11), (2, 11), (3, 13), (5, 13), (7, 13), (9, 0), (12, 7), (14, 7), (16, 3), (19, 18), (22, 3), (23, 13), (24, 13), (25, 13), (28, 13), (29, 0)];
  }

  lemma UvaEdgeSet(bs: set<Building>, ks: seq<int>)
    requires bs == UvaBuildings() && ks == UvaKeys()
    ensures forall x :: x in Edges(bs) <==> x in ks
  {
    forall x | x in Edges(bs)
      ensures x in ks
    {
      var b :| b in bs && (b.left == x || b.right == x);
    }
    forall x | x in ks
      ensures x in Edges(bs)
    {
      var k :| 0 <= k < 16 && ks[k] == x;
      var w := [Building(1, 11, 5), Building(2, 6, 7), Building(3, 13, 9), Building(1, 11, 5),
                Building(2, 6, 7), Building(3, 13, 9), Building(12, 7, 16), Building(14, 3, 25),
                Building(12, 7, 16), Building(19, 18, 22), Building(19, 18, 22), Building(23, 13, 29),
                Building(24, 4, 28), Building(14, 3, 25), Building(24, 4, 28), Building(23, 13, 29)][k];
      assert w in bs && (w.left == x || w.right == x);
    }
  }

  lemma UvaKeysIncreasing(ks: seq<int>)
    requires ks == UvaKeys()
    ensures Increasing(ks)
  {
  }

  lemma UvaEdges(bs: set<Building>, ks: seq<int>)
    requires bs == UvaBuildings() && ks == UvaKeys()
    ensures SortedSet(Edges(bs)) == ks
  {
    UvaEdgeSet(bs, ks);
    UvaKeysIncreasing(ks);
    IncreasingUnique(SortedSet(Edges(bs)), ks);
  }

  lemma UvaCompressedLeft(ss: seq<(int, int)>)
    requires ss == UvaSamples()
    ensures Compress(ss[..8]) == [(1, 11), (3, 13), (9, 0), (12, 7)]
  {
    assert Compress(ss[..0]) == [];
    assert ss[..1][..0] == ss[..0];
    assert Compress(ss[..1]) == [(1, 11)];
    assert ss[..2][..1] == ss[..1];
    assert Compress(ss[..2]) == [(1, 11)];
    assert ss[..3][..2] == ss[..2];
    assert Compress(ss[..3]) == [(1, 11), (3, 13)];
    assert ss[..4][..3] == ss[..3];
    assert Compress(ss[..4]) == [(1, 11), (3, 13)];
    assert ss[..5][..4] == ss[..4];
    assert Compress(ss[..5]) == [(1, 11), (3, 13)];
    assert ss[..6][..5] == ss[..5];
    assert Compress(ss[..6]) == [(1, 11), (3, 13), (9, 0)];
    assert ss[..7][..6] == ss[..6];
    assert Compress(ss[..7]) == [(1, 11), (3, 13), (9, 0), (12, 7)];
    assert ss[..8][..7] == ss[..7];
    assert Compress(ss[..8]) == [(1, 11), (3, 13), (9, 0), (12, 7)];
  }

  lemma UvaCompressed(ss: seq<(int, int)>)
    requires ss == UvaSamples()
    ensures Compress(ss) == UvaOutput()
  {
    UvaCompressedLeft(ss);
    assert ss[..9][..8] == ss[..8];
    assert Compress(ss[..9]) == [(1, 11), (3, 13), (9, 0), (12, 7), (16, 3)];
    assert ss[..10][..9] == ss[..9];
    assert Compress(ss[..10]) == [(1, 11), (3, 13), (9, 0), (12, 7), (16, 3), (19, 18)];
    assert ss[..11][..10] == ss[..10];
    assert Compress(ss[..11]) == [(1, 11), (3, 13), (9, 0), (12, 7), (16, 3), (19, 18), (22, 3)];
    assert ss[..12][..11] == ss[..11];
    assert Compress(ss[..12]) == [(1, 11), (3, 13), (9, 0), (12, 7), (16, 3), (19, 18), (22, 3), (23, 13)];
    assert ss[..13][..12] == ss[..12];
    assert Compress(ss[..13]) == [(1, 11), (3, 13), (9, 0), (12, 7), (16, 3), (19, 18), (22, 3), (23, 13)];
    assert ss[..14][..13] == ss[..13];
    assert Compress(ss[..14]) == [(1, 11), (3, 13), (9, 0), (12, 7), (16, 3), (19, 18), (22, 3), (23, 13)];
    assert ss[..15][..14] == ss[..14];
    assert Compress(ss[..15]) == [(1, 11), (3, 13), (9, 0), (12, 7), (16, 3), (19, 18), (22, 3), (23, 13)];
    assert ss[..16][..15] == ss[..15];
    assert Compress(ss[..16]) == [(1, 11), (3, 13), (9, 0), (12, 7), (16, 3), (19, 18), (22, 3), (23, 13), (29, 0)];
    assert ss[..16] == ss;
  }

  lemma UvaBuildingSet(input: seq<(int, int, int)>)
    requires input == UvaInput()
    ensures BuildingSet(input) == UvaBuildings()
  {
  }

  lemma UvaSampled(bs: set<Building>, ks: seq<int>)
    requires bs == UvaBuildings() && ks == UvaKeys()
    ensures Samples(bs, ks) == UvaSamples()
  {
    UvaSampledRight(bs, ks);
    assert ks[..16] == ks;
  }

  lemma UvaOutline(bs: set<Building>, ks: seq<int>)
    requires bs == UvaBuildings() && ks == UvaKeys()
    ensures Outline(bs, ks) == UvaOutput()
  {
    UvaSampled(bs, ks);
    UvaCompressed(Samples(bs, ks));
  }

  /** `skyline(INPUT) == OUTPUT` for the buildings of the UVa problem. */
  lemma UvaExample()
    ensures SkylineOf(UvaInput()) == UvaOutput()
  {
    var input := UvaInput();
    UvaBuildingSet(input);
    var bs := BuildingSet(input);
    var ks := SortedSet(Edges(bs));
    UvaEdges(bs, UvaKeys());
    UvaOutline(bs, ks);
  }
}
