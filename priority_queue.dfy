/**
 * A locator-based priority queue on a binary heap, with O(log n) removal
 * and priority update through the token (locator) that insertion returns.
 *
 * The queue keeps its tokens in the sequence `pq`; each token records its
 * priority, its payload and the slot it currently occupies. Every swap
 * rewrites the slot of both tokens it moves, which is what keeps a token
 * held by a caller usable after unrelated operations. The min- and the
 * max-oriented queue are one engine: `isMax` chooses the orientation.
 *
 * Two ghost fields carry the proof: `vals`, the priorities slot by slot
 * (heap order is stated on it), and `tokens`, the set of live tokens (the
 * objects whose slot numbers the queue may rewrite).
 */
module PriorityQueues {
  import opened HeapOrder
  import opened Sorting

  /** The only failure of a locator-based operation: the token is not live in this queue. */
  datatype Error = InvalidLocator

  datatype Result<R> = Ok(value: R) | Err(error: Error)

  /** Token for locating an entry of the queue. */
  class Locator<T> {
    var value: int
    var item: T
    var index: int

    constructor (value: int, item: T, index: int)
      ensures this.value == value && this.item == item && this.index == index
    {
      this.value := value;
      this.item := item;
      this.index := index;
    }
  }

  /** The payloads carried by the tokens ls, in order. */
  function ItemsOf<T>(ls: seq<Locator<T>>): (r: seq<T>)
    reads set l | l in ls
    ensures |r| == |ls|
    ensures forall k :: 0 <= k < |ls| ==> r[k] == ls[k].item
  {
    if ls == [] then [] else ItemsOf(ls[..|ls| - 1]) + [ls[|ls| - 1].item]
  }

  /**
   * The tokens of a new queue before heapify: payload k of xs with
   * priority key(xs[k]) in slot k, each token fresh.
   */
  method Decorate<T>(xs: seq<T>, key: T -> int)
    returns (ls: seq<Locator<T>>, ghost vs: seq<int>, ghost ts: set<Locator<T>>)
    ensures |ls| == |xs| && |vs| == |xs|
    ensures forall k :: 0 <= k < |xs| ==>
      fresh(ls[k]) && ls[k].value == key(xs[k]) && ls[k].item == xs[k] && ls[k].index == k && vs[k] == ls[k].value
    ensures forall l :: l in ts <==> l in ls
  {
    ls, vs, ts := [], [], {};
    var i := 0;
    while i < |xs|
      invariant i <= |xs| && |ls| == i && |vs| == i
      invariant forall k :: 0 <= k < i ==>
        fresh(ls[k]) && ls[k].value == key(xs[k]) && ls[k].item == xs[k] && ls[k].index == k && vs[k] == ls[k].value
      invariant forall l :: l in ts <==> l in ls
    {
      var token := new Locator(key(xs[i]), xs[i], i);
      ls := ls + [token];
      vs := vs + [token.value];
      ts := ts + {token};
      i := i + 1;
    }
  }

  /** The payloads s come in priority order: each one's key is ordered above every later one's. */
  ghost predicate InOrder<T>(s: seq<T>, key: T -> int, isMax: bool)
  {
    forall a, b :: 0 <= a < b < |s| ==> Ordered(isMax, key(s[a]), key(s[b]))
  }

  /** Appending a payload ordered below the last one keeps the order. */
  lemma InOrderSnoc<T>(s: seq<T>, x: T, key: T -> int, isMax: bool)
    requires InOrder(s, key, isMax)
    requires |s| > 0 ==> Ordered(isMax, key(s[|s| - 1]), key(x))
    ensures InOrder(s + [x], key, isMax)
  {
    var t := s + [x];
    forall a, b | 0 <= a < b < |t|
      ensures Ordered(isMax, key(t[a]), key(t[b]))
    {
      if b == |s| && a < |s| - 1 {
        OrderedTransitive(isMax, key(s[a]), key(s[|s| - 1]), key(x));
      }
    }
  }

  /** Moving one occurrence of x from n to m keeps the sum. */
  lemma MoveOne<A>(m: multiset<A>, n: multiset<A>, x: A)
    requires x in n
    ensures (m + multiset{x}) + (n - multiset{x}) == m + n
  {
  }

  /** No element occurs twice in s. */
  ghost predicate Distinct<A>(s: seq<A>)
  {
    forall a, b :: 0 <= a < b < |s| ==> s[a] != s[b]
  }

  /** A duplicate-free sequence has as many elements as its set of members. */
  lemma {:induction false} DistinctCard<A>(s: seq<A>)
    requires Distinct(s)
    ensures |set x | x in s| == |s|
    decreases |s|
  {
    if s != [] {
      var n := |s| - 1;
      DistinctCard(s[..n]);
      assert s[n] !in s[..n];
      assert (set x | x in s) == (set x | x in s[..n]) + {s[n]};
    }
  }

  /**
   * A locator-based priority queue on a binary heap, ordered by the
   * priorities its tokens record (min- or max-oriented by isMax).
   */
  class PriorityQueue<T(==, !new)> {
    /** false: a min-queue (smallest priority first); true: a max-queue. */
    const isMax: bool
    /** The priority of a payload, computed when it is inserted. */
    const key: T -> int
    /** The heap of live tokens, slot by slot. */
    var pq: seq<Locator<T>>
    /** The priorities of the live tokens, slot by slot. */
    ghost var vals: seq<int>
    /** The payloads of the live tokens, slot by slot. */
    ghost var items: seq<T>
    /** The live tokens. */
    ghost var tokens: set<Locator<T>>

    /**
     * The tokens in the slots are exactly the live tokens, the token in
     * slot k records slot k, and `vals` and `items` hold their priorities
     * and payloads.
     */
    ghost predicate Coherent()
      reads this, tokens
    {
      |vals| == |pq| && |items| == |pq| &&
      (forall k :: 0 <= k < |pq| ==>
        pq[k] in tokens && pq[k].index == k && pq[k].value == vals[k] && pq[k].item == items[k]) &&
      (forall l :: l in tokens ==> 0 <= l.index < |pq| && pq[l.index] == l)
    }

    /** The object invariant: coherent slots and heap order for the orientation. */
    ghost predicate Valid()
      reads this, tokens
    {
      Coherent() && IsHeap(vals, isMax)
    }

    /** The payloads of the live tokens, slot by slot (the `items` property). */
    function Items(): (r: seq<T>)
      reads this, set l | l in pq
      ensures |r| == |pq|
      ensures forall k :: 0 <= k < |pq| ==> r[k] == pq[k].item
    {
      ItemsOf(pq)
    }

    /** The locator check of remove and update: the recorded slot is in range and holds this very token. */
    predicate IsLive(loc: Locator<T>)
      reads this, loc
      ensures IsLive(loc) ==> loc in pq
    {
      0 <= loc.index < |pq| && pq[loc.index] == loc
    }

    /** A token passes the locator check exactly when it is live. */
    lemma LiveIffToken(loc: Locator<T>)
      requires Coherent()
      ensures IsLive(loc) <==> loc in tokens
    {
    }

    /** Every live token records the priority its payload's key gives (update may break this). */
    ghost predicate Keyed()
      reads this, tokens
    {
      forall l :: l in tokens ==> l.value == key(l.item)
    }

    /** Nothing observable has changed: the same slots, priorities, payloads and slot numbers. */
    twostate predicate Untouched()
      reads this, tokens
    {
      pq == old(pq) && vals == old(vals) && items == old(items) && tokens == old(tokens) &&
      forall l :: l in tokens ==> l.index == old(l.index) && l.value == old(l.value) && l.item == old(l.item)
    }

    /** Build a queue from xs, priorities given by key, heapified when it has more than one entry. */
    constructor (xs: seq<T>, key: T -> int, isMax: bool)
      ensures Valid()
      ensures this.key == key && this.isMax == isMax
      ensures multiset(items) == multiset(xs) && Keyed()
      ensures forall l :: l in tokens ==> fresh(l)
    {
      this.isMax := isMax;
      this.key := key;
      var ls, vs, ts := Decorate(xs, key);
      pq := ls;
      vals := vs;
      items := xs;
      tokens := ts;
      new;
      if |pq| > 1 {
        Heapify();
      } else {
        TinyHeap(vals, isMax);
      }
    }

    /** Exchange the tokens in slots i and j, and record their new slots. */
    method Swap(i: nat, j: nat)
      requires Coherent() && i < |pq| && j < |pq|
      modifies this`pq, this`vals, this`items, tokens`index
      ensures Coherent()
      ensures pq == Swapped(old(pq), i, j) && vals == Swapped(old(vals), i, j)
      ensures multiset(items) == multiset(old(items))
    {
      SwappedPermutes(items, i, j);
      pq, vals, items := Swapped(pq, i, j), Swapped(vals, i, j), Swapped(items, i, j);
      pq[i].index, pq[j].index := i, j;
    }

    /** Add a new slot at the end holding token (the list's append). */
    method PushLast(token: Locator<T>)
      requires Coherent() && token !in tokens && token.index == |pq|
      modifies this`pq, this`vals, this`items, this`tokens
      ensures Coherent()
      ensures pq == old(pq) + [token] && vals == old(vals) + [token.value]
      ensures tokens == old(tokens) + {token}
      ensures multiset(items) == multiset(old(items)) + multiset{token.item}
    {
      pq, vals, items, tokens := pq + [token], vals + [token.value], items + [token.item], tokens + {token};
    }

    /** Give the token loc, in slot j, the priority v and the payload x. */
    method Rewrite(loc: Locator<T>, j: nat, v: int, x: T)
      requires Coherent() && j < |pq| && pq[j] == loc
      modifies this`vals, this`items, loc`value, loc`item
      ensures Coherent() && pq == old(pq) && vals == old(vals)[j := v]
      ensures loc.value == v && loc.item == x
      ensures multiset(items) == multiset(old(items)) - multiset{old(items[j])} + multiset{x}
    {
      loc.value, loc.item := v, x;
      vals, items := vals[j := v], items[j := x];
    }

    /** Drop the last slot (the list's pop); its token is no longer live and keeps its old slot number. */
    method PopLast() returns (loc: Locator<T>)
      requires Coherent() && |pq| > 0
      modifies this`pq, this`vals, this`items, this`tokens
      ensures Coherent()
      ensures loc == old(pq[|pq| - 1]) && loc.index == |pq|
      ensures pq == old(pq[..|pq| - 1]) && vals == old(vals[..|pq| - 1])
      ensures tokens == old(tokens) - {loc}
      ensures multiset(items) == multiset(old(items)) - multiset{loc.item}
    {
      var last := |pq| - 1;
      loc := pq[last];
      DropLast(items);
      pq, vals, items, tokens := pq[..last], vals[..last], items[..last], tokens - {loc};
      forall k | 0 <= k < |pq|
        ensures pq[k] in tokens
      {
        assert pq[k] == old(pq)[k] && pq[k].index == k;
      }
      forall l | l in tokens
        ensures l.index < |pq|
      {
        assert old(pq)[l.index] == l;
      }
    }

    /** Swap slot j with the last slot and drop the last slot, returning the token that was in slot j. */
    method SwapOut(j: nat) returns (loc: Locator<T>)
      requires Coherent() && j < |pq|
      modifies this`pq, this`vals, this`items, this`tokens, tokens`index
      ensures Coherent()
      ensures loc == old(pq[j]) && loc.index == |pq|
      ensures pq == old(Swapped(pq, j, |pq| - 1)[..|pq| - 1]) && vals == old(Swapped(vals, j, |vals| - 1)[..|vals| - 1])
      ensures tokens == old(tokens) - {loc}
      ensures multiset(items) == multiset(old(items)) - multiset{loc.item}
    {
      Swap(j, |pq| - 1);
      loc := PopLast();
    }

    /** Move the token in slot i towards the root while it is better than its parent. */
    method UpHeap(i: nat)
      requires Coherent() && SiftUpReady(vals, isMax, i)
      modifies this`pq, this`vals, this`items, tokens`index
      ensures Coherent() && |pq| == old(|pq|)
      ensures multiset(items) == multiset(old(items))
      ensures old(SiftsUp(vals, isMax, i)) ==> IsHeap(vals, isMax)
      ensures !old(SiftsUp(vals, isMax, i)) ==> pq == old(pq) && vals == old(vals) && items == old(items)
      decreases i
    {
      if i > 0 && Better(isMax, pq[i].value, pq[Parent(i)].value) {
        var p := Parent(i);
        UpStep(vals, isMax, i);
        Swap(i, p);
        if !SiftsUp(vals, isMax, p) {
          UpStop(vals, isMax, p);
        }
        UpHeap(p);
      }
    }

    /**
     * Move the token in slot i towards the leaves while a child is better,
     * always swapping with the better child. Heap order then holds on every
     * edge below slot lo (lo = 0 for the whole heap).
     */
    method DownHeap(i: nat, ghost lo: nat)
      requires Coherent() && SiftDownReady(vals, isMax, i, lo)
      modifies this`pq, this`vals, this`items, tokens`index
      ensures Coherent() && |pq| == old(|pq|)
      ensures multiset(items) == multiset(old(items))
      ensures HeapFrom(vals, isMax, lo)
      ensures !old(SiftsDown(vals, isMax, i)) ==> pq == old(pq) && vals == old(vals) && items == old(items)
      decreases |pq| - i
    {
      var n := |pq|;
      var left, right := Left(i), Right(i);
      if left < n {
        var child := left;
        if right < n && Better(isMax, pq[right].value, pq[left].value) {
          child := right;
        }
        if Better(isMax, pq[child].value, pq[i].value) {
          DownStep(vals, isMax, i, child, lo);
          Swap(i, child);
          DownHeap(child, lo);
        } else {
          DownStop(vals, isMax, i, lo);
        }
      } else {
        DownStop(vals, isMax, i, lo);
      }
    }

    /** Restore heap order around slot i: sift up, then sift down. */
    method Fix(i: nat)
      requires Coherent() && SiftUpReady(vals, isMax, i)
      modifies this`pq, this`vals, this`items, tokens`index
      ensures Valid() && |pq| == old(|pq|)
      ensures multiset(items) == multiset(old(items))
    {
      ghost var moves := SiftsUp(vals, isMax, i);
      UpHeap(i);
      if moves {
        HeapDownReady(vals, isMax, i);
      } else {
        FixGoesDown(vals, isMax, i);
      }
      DownHeap(i, 0);
    }

    /** Establish heap order: sift down every slot from the parent of the last one back to the root. */
    method Heapify()
      requires Coherent() && |pq| > 1
      modifies this`pq, this`vals, this`items, tokens`index
      ensures Valid() && |pq| == old(|pq|)
      ensures multiset(items) == multiset(old(items))
    {
      var start := Parent(|pq| - 1);
      HeapifyStart(vals, isMax);
      var j: int := start;
      while j >= 0
        invariant -1 <= j <= start
        invariant Coherent() && |pq| == old(|pq|)
        invariant multiset(items) == multiset(old(items))
        invariant HeapFrom(vals, isMax, j + 1)
      {
        DownHeap(j, j);
        j := j - 1;
      }
    }

    /** Insert item with priority key(item); return its token. */
    method Append(item: T) returns (token: Locator<T>)
      requires Valid()
      modifies this`pq, this`vals, this`items, this`tokens, tokens`index
      ensures Valid()
      ensures fresh(token) && token.value == key(item) && token.item == item
      ensures tokens == old(tokens) + {token} && IsLive(token) && |pq| == old(|pq|) + 1
      ensures old(Keyed()) ==> Keyed()
      ensures multiset(items) == multiset(old(items)) + multiset{item}
    {
      token := new Locator(key(item), item, |pq|);
      Insert(token);
    }

    /** Put token, not yet live and recording the next free slot, at the end and sift it up. */
    method Insert(token: Locator<T>)
      requires Valid() && token !in tokens && token.index == |pq|
      modifies this`pq, this`vals, this`items, this`tokens, tokens`index, token`index
      ensures Valid()
      ensures tokens == old(tokens) + {token} && IsLive(token) && |pq| == old(|pq|) + 1
      ensures multiset(items) == multiset(old(items)) + multiset{token.item}
    {
      AppendReady(vals, isMax, token.value);
      PushLast(token);
      SiftUpLast();
      LiveIffToken(token);
    }

    /** Sift the token in the last slot up; only that slot may be out of heap order. */
    method SiftUpLast()
      requires Coherent() && |pq| > 0 && SiftUpReady(vals, isMax, |pq| - 1)
      modifies this`pq, this`vals, this`items, tokens`index
      ensures Valid() && |pq| == old(|pq|)
      ensures multiset(items) == multiset(old(items))
    {
      if !SiftsUp(vals, isMax, |pq| - 1) {
        UpStop(vals, isMax, |pq| - 1);
      }
      UpHeap(|pq| - 1);
    }

    /**
     * Give the live token loc the priority newValue and the payload newItem,
     * then restore heap order around it. A token that is not live is
     * rejected before anything changes.
     */
    method Update(loc: Locator<T>, newValue: int, newItem: T) returns (r: Result<()>)
      requires Valid()
      modifies this`pq, this`vals, this`items, tokens`index, loc`value, loc`item
      ensures Valid()
      ensures r.Ok? <==> old(IsLive(loc))
      ensures r.Err? ==> Untouched() && unchanged(loc)
      ensures r.Ok? ==> loc.value == newValue && loc.item == newItem && IsLive(loc) && tokens == old(tokens)
      ensures r.Ok? ==> multiset(items) == multiset(old(items)) - multiset{old(loc.item)} + multiset{newItem}
    {
      var j := loc.index;
      if !IsLive(loc) {
        return Err(InvalidLocator);
      }
      ReplaceReady(vals, isMax, j, newValue);
      Rewrite(loc, j, newValue, newItem);
      Fix(j);
      LiveIffToken(loc);
      r := Ok(());
    }

    /**
     * Remove the live token loc and return its payload. A token that is
     * not live is rejected before anything changes.
     */
    method Remove(loc: Locator<T>) returns (r: Result<T>)
      requires Valid()
      modifies this`pq, this`vals, this`items, this`tokens, tokens`index
      ensures Valid()
      ensures r.Ok? <==> old(IsLive(loc))
      ensures r.Err? ==> Untouched()
      ensures r.Ok? ==> r.value == loc.item && tokens == old(tokens) - {loc}
      ensures r.Ok? ==> loc.index == |pq| && !IsLive(loc) && |pq| == old(|pq|) - 1
      ensures r.Ok? ==> multiset(items) == multiset(old(items)) - multiset{r.value}
      ensures old(Keyed()) ==> Keyed()
    {
      var j := loc.index;
      if !IsLive(loc) {
        return Err(InvalidLocator);
      }
      if j == |pq| - 1 {
        DropLastReady(vals, isMax);
        var _ := PopLast();
      } else {
        RemoveAt(j);
      }
      r := Ok(loc.item);
    }

    /** Remove the token in slot j, not the last one: swap it with the last slot, drop that and restore heap order around slot j. */
    method RemoveAt(j: nat)
      requires Valid() && j < |pq| - 1
      modifies this`pq, this`vals, this`items, this`tokens, tokens`index
      ensures Valid()
      ensures tokens == old(tokens) - {old(pq[j])} && old(pq[j]).index == |pq| && |pq| == old(|pq|) - 1
      ensures multiset(items) == multiset(old(items)) - multiset{old(items[j])}
    {
      ghost var vs := vals;
      var _ := SwapOut(j);
      RemoveReady(vs, isMax, j);
      Fix(j);
    }

    /** The payload of a token with extremal priority, without changing the queue. */
    function Peek(): (item: T)
      reads this, tokens
      requires Valid() && |pq| > 0
      ensures item == pq[0].item
      ensures forall l :: l in tokens ==> Ordered(isMax, pq[0].value, l.value)
    {
      RootIsExtremalAll(vals, isMax);
      pq[0].item
    }

    /** Remove a token with extremal priority and return its payload. */
    method Pop() returns (item: T)
      requires Valid() && |pq| > 0
      modifies this`pq, this`vals, this`items, this`tokens, tokens`index
      ensures Valid()
      ensures item == old(Peek())
      ensures forall l :: l in old(tokens) ==> Ordered(isMax, old(pq[0].value), old(l.value))
      ensures forall l :: l in tokens ==> Ordered(isMax, old(pq[0].value), l.value)
      ensures tokens == old(tokens) - {old(pq[0])} && !IsLive(old(pq[0])) && |pq| == old(|pq|) - 1
      ensures old(Keyed()) ==> Keyed() && key(item) == old(pq[0].value)
      ensures multiset(items) == multiset(old(items)) - multiset{item}
    {
      ghost var vs := vals;
      var loc := SwapOut(0);
      PopReady(vs, isMax);
      DownHeap(0, 0);
      item := loc.item;
    }

    /**
     * Pop until the queue is empty. On a queue whose priorities come from
     * its key, the payloads come out in priority order (smallest first for
     * a min-queue, largest first for a max-queue), each payload once.
     */
    method Drain() returns (out: seq<T>)
      requires Valid() && Keyed()
      modifies this`pq, this`vals, this`items, this`tokens, tokens`index
      ensures Valid() && pq == [] && tokens == {}
      ensures multiset(out) == multiset(old(items))
      ensures InOrder(out, key, isMax)
    {
      out := [];
      while |pq| > 0
        invariant Valid() && Keyed() && tokens <= old(tokens)
        invariant multiset(out) + multiset(items) == multiset(old(items))
        invariant InOrder(out, key, isMax)
        invariant |out| > 0 ==> forall l :: l in tokens ==> Ordered(isMax, key(out[|out| - 1]), l.value)
        decreases |pq|
      {
        ghost var top, live, bag := pq[0], tokens, multiset(items);
        assert top.item == items[0];
        var x := Pop();
        MoveOne(multiset(out), bag, x);
        if |out| > 0 {
          assert top in live;
        }
        InOrderSnoc(out, x, key, isMax);
        out := out + [x];
      }
      TokenCount();
    }

    /** The number of live tokens. */
    function Len(): (n: nat)
      reads this, tokens
      requires Coherent()
      ensures n == |items| && n == |tokens|
    {
      TokenCount();
      |pq|
    }

    /** The live tokens are as many as the slots. */
    lemma TokenCount()
      requires Coherent()
      ensures |tokens| == |pq|
    {
      forall a, b | 0 <= a < b < |pq|
        ensures pq[a] != pq[b]
      {
        assert pq[a].index == a && pq[b].index == b;
      }
      DistinctCard(pq);
      assert tokens == set l | l in pq;
    }

    /** Whether x is the payload of some live token (a linear scan). */
    function Contains(x: T): (b: bool)
      reads this, set l | l in pq
      ensures b <==> exists k :: 0 <= k < |pq| && pq[k].item == x
    {
      x in Items()
    }

    /**
     * The payloads of the live tokens sorted by the payloads' own order:
     * ascending for a min-queue, descending for a max-queue.
     */
    function Iter(le: (T, T) -> bool): (r: seq<T>)
      reads this, set l | l in pq
      requires TotalOrder(le)
      ensures multiset(r) == multiset(Items())
      ensures !isMax ==> Ascending(r, le)
      ensures isMax ==> Descending(r, le)
    {
      var sorted := Sort(Items(), le);
      if isMax then
        ReverseDescending(sorted, le);
        Reverse(sorted)
      else
        sorted
    }
  }
}
