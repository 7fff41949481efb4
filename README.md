# Locator-based priority queue and the skyline sweep

This project models `priorityqueue.py`, a binary-heap priority queue with
removal and priority update in O(log n). It works through the *locator*
(token) that `append` returns. It also models the queue's client in
`example.py`, which solves the UVa "Skyline" problem. Dafny proves the
properties below about the model.

- `HeapOrder` (`heap_order.dfy`) holds the array layout of the implicit
  binary tree (`_parent`, `_left`, `_right`) and heap order over the
  priorities in the slots. One engine serves `MinHeapPriorityQueue` and
  `MaxHeapPriorityQueue`: the flag `isMax` picks the orientation, where
  the source overrides `_upheap`, `_downheap` and `__iter__`. The module
  also holds one step lemma for each swap of a sift.
- `Sorting` (`sorting.dfy`) holds the sort behind `__iter__`: payloads
  sorted by their own order, ascending for the min-queue, reversed for
  the max-queue.
- `PriorityQueues` (`priority_queue.dfy`) holds two classes.
  - `Locator` has the fields `value`, `item` and `index`.
  - `PriorityQueue` keeps its tokens in the field `pq` and updates it in
    place, as the Python list `_pq` is. Its ghost fields are `vals` (the
    priority in each slot), `items` (the payload in each slot) and
    `tokens` (the live tokens).
  - `Valid()` is its object invariant: every live token records its own
    slot, and the slots are in heap order.
  - Every public method (`append`, `update`, `remove`, `peek`, `pop`,
    `items`, `__len__`, `__contains__`, `__iter__`) and every private one
    (`_swap`, `_upheap`, `_downheap`, `_fix`, `_heapify`) is a member of
    the class.
- `Skylines` (`skyline.dfy`) has two parts.
  - The first part defines what the answer is. `HeightAt` is the height
    of the tallest building standing at x, or 0 for the ground.
    `SkylineOf` is the list of points, left to right, at the building
    edges where that height changes.
  - The second part is the sweep of `skyline(buildings)` as an imperative
    method. It uses a max-queue keyed by height, a `locs` map from
    building to token, the `floor` building and the result list. The
    method is proved to return `SkylineOf(buildings)`.
  - The check at the bottom of `example.py` (`skyline(INPUT) == OUTPUT`)
    is proved as a lemma.

Python's `ValueError('Invalid locator')` becomes `Err(InvalidLocator)` of a
`Result`. Python's `set` and `defaultdict(list)` iterate in an order the
program does not fix. The model therefore picks the next building with
`:|`, and every property is proved for every such order.

## Model

| member | source | states |
|---|---|---|
| HeapOrder.Parent | priorityqueue.py:119-120 | the parent of a non-root slot j is a smaller slot p with j = 2p+1 or j = 2p+2 |
| HeapOrder.Left | priorityqueue.py:122-123 | the left child of j is past j and has j as its parent |
| HeapOrder.Right | priorityqueue.py:125-126 | the right child sits just after the left one and has j as its parent |
| HeapOrder.SwappedPermutes | priorityqueue.py:128-133 | exchanging two slots keeps the same multiset of elements |
| HeapOrder.HeapIffChildrenChecked | priorityqueue.py:259-277 | heap order on the parent edges holds exactly when every slot is ordered above both its children (the check `verify`/`verify_max` runs), both directions |
| HeapOrder.RootIsExtremal | priorityqueue.py:192-195 | in a heap, slot 0 is ordered above every slot, so `peek` sees a smallest (min) or largest (max) priority |
| HeapOrder.UpStep | priorityqueue.py:135-139 | one swap of `_upheap` with a better child keeps heap order everywhere except around the parent slot it moved to |
| HeapOrder.UpStop | priorityqueue.py:135-139 | when `_upheap` stops (root reached or not better than the parent), heap order holds everywhere |
| HeapOrder.DownStep | priorityqueue.py:141-150 | one swap of `_downheap` with the better child keeps heap order except below that child |
| HeapOrder.DownStop | priorityqueue.py:141-150 | when `_downheap` stops (no child better than the slot), heap order holds on every edge from `lo` down |
| HeapOrder.FixGoesDown | priorityqueue.py:152-154 | if `_upheap` in `_fix` does not move, `_downheap` starts from a slot that is ready for it |
| HeapOrder.HeapifyStart | priorityqueue.py:156-159 | every slot past the parent of the last slot is a leaf, so `_heapify` starts with heap order below its first slot |
| HeapOrder.AppendReady | priorityqueue.py:163-167 | a new last slot on a heap breaks heap order only at that slot, so an upward sift repairs it |
| HeapOrder.ReplaceReady | priorityqueue.py:170-177 | overwriting one slot's priority leaves that slot ready for `_fix` |
| HeapOrder.RemoveReady | priorityqueue.py:184-189 | swapping slot j with the last slot and dropping the last leaves slot j ready for `_fix` |
| HeapOrder.DropLastReady | priorityqueue.py:184-185 | dropping the last slot of a heap leaves a heap |
| HeapOrder.PopReady | priorityqueue.py:197-201 | swapping the root with the last slot and dropping the last leaves the root ready for `_downheap` |
| HeapOrder.TinyHeap | priorityqueue.py:88-89 | a queue of at most one entry needs no heapify: it is already a heap |
| Sorting.Insert | priorityqueue.py:214-215 | inserting into an ascending sequence gives an ascending permutation of the old sequence plus the new element |
| Sorting.Sort | priorityqueue.py:214-215 | `sorted(...)` returns an ascending permutation of its input |
| Sorting.Reverse | priorityqueue.py:252-253 | `reverse=True` gives the same elements in reverse order |
| Sorting.ReverseDescending | priorityqueue.py:252-253 | reversing an ascending sequence gives a descending one |
| Sorting.AscendingPermutationUnique | priorityqueue.py:214-215 | two ascending permutations of the same elements are equal, so the sorted order is unique |
| PriorityQueues.Locator.constructor | priorityqueue.py:91-98 | a token records the given priority, payload and slot |
| PriorityQueues.ItemsOf | priorityqueue.py:204-206 | the payloads of a list of tokens, position by position |
| PriorityQueues.Decorate | priorityqueue.py:86-87 | the i-th new token is fresh and records `key(xs[i])`, `xs[i]` and slot i |
| PriorityQueues.PriorityQueue.constructor | priorityqueue.py:84-89 | the new queue is valid, keyed by `key`, holds exactly the given payloads (as a multiset), and every token records `key(item)` |
| PriorityQueues.PriorityQueue.Items | priorityqueue.py:204-206 | the payloads of the queue, slot by slot |
| PriorityQueues.PriorityQueue.IsLive | priorityqueue.py:182 | the locator check passes only for a token that sits in one of the slots |
| PriorityQueues.PriorityQueue.LiveIffToken | priorityqueue.py:181-183 | the locator check (slot in range and that slot holds this very token) passes exactly for the live tokens |
| PriorityQueues.PriorityQueue.Swap | priorityqueue.py:128-133 | the two slots exchange tokens and both tokens record their new slots; payloads are a permutation |
| PriorityQueues.PriorityQueue.PushLast | priorityqueue.py:166 | the token becomes the last slot and is live; the payloads gain its item |
| PriorityQueues.PriorityQueue.Rewrite | priorityqueue.py:175-176 | the token keeps its slot and now holds the new priority and payload; the payloads lose the old one and gain the new one |
| PriorityQueues.PriorityQueue.PopLast | priorityqueue.py:185 | the last slot is dropped; its token is no longer live and still records its old slot, now one past the end |
| PriorityQueues.PriorityQueue.SwapOut | priorityqueue.py:187-188 | the token of slot j changes places with the last one and is dropped; exactly it leaves the live tokens and its payload leaves the payloads |
| PriorityQueues.PriorityQueue.UpHeap | priorityqueue.py:135-139 | in either orientation (the max-queue's override is at lines 235-239), from a state ready for an upward sift, with the same payloads: if the slot sifts up, the queue is a heap again; otherwise nothing changes |
| PriorityQueues.PriorityQueue.DownHeap | priorityqueue.py:141-150 | in either orientation (the max-queue's override is at lines 241-250), from a state ready for a downward sift, heap order holds from `lo` down, with the same payloads; if no child is better than the slot, nothing changes |
| PriorityQueues.PriorityQueue.Fix | priorityqueue.py:152-154 | from a state ready for a fix at slot i, the queue is valid again, with the same payloads |
| PriorityQueues.PriorityQueue.Heapify | priorityqueue.py:156-159 | any coherent arrangement becomes a heap with the same payloads |
| PriorityQueues.PriorityQueue.Append | priorityqueue.py:163-168 | a fresh live token carrying `key(item)` and `item` is added; the other tokens stay live; payloads gain `item` |
| PriorityQueues.PriorityQueue.Insert | priorityqueue.py:165-167 | a token placed in the next slot is added and sifted up; the queue stays valid |
| PriorityQueues.PriorityQueue.SiftUpLast | priorityqueue.py:167 | sifting up the newly added last slot leaves a valid queue with the same payloads |
| PriorityQueues.PriorityQueue.Update | priorityqueue.py:170-177 | succeeds exactly for a live token; then the token holds the new priority and payload and the queue is valid; otherwise nothing changes |
| PriorityQueues.PriorityQueue.Remove | priorityqueue.py:179-190 | succeeds exactly for a live token; then it returns its payload, the token is no longer live, the others stay live, and the queue stays valid; otherwise nothing changes |
| PriorityQueues.PriorityQueue.RemoveAt | priorityqueue.py:186-189 | removing a slot other than the last swaps it with the last, drops it and restores heap order |
| PriorityQueues.PriorityQueue.Peek | priorityqueue.py:192-195 | returns the payload of a token whose priority is ordered above that of every live token |
| PriorityQueues.PriorityQueue.Pop | priorityqueue.py:197-202 | returns what `peek` returned, whose priority is ordered above every old and every remaining token; exactly that token leaves |
| PriorityQueues.PriorityQueue.Drain | priorityqueue.py:333-341 | popping until empty yields every payload once, in priority order |
| PriorityQueues.PriorityQueue.Len | priorityqueue.py:208-209 | the length counts the payloads and equals the number of live tokens |
| PriorityQueues.PriorityQueue.TokenCount | priorityqueue.py:208-209 | the live tokens are as many as the slots (no token sits in two slots) |
| PriorityQueues.PriorityQueue.Contains | priorityqueue.py:211-212 | `x in pq` exactly when some slot carries payload x |
| PriorityQueues.PriorityQueue.Iter | priorityqueue.py:214-215 | iteration yields the payloads as a permutation, ascending for a min-queue and descending for a max-queue (the override at lines 252-253) |
| Skylines.BuildingSet | example.py:39-40 | a building is in the set exactly when some input triple describes it (duplicates collapse) |
| Skylines.Edges | example.py:42-45 | the significant x values are exactly the lefts and rights of the buildings |
| Skylines.HeightAtIsTallest | example.py:8-10 | the height at x is at least that of every building covering x, and is either the ground (0) or the height of one of those buildings |
| Skylines.HeightAtUnique | example.py:8-10 | any value meeting that description is the height at x |
| Skylines.TallestInIsHeight | example.py:16-26 | the naive max over a list of buildings computes the same height at every x |
| Skylines.SortedSet | example.py:56 | `sorted(xs)` lists every key once, strictly increasing |
| Skylines.IncreasingUnique | example.py:56 | two strictly increasing lists of the same values are equal |
| Skylines.CompressKeeps | example.py:64-66 | the points kept are among the samples, and left-to-right order is kept |
| Skylines.CompressChanges | example.py:64-66 | every kept point changes the height from the point kept before it |
| Skylines.CompressDescribes | example.py:64-66 | reading the kept points back at any sampled x gives the sample's height |
| Skylines.OutlineIncreasing | example.py:56-67 | the outline's points lie strictly left to right |
| Skylines.OutlineHeights | example.py:63-66 | every outline point sits on a scanned x and records the true height there |
| Skylines.OutlineDescribes | example.py:56-67 | reading the outline back at every scanned x gives the true height |
| Skylines.SkylineShape | example.py:8-10 | the skyline's points are on building edges, strictly left to right, record the true height, and each changes the height |
| Skylines.SkylineEverywhere | example.py:8-10 | reading the skyline back at any x whatever gives the height of the tallest building standing there |
| Skylines.GroupByEdges | example.py:42-45 | every edge is a key, and each key lists, once each, exactly the buildings that start or end there, where `Get` is the `defaultdict(list)` read |
| Skylines.MaxRight | example.py:52 | returns the rightmost right edge: no building ends past it, and one ends there |
| Skylines.Start | example.py:48-53 | a fresh max-queue keyed by height that holds just the floor building, of height 0, starting at 0 and reaching exactly to the rightmost right edge, with `locs[floor]` its locator |
| Skylines.Enter | example.py:58-59 | appending a starting building keeps the queue tracking exactly the standing buildings plus the floor |
| Skylines.Leave | example.py:60-62 | removing an ending building through its locator succeeds and keeps the queue tracking the standing buildings minus it |
| Skylines.Visit | example.py:57-62 | after one x's group, the standing buildings are the old ones plus those starting at x minus those ending at x |
| Skylines.SweepStep | example.py:56-62 | at the i-th sorted edge, starting buildings are not standing yet, ending ones are, and afterwards exactly the buildings covering x stand |
| Skylines.PeekIsHeight | example.py:63 | while the queue tracks the buildings covering x, its top height is the height of the skyline at x |
| Skylines.OutlineStep | example.py:63-66 | with h the true height at x, appending (x, h) exactly when h differs from the last recorded height turns the result over the first i edges into the result over i+1 edges |
| Skylines.Scan | example.py:57-66 | one round of the outer loop extends the result to the outline over one more sorted edge |
| Skylines.Prepare | example.py:39-56 | deduplicated buildings, their groups by edge and the sorted edges, whose outline is the skyline of the input |
| Skylines.Sweep | example.py:55-66 | the loop returns (0, 0) followed by the outline over all sorted edges |
| Skylines.Skyline | example.py:38-67 | `skyline(buildings)` returns exactly `SkylineOf(buildings)` |
| Skylines.UvaExample | example.py:70-73 | `skyline(INPUT) == OUTPUT` for the eight buildings of the UVa problem |

## Left out

- `__repr__` of the queue and of `Locator`, the module doctest driver and
  the benchmark in `example.py`: they print, time or draw random numbers,
  and compute nothing the model uses.
- `Locator.__eq__`, `__lt__` and `__le__` compare priorities. The model
  compares the `value` fields directly. Priorities are `int`, so values
  of other types, or values that cannot be compared, are not modelled.
- PriorityQueues.PriorityQueue.Peek: Python's `peek` on an empty queue
  raises `IndexError`. The model requires a non-empty queue instead.
- PriorityQueues.PriorityQueue.Pop: the same applies to `pop`, whose
  `_swap(0, -1)` raises `IndexError` on an empty queue.
- PriorityQueues.PriorityQueue.Update: `update` stores the caller's new
  priority without recomputing `key(newItem)`. The model does the same,
  so after `update` the invariant `Keyed()` (every priority equals its
  payload's key) may no longer hold.
- PriorityQueues.PriorityQueue.Drain: it needs `Keyed()` to state its
  order in terms of `key`. After an `update` that broke `Keyed()`, the
  order is still by priority, but this is not stated.
- Which of several entries with equal priority comes out first depends
  on the slot positions. The contracts only say that the entry is
  extremal. The exact slot layouts shown by the doctests (e.g. `index=2`
  at priorityqueue.py:322-323) are not replayed.
- The concrete doctest scenarios (priorityqueue.py:293-364) are not
  replayed on their data. Their general forms are the contracts of `Pop`,
  `Peek`, `Append`, `Remove`, `Update`, `Len`, `Contains` and `Drain`.
- Sorting.Sort: Python's `sorted` is a stable merge sort. The model uses
  insertion sort. Only the result matters here, and
  `AscendingPermutationUnique` shows the result is the same.
- Amortised list growth and the running times in the docstrings: the
  model has no notion of cost.
- Skylines.Skyline: it requires a non-empty input, because
  `max(b.right for b in bs)` at example.py:52 raises `ValueError` on an
  empty set. It also requires `left < right` for every building, as the
  UVa problem guarantees. The Python code does not check that condition.
  A building with `left == right` is filed twice under one key, and is
  appended twice and never removed. A building with `left > right` meets
  its right edge first, and `locs[b]` then raises `KeyError`.
- Skylines.Skyline: the one Python function is split into `Prepare`,
  `Start`, `Sweep`, `Scan`, `Visit`, `Enter` and `Leave`, which run in
  the same order as the Python statements. The iteration order of the
  set `bs` and of each `xs[x]` list is a nondeterministic choice, and
  the result is proved to be the same for every choice.
