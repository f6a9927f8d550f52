/**
  The collaborators shared by the three bucket aggregators: the ordinal hash
  table (LongHash), the per-ordinal document counts and the sub-aggregator
  delegation kept by BucketsAggregator, and the bounded priority queue used to
  prune the bucket set to the top shard_size buckets.

  None of these collaborators' sources is part of this model; each is given
  the abstract contract the aggregators rely on.
*/
module Buckets {

  import opened Wrappers

  /** Doc count of an ordinal that lost the top-K competition. */
  const PRUNED: int := -1

  function Min(a: int, b: int): int { if a <= b then a else b }

  // ---------------------------------------------------------------------
  // Orders and pruning candidates
  // ---------------------------------------------------------------------

  /** The built-in bucket orders (InternalOrder); the aggregation-based orders are not modelled. */
  datatype Order = CountDesc | CountAsc | TermAsc | TermDesc

  /** The kind of term an aggregator's buckets carry: a long, or a double given by its 64-bit pattern. */
  datatype Terms = Longs | Doubles

  /** order.comparator(aggregator): an order applied to the terms of one kind of aggregator. */
  datatype Comparator = Comparator(order: Order, terms: Terms)

  const TwoTo63: int := 0x8000_0000_0000_0000

  /** The bits of a 64-bit pattern (read as a signed long) below the sign bit. */
  function Magnitude(k: int): int {
    if k < 0 then k + TwoTo63 else k
  }

  /**
    The place of a term in ascending term order. A long is its own rank. A
    double is keyed by its pattern read as a signed long; with the sign bit
    clear, patterns rise with the value (+0.0 up to +Infinity), but with the
    sign bit set a larger pattern is a larger magnitude, that is a smaller
    value, so those patterns are mirrored: -0.0 ranks just below +0.0 and
    every negative double below every positive one (DoubleRankIsSignMagnitude).
    Integers below -2^63 are not 64-bit patterns and keep their value.
  */
  function TermRank(terms: Terms, k: int): int {
    match terms
    case Longs => k
    case Doubles => if -TwoTo63 <= k < 0 then -TwoTo63 - 1 - k else k
  }

  /** Different terms have different ranks. */
  lemma TermRankInjective(terms: Terms, j: int, k: int)
    ensures TermRank(terms, j) == TermRank(terms, k) ==> j == k
  {
  }

  /**
    Double ranks follow the values of the doubles: two negative doubles rank
    by decreasing magnitude, a set sign bit ranks below a clear one, and two
    non-negative doubles rank by increasing magnitude.
  */
  lemma DoubleRankIsSignMagnitude(j: int, k: int)
    requires -TwoTo63 <= j < TwoTo63 && -TwoTo63 <= k < TwoTo63
    ensures TermRank(Doubles, j) < TermRank(Doubles, k) <==>
      if j < 0 && k < 0 then Magnitude(j) > Magnitude(k)
      else if j < 0 || k < 0 then j < 0
      else Magnitude(j) < Magnitude(k)
  {
  }

  /** A pruning candidate: the bucket's key, its doc count and its ordinal. */
  datatype Bucket = Bucket(key: int, docCount: int, ord: int)

  /**
    A bucket keyed `ak` with count `ac` ranks strictly above one keyed `bk`
    with count `bc`; terms compare by their rank, and ties on the count are
    broken by the term.
  */
  predicate RanksAbove(cmp: Comparator, ak: int, ac: int, bk: int, bc: int) {
    var a, b := TermRank(cmp.terms, ak), TermRank(cmp.terms, bk);
    match cmp.order
    case CountDesc => ac > bc || (ac == bc && a < b)
    case CountAsc => ac < bc || (ac == bc && a < b)
    case TermAsc => a < b
    case TermDesc => a > b
  }

  predicate Precedes(cmp: Comparator, a: Bucket, b: Bucket) {
    RanksAbove(cmp, a.key, a.docCount, b.key, b.docCount)
  }

  /** Precedes is a strict total order on buckets with distinct keys. */
  lemma PrecedesStrictTotal(cmp: Comparator, a: Bucket, b: Bucket, c: Bucket)
    ensures !Precedes(cmp, a, a)
    ensures Precedes(cmp, a, b) ==> !Precedes(cmp, b, a)
    ensures Precedes(cmp, a, b) && Precedes(cmp, b, c) ==> Precedes(cmp, a, c)
    ensures a.key != b.key ==> Precedes(cmp, a, b) || Precedes(cmp, b, a)
  {
    TermRankInjective(cmp.terms, a.key, b.key);
  }

  // ---------------------------------------------------------------------
  // Doc counts (BucketsAggregator)
  // ---------------------------------------------------------------------

  /** bucketDocCount: an ordinal the count array does not reach yet has count 0. */
  function DocCount(counts: seq<int>, ord: nat): int {
    if ord < |counts| then counts[ord] else 0
  }

  /** The count array grown to at least `n` entries, new entries 0. */
  function Grow(counts: seq<int>, n: nat): (r: seq<int>)
    ensures |r| == if n <= |counts| then |counts| else n
    ensures forall o: nat :: DocCount(r, o) == DocCount(counts, o)
  {
    if n <= |counts| then counts else counts + seq(n - |counts|, _ => 0)
  }

  /** collectBucket's count update: one more document in bucket `ord`. */
  function Increment(counts: seq<int>, ord: nat): (r: seq<int>)
    ensures |r| == if ord < |counts| then |counts| else ord + 1
    ensures DocCount(r, ord) == DocCount(counts, ord) + 1
    ensures forall o: nat :: o != ord ==> DocCount(r, o) == DocCount(counts, o)
  {
    var g := Grow(counts, ord + 1);
    g[ord := DocCount(counts, ord) + 1]
  }

  /** clearDocCount: marks `ord` as pruned, leaving every other count alone. */
  function Clear(counts: seq<int>, ord: nat): (r: seq<int>)
    ensures |r| == if ord < |counts| then |counts| else ord + 1
    ensures DocCount(r, ord) == PRUNED
    ensures forall o: nat :: o != ord ==> DocCount(r, o) == DocCount(counts, o)
  {
    Grow(counts, ord + 1)[ord := PRUNED]
  }

  /** One call into the sub-aggregators: document `doc` collected for bucket `ord`. */
  datatype Delegation = Delegation(doc: int, ord: int)

  /**
    bucketAggregations(ord), abstractly: the documents the sub-aggregators saw
    for `ord`, in the order they were handed over. Every delegation for `ord`
    contributes its document once and no other delegation contributes
    (DocsForCounts); the log order is kept (DocsForAppend).
  */
  function DocsFor(log: seq<Delegation>, ord: int): (docs: seq<int>)
    ensures |docs| <= |log|
    ensures forall d :: d in docs <==> Delegation(d, ord) in log
    ensures forall d :: multiset(docs)[d] == multiset(log)[Delegation(d, ord)]
  {
    if log == [] then []
    else
      var rest := DocsFor(log[..|log| - 1], ord);
      var last := log[|log| - 1];
      assert log == log[..|log| - 1] + [last];
      if last.ord == ord then rest + [last.doc] else rest
  }

  /** The documents for `ord` of two logs in a row are those of the first followed by those of the second. */
  lemma {:induction false} DocsForAppend(log1: seq<Delegation>, log2: seq<Delegation>, ord: int)
    ensures DocsFor(log1 + log2, ord) == DocsFor(log1, ord) + DocsFor(log2, ord)
    decreases |log2|
  {
    if log2 == [] {
      assert log1 + log2 == log1;
    } else {
      var init, last := log2[..|log2| - 1], log2[|log2| - 1];
      assert (log1 + log2)[..|log1 + log2| - 1] == log1 + init;
      assert (log1 + log2)[|log1 + log2| - 1] == last;
      DocsForAppend(log1, init, ord);
      if last.ord == ord {
        assert DocsFor(log1, ord) + (DocsFor(init, ord) + [last.doc]) == DocsFor(log1, ord) + DocsFor(init, ord) + [last.doc];
      }
    }
  }

  // ---------------------------------------------------------------------
  // Keys and ordinals
  // ---------------------------------------------------------------------

  ghost predicate DistinctKeys(keys: seq<int>) {
    forall i, j :: 0 <= i < j < |keys| ==> keys[i] != keys[j]
  }

  /** The ordinal of `k` in a table whose ordinal-to-key list is `keys`, or -1. */
  function OrdOf(keys: seq<int>, k: int): (r: int)
    ensures -1 <= r < |keys|
    ensures r >= 0 ==> keys[r] == k
    ensures r == -1 <==> k !in keys
  {
    if keys == [] then -1
    else if keys[|keys| - 1] == k then |keys| - 1
    else OrdOf(keys[..|keys| - 1], k)
  }

  /** With distinct keys, the ordinal of a key is the only index holding it. */
  lemma OrdOfUnique(keys: seq<int>, k: int, o: int)
    requires DistinctKeys(keys)
    requires 0 <= o < |keys| && keys[o] == k
    ensures OrdOf(keys, k) == o
  {
  }

  /** The ordinal list after adding key `k`: unchanged if already present, else extended. */
  function AddOne(keys: seq<int>, k: int): (r: seq<int>)
    ensures keys <= r && |r| <= |keys| + 1
    ensures forall x :: x in r <==> x in keys || x == k
  {
    if k in keys then keys else keys + [k]
  }

  /** The ordinal list after adding every value of `vals`, in order. */
  function AddAll(keys: seq<int>, vals: seq<int>): (r: seq<int>)
    decreases |vals|
  {
    if vals == [] then keys else AddOne(AddAll(keys, vals[..|vals| - 1]), vals[|vals| - 1])
  }

  /** Adding keeps every existing ordinal, creates dense new ones, keeps keys distinct and covers the values. */
  lemma {:induction false} AddAllProperties(keys: seq<int>, vals: seq<int>)
    requires DistinctKeys(keys)
    ensures keys <= AddAll(keys, vals)
    ensures DistinctKeys(AddAll(keys, vals))
    ensures forall v :: v in vals ==> v in AddAll(keys, vals)
    ensures forall k :: k in AddAll(keys, vals) ==> k in keys || k in vals
    decreases |vals|
  {
    if vals != [] {
      var init := vals[..|vals| - 1];
      AddAllProperties(keys, init);
      assert forall v :: v in vals ==> v in init || v == vals[|vals| - 1];
    }
  }

  /** Adding a key that is already present changes nothing: ordinals are stable. */
  lemma {:induction false} AddAllIdempotent(keys: seq<int>, vals: seq<int>)
    requires forall v :: v in vals ==> v in keys
    ensures AddAll(keys, vals) == keys
    decreases |vals|
  {
    if vals != [] {
      AddAllIdempotent(keys, vals[..|vals| - 1]);
    }
  }

  /** Number of occurrences of `k` in `vals`. */
  function Occurrences(vals: seq<int>, k: int): (n: nat)
    ensures n == 0 <==> k !in vals
    decreases |vals|
  {
    if vals == [] then 0
    else Occurrences(vals[..|vals| - 1], k) + if vals[|vals| - 1] == k then 1 else 0
  }


  // ---------------------------------------------------------------------
  // LongHash: the ordinal table
  // ---------------------------------------------------------------------

  /**
    An insert-or-lookup table from 64-bit keys to dense ordinals. `keys[o]` is
    the key of ordinal `o`; `ids[s]` is the ordinal stored in slot `s`, or -1
    for a free slot. The hashing that chooses a slot is not modelled: a new
    ordinal takes the first free slot and a full table doubles.
  */
  class LongHash {
    var keys: seq<int>
    var ids: seq<int>
    ghost var slotOf: seq<nat>

    ghost predicate Valid()
      reads this
    {
      && |slotOf| == |keys|
      && DistinctKeys(keys)
      && (forall s :: 0 <= s < |ids| ==> -1 <= ids[s] < |keys|)
      && (forall o :: 0 <= o < |keys| ==> slotOf[o] < |ids| && ids[slotOf[o]] == o)
      && (forall s :: 0 <= s < |ids| && ids[s] >= 0 ==> slotOf[ids[s]] == s)
    }

    constructor (capacity: nat)
      ensures Valid()
      ensures keys == [] && |ids| == capacity
    {
      keys := [];
      ids := seq(capacity, _ => -1);
      slotOf := [];
    }

    /** size(): the number of distinct keys. */
    function Size(): nat
      reads this
    {
      |keys|
    }

    /** find(key): the ordinal of `key`, or -1 when the key was never added. */
    method Find(key: int) returns (ord: int)
      requires Valid()
      ensures ord == OrdOf(keys, key)
      ensures -1 <= ord < |keys|
      ensures ord >= 0 ==> keys[ord] == key
      ensures ord == -1 <==> key !in keys
    {
      var i := |keys|;
      while i > 0
        invariant 0 <= i <= |keys|
        invariant OrdOf(keys, key) == OrdOf(keys[..i], key)
      {
        if keys[i - 1] == key {
          assert keys[..i][i - 1] == key;
          return i - 1;
        }
        assert keys[..i][..i - 1] == keys[..i - 1];
        i := i - 1;
      }
      assert keys[..0] == [];
      return -1;
    }

    /** The first free slot, or -1 when every slot is taken. */
    method FreeSlot() returns (s: int)
      requires Valid()
      ensures -1 <= s < |ids|
      ensures s >= 0 ==> ids[s] == -1
      ensures s == -1 ==> forall t :: 0 <= t < |ids| ==> ids[t] >= 0
    {
      var t := 0;
      while t < |ids|
        invariant 0 <= t <= |ids|
        invariant forall u :: 0 <= u < t ==> ids[u] >= 0
      {
        if ids[t] < 0 {
          return t;
        }
        t := t + 1;
      }
      return -1;
    }

    /**
      add(key): a new key gets the next ordinal, which is returned; a key
      already present is left alone and -1-ord is returned.
    */
    method Add(key: int) returns (r: int)
      requires Valid()
      modifies this
      ensures Valid()
      ensures keys == AddOne(old(keys), key)
      ensures key in old(keys) ==> r < 0 && -1 - r == OrdOf(keys, key)
      ensures key !in old(keys) ==> r == |old(keys)| && OrdOf(keys, key) == r
    {
      var found := Find(key);
      if found >= 0 {
        return -1 - found;
      }
      var s := FreeSlot();
      if s < 0 {
        s := |ids|;
        ids := ids + seq(|ids| + 1, _ => -1);
      }
      r := |keys|;
      ids := ids[s := r];
      keys := keys + [key];
      slotOf := slotOf + [s];
      OrdOfUnique(keys, key, r);
    }
  }

  // ---------------------------------------------------------------------
  // BucketPriorityQueue: Lucene's bounded priority queue, abstractly
  // ---------------------------------------------------------------------

  /** `heap[i]` ranks lowest among the buckets of `heap`: it is the queue's top. */
  ghost predicate IsLeast(cmp: Comparator, heap: seq<Bucket>, i: int) {
    0 <= i < |heap| && forall j :: 0 <= j < |heap| && j != i ==> Precedes(cmp, heap[j], heap[i])
  }

  ghost predicate DistinctBucketKeys(heap: seq<Bucket>) {
    forall i, j :: 0 <= i < j < |heap| ==> heap[i].key != heap[j].key
  }

  /**
    A queue of at most maxSize buckets whose top is the lowest-ranked one
    (lessThan(a, b) is "b ranks above a"). The heap layout is not modelled:
    `heap` holds the elements in no particular order.
  */
  class BucketQueue {
    const maxSize: nat
    const cmp: Comparator
    var heap: seq<Bucket>

    ghost predicate Valid()
      reads this
    {
      |heap| <= maxSize && DistinctBucketKeys(heap)
    }

    constructor (maxSize: nat, cmp: Comparator)
      ensures Valid()
      ensures this.maxSize == maxSize && this.cmp == cmp && heap == []
    {
      this.maxSize := maxSize;
      this.cmp := cmp;
      heap := [];
    }

    function Size(): nat
      reads this
    {
      |heap|
    }

    /** The position of the top (lowest-ranked) bucket. */
    method Top() returns (t: nat)
      requires Valid() && |heap| > 0
      ensures IsLeast(cmp, heap, t)
    {
      t := 0;
      var k := 1;
      while k < |heap|
        invariant 1 <= k <= |heap| && t < k
        invariant forall j :: 0 <= j < k && j != t ==> Precedes(cmp, heap[j], heap[t])
      {
        PrecedesStrictTotal(cmp, heap[k], heap[t], heap[t]);
        if Precedes(cmp, heap[t], heap[k]) {
          forall j | 0 <= j < k && j != t
            ensures Precedes(cmp, heap[j], heap[k])
          {
            PrecedesStrictTotal(cmp, heap[j], heap[t], heap[k]);
          }
          t := k;
        }
        k := k + 1;
      }
    }

    /**
      insertWithOverflow: with room, the bucket is added and None returned;
      when full, a bucket not ranked below the top replaces the top and the old
      top is returned; otherwise the bucket itself is returned, not admitted.
    */
    method InsertWithOverflow(b: Bucket) returns (overflow: Option<Bucket>, ghost t: int)
      requires Valid()
      requires forall x :: x in heap ==> x.key != b.key
      modifies this
      ensures Valid()
      ensures old(|heap|) < maxSize ==> overflow == None && heap == old(heap) + [b]
      ensures old(|heap|) == maxSize ==> overflow.Some? && |heap| == maxSize
      ensures overflow == Some(b) ==> heap == old(heap) && forall x :: x in heap ==> Precedes(cmp, x, b)
      ensures overflow.Some? && overflow != Some(b) ==>
                IsLeast(cmp, old(heap), t) && overflow.value == old(heap)[t] &&
                heap == old(heap)[t := b] && Precedes(cmp, b, overflow.value)
    {
      t := -1;
      if |heap| < maxSize {
        heap := heap + [b];
        return None, t;
      }
      if |heap| > 0 {
        var i := Top();
        t := i;
        PrecedesStrictTotal(cmp, heap[i], b, b);
        if !Precedes(cmp, heap[i], b) {
          var top := heap[i];
          heap := heap[i := b];
          return Some(top), t;
        }
        forall x | x in heap
          ensures Precedes(cmp, x, b)
        {
          var j :| 0 <= j < |heap| && heap[j] == x;
          if j != t {
            PrecedesStrictTotal(cmp, x, heap[t], b);
          }
        }
      }
      return Some(b), t;
    }

    /** pop: removes and returns the top, the lowest-ranked bucket. */
    method Pop() returns (b: Bucket)
      requires Valid() && |heap| > 0
      modifies this
      ensures Valid()
      ensures b == old(heap)[LeastIndex(cmp, old(heap))]
      ensures heap == RemoveAt(old(heap), LeastIndex(cmp, old(heap)))
    {
      var i := Top();
      LeastUnique(cmp, heap, i, LeastIndex(cmp, heap));
      RemoveAtDistinct(heap, i);
      b := heap[i];
      heap := RemoveAt(heap, i);
    }
  }

  /** With a strict order, a sequence has at most one lowest-ranked position. */
  lemma LeastUnique(cmp: Comparator, heap: seq<Bucket>, i: int, j: int)
    requires IsLeast(cmp, heap, i) && IsLeast(cmp, heap, j)
    ensures i == j
  {
    if i != j {
      PrecedesStrictTotal(cmp, heap[i], heap[j], heap[i]);
    }
  }

  /** The position of the lowest-ranked bucket of a non-empty queue. */
  function LeastIndex(cmp: Comparator, heap: seq<Bucket>): (i: nat)
    requires |heap| > 0 && DistinctBucketKeys(heap)
    ensures IsLeast(cmp, heap, i)
    decreases |heap|
  {
    if |heap| == 1 then 0
    else
      var j := LeastIndex(cmp, heap[..|heap| - 1]);
      LeastStep(cmp, heap, j);
      if Precedes(cmp, heap[j], heap[|heap| - 1]) then |heap| - 1 else j
  }

  /** The lowest-ranked of a prefix and the last bucket: whichever of the two ranks lower is the lowest of all. */
  lemma LeastStep(cmp: Comparator, heap: seq<Bucket>, j: nat)
    requires |heap| > 1 && DistinctBucketKeys(heap) && IsLeast(cmp, heap[..|heap| - 1], j)
    ensures IsLeast(cmp, heap, if Precedes(cmp, heap[j], heap[|heap| - 1]) then |heap| - 1 else j)
  {
    var last := |heap| - 1;
    PrecedesStrictTotal(cmp, heap[j], heap[last], heap[j]);
    forall k | 0 <= k < last && k != j
      ensures Precedes(cmp, heap[k], heap[j])
    {
      assert heap[..last][k] == heap[k] && heap[..last][j] == heap[j];
    }
    if Precedes(cmp, heap[j], heap[last]) {
      forall k | 0 <= k < last
        ensures Precedes(cmp, heap[k], heap[last])
      {
        if k != j {
          PrecedesStrictTotal(cmp, heap[k], heap[j], heap[last]);
        }
      }
    }
  }

  function RemoveAt(heap: seq<Bucket>, i: nat): seq<Bucket>
    requires i < |heap|
  {
    heap[..i] + heap[i + 1..]
  }

  lemma RemoveAtDistinct(heap: seq<Bucket>, i: nat)
    requires i < |heap| && DistinctBucketKeys(heap)
    ensures DistinctBucketKeys(RemoveAt(heap, i))
    ensures multiset(heap) == multiset(RemoveAt(heap, i)) + multiset{heap[i]}
  {
    assert heap == heap[..i] + [heap[i]] + heap[i + 1..];
    var r := RemoveAt(heap, i);
    forall a, c | 0 <= a < c < |r|
      ensures r[a].key != r[c].key
    {
      var a' := if a < i then a else a + 1;
      var c' := if c < i then c else c + 1;
      assert r[a] == heap[a'] && r[c] == heap[c'];
    }
  }

  /** The order in which repeated pops drain a queue: lowest-ranked first. */
  function Drain(cmp: Comparator, heap: seq<Bucket>): (r: seq<Bucket>)
    requires DistinctBucketKeys(heap)
    ensures |r| == |heap|
    decreases |heap|
  {
    if heap == [] then []
    else
      var i := LeastIndex(cmp, heap);
      RemoveAtDistinct(heap, i);
      [heap[i]] + Drain(cmp, RemoveAt(heap, i))
  }

  /** One pop: the drain of a queue is its lowest-ranked bucket followed by the drain of the rest. */
  lemma DrainPop(cmp: Comparator, heap: seq<Bucket>)
    requires DistinctBucketKeys(heap) && heap != []
    ensures DistinctBucketKeys(RemoveAt(heap, LeastIndex(cmp, heap)))
    ensures Drain(cmp, heap) == [heap[LeastIndex(cmp, heap)]] + Drain(cmp, RemoveAt(heap, LeastIndex(cmp, heap)))
  {
    RemoveAtDistinct(heap, LeastIndex(cmp, heap));
  }

  /** Draining a queue yields exactly its buckets. */
  lemma {:induction false} DrainIsPermutation(cmp: Comparator, heap: seq<Bucket>)
    requires DistinctBucketKeys(heap)
    ensures multiset(Drain(cmp, heap)) == multiset(heap)
    decreases |heap|
  {
    if heap != [] {
      var i := LeastIndex(cmp, heap);
      RemoveAtDistinct(heap, i);
      DrainIsPermutation(cmp, RemoveAt(heap, i));
    }
  }

  lemma DrainMembers(cmp: Comparator, heap: seq<Bucket>)
    requires DistinctBucketKeys(heap)
    ensures forall x :: x in Drain(cmp, heap) ==> x in heap
  {
    DrainIsPermutation(cmp, heap);
    forall x | x in Drain(cmp, heap)
      ensures x in heap
    {
      assert x in multiset(Drain(cmp, heap));
    }
  }

  /** Every bucket of `r` ranks below all the buckets after it. */
  ghost predicate WorstFirst(cmp: Comparator, r: seq<Bucket>) {
    forall a, c :: 0 <= a < c < |r| ==> Precedes(cmp, r[c], r[a])
  }

  lemma ConsWorstFirst(cmp: Comparator, m: Bucket, rest: seq<Bucket>)
    requires WorstFirst(cmp, rest)
    requires forall x :: x in rest ==> Precedes(cmp, x, m)
    ensures WorstFirst(cmp, [m] + rest)
  {
    var r := [m] + rest;
    forall a, c | 0 <= a < c < |r|
      ensures Precedes(cmp, r[c], r[a])
    {
      assert r[c] == rest[c - 1];
      if a > 0 {
        assert r[a] == rest[a - 1];
      }
    }
  }

  /** The buckets left after removing the lowest-ranked one all rank above it. */
  lemma RestRanksAbove(cmp: Comparator, heap: seq<Bucket>, i: nat)
    requires i < |heap| && IsLeast(cmp, heap, i)
    ensures forall x :: x in RemoveAt(heap, i) ==> Precedes(cmp, x, heap[i])
  {
    forall x | x in RemoveAt(heap, i)
      ensures Precedes(cmp, x, heap[i])
    {
      var j :| 0 <= j < |RemoveAt(heap, i)| && RemoveAt(heap, i)[j] == x;
      var j' := if j < i then j else j + 1;
      assert heap[j'] == x && j' != i;
    }
  }

  /** Each pop ranks below every later one: the drain is worst-first. */
  lemma {:induction false} DrainIsWorstFirst(cmp: Comparator, heap: seq<Bucket>)
    requires DistinctBucketKeys(heap)
    ensures WorstFirst(cmp, Drain(cmp, heap))
    decreases |heap|
  {
    if heap != [] {
      var i := LeastIndex(cmp, heap);
      var rest := RemoveAt(heap, i);
      RemoveAtDistinct(heap, i);
      DrainIsWorstFirst(cmp, rest);
      DrainMembers(cmp, rest);
      RestRanksAbove(cmp, heap, i);
      ConsWorstFirst(cmp, heap[i], Drain(cmp, rest));
    }
  }

  function Reverse<T>(s: seq<T>): (r: seq<T>)
    ensures |r| == |s|
    ensures forall i :: 0 <= i < |s| ==> r[i] == s[|s| - 1 - i]
  {
    if s == [] then [] else Reverse(s[1..]) + [s[0]]
  }

  /** Every bucket of `r` ranks above all the buckets after it. */
  ghost predicate BestFirst(cmp: Comparator, r: seq<Bucket>) {
    forall a, c :: 0 <= a < c < |r| ==> Precedes(cmp, r[a], r[c])
  }

  lemma ReverseOfWorstFirst(cmp: Comparator, r: seq<Bucket>)
    requires WorstFirst(cmp, r)
    ensures BestFirst(cmp, Reverse(r))
  {
    forall a, c | 0 <= a < c < |r|
      ensures Precedes(cmp, Reverse(r)[a], Reverse(r)[c])
    {
      assert Reverse(r)[a] == r[|r| - 1 - a] && Reverse(r)[c] == r[|r| - 1 - c];
    }
  }

  /** Filling an array from the back with successive pops gives a best-first list of the queue's buckets. */
  lemma ReversedDrainIsBestFirst(cmp: Comparator, heap: seq<Bucket>)
    requires DistinctBucketKeys(heap)
    ensures multiset(Reverse(Drain(cmp, heap))) == multiset(heap)
    ensures BestFirst(cmp, Reverse(Drain(cmp, heap)))
  {
    DrainIsPermutation(cmp, heap);
    DrainIsWorstFirst(cmp, heap);
    ReverseMultiset(Drain(cmp, heap));
    ReverseOfWorstFirst(cmp, Drain(cmp, heap));
  }

  lemma {:induction false} ReverseMultiset<T>(s: seq<T>)
    ensures multiset(Reverse(s)) == multiset(s)
  {
    if s != [] {
      ReverseMultiset(s[1..]);
      assert s == [s[0]] + s[1..];
    }
  }

  // ---------------------------------------------------------------------
  // Result buckets
  // ---------------------------------------------------------------------

  /** A bucket of a built aggregation: its key, its count and its sub-aggregations (the docs delegated for its ordinal). */
  datatype TermBucket = TermBucket(key: int, docCount: int, aggregations: seq<int>)

  function ToResult(b: Bucket, log: seq<Delegation>): TermBucket {
    TermBucket(b.key, b.docCount, DocsFor(log, b.ord))
  }

  function Results(bs: seq<Bucket>, log: seq<Delegation>): (r: seq<TermBucket>)
    ensures |r| == |bs|
    ensures forall i :: 0 <= i < |bs| ==> r[i] == ToResult(bs[i], log)
  {
    if bs == [] then [] else [ToResult(bs[0], log)] + Results(bs[1..], log)
  }

  // ---------------------------------------------------------------------
  // The loops the three aggregators share
  // ---------------------------------------------------------------------

  /** The sub-aggregator calls of a first-pass collect: one per value, for the value's ordinal. */
  function Delegations(doc: int, keys: seq<int>, vals: seq<int>): (r: seq<Delegation>)
    decreases |vals|
  {
    if vals == [] then []
    else Delegations(doc, keys, vals[..|vals| - 1]) + [Delegation(doc, OrdOf(keys, vals[|vals| - 1]))]
  }

  /** The sub-aggregator calls of a replay collect: one per value whose ordinal was not pruned. */
  function ReplayDelegations(doc: int, keys: seq<int>, counts: seq<int>, vals: seq<int>): (r: seq<Delegation>)
    decreases |vals|
  {
    if vals == [] then []
    else
      var ord := OrdOf(keys, vals[|vals| - 1]);
      ReplayDelegations(doc, keys, counts, vals[..|vals| - 1]) +
      (if ord >= 0 && DocCount(counts, ord) != PRUNED then [Delegation(doc, ord)] else [])
  }

  /** A replay reaches the sub-aggregators exactly for the values whose ordinal survived pruning. */
  lemma {:induction false} ReplayDelegatesSurvivorsOnly(doc: int, keys: seq<int>, counts: seq<int>, vals: seq<int>)
    requires forall v :: v in vals ==> v in keys
    ensures forall d :: d in ReplayDelegations(doc, keys, counts, vals) ==>
              d.doc == doc && 0 <= d.ord < |keys| && keys[d.ord] in vals && DocCount(counts, d.ord) != PRUNED
    ensures forall v :: v in vals && DocCount(counts, OrdOf(keys, v)) != PRUNED ==>
              Delegation(doc, OrdOf(keys, v)) in ReplayDelegations(doc, keys, counts, vals)
    decreases |vals|
  {
    if vals != [] {
      var init := vals[..|vals| - 1];
      ReplayDelegatesSurvivorsOnly(doc, keys, counts, init);
      assert forall v :: v in vals ==> v in init || v == vals[|vals| - 1];
    }
  }

  /** When nothing was pruned, a replay makes exactly the sub-aggregator calls of a first pass. */
  lemma {:induction false} ReplayWithoutPruningIsFirstPass(doc: int, keys: seq<int>, counts: seq<int>, vals: seq<int>)
    requires forall v :: v in vals ==> v in keys
    requires forall o :: 0 <= o < |counts| ==> counts[o] >= 0
    ensures ReplayDelegations(doc, keys, counts, vals) == Delegations(doc, keys, vals)
    decreases |vals|
  {
    if vals != [] {
      var init := vals[..|vals| - 1];
      ReplayWithoutPruningIsFirstPass(doc, keys, counts, init);
    }
  }

  lemma OrdOfExtend(keys: seq<int>, k: int, x: int)
    requires x in keys
    ensures OrdOf(AddOne(keys, k), x) == OrdOf(keys, x)
  {
    if k !in keys {
      assert (keys + [k])[..|keys|] == keys;
    }
  }

  /** The counts of a first pass over `vals`, starting from `counts`, for every ordinal of `keys`. */
  ghost predicate CountsAfter(keys: seq<int>, cur: seq<int>, counts: seq<int>, vals: seq<int>) {
    forall o :: 0 <= o < |keys| ==> DocCount(cur, o) == DocCount(counts, o) + Occurrences(vals, keys[o])
  }

  lemma CountStep(keys: seq<int>, cur: seq<int>, counts: seq<int>, vals: seq<int>, v: int)
    requires CountsAfter(keys, cur, counts, vals)
    requires DistinctKeys(AddOne(keys, v))
    requires forall x :: x in vals ==> x in keys
    requires |cur| <= |keys| && |counts| <= |keys|
    ensures CountsAfter(AddOne(keys, v), Increment(cur, OrdOf(AddOne(keys, v), v)), counts, vals + [v])
  {
    var keys' := AddOne(keys, v);
    var ord := OrdOf(keys', v);
    assert (vals + [v])[..|vals|] == vals;
    forall o | 0 <= o < |keys'|
      ensures DocCount(Increment(cur, ord), o) == DocCount(counts, o) + Occurrences(vals + [v], keys'[o])
    {
      if o != ord {
        OrdOfUnique(keys', keys'[o], o);
        assert keys'[o] != v;
      } else if o == |keys| {
        assert v !in vals;
      }
    }
  }

  lemma {:induction false} DelegationStep(doc: int, keys: seq<int>, vals: seq<int>, v: int)
    requires forall x :: x in vals ==> x in keys
    ensures Delegations(doc, AddOne(keys, v), vals + [v]) ==
            Delegations(doc, keys, vals) + [Delegation(doc, OrdOf(AddOne(keys, v), v))]
    decreases |vals|
  {
    assert (vals + [v])[..|vals|] == vals;
    if vals != [] {
      var init := vals[..|vals| - 1];
      DelegationStep(doc, keys, init, vals[|vals| - 1]);
      OrdOfExtend(keys, v, vals[|vals| - 1]);
      DelegationsExtend(doc, keys, init, v);
    }
  }

  lemma {:induction false} DelegationsExtend(doc: int, keys: seq<int>, vals: seq<int>, v: int)
    requires forall x :: x in vals ==> x in keys
    ensures Delegations(doc, AddOne(keys, v), vals) == Delegations(doc, keys, vals)
    decreases |vals|
  {
    if vals != [] {
      DelegationsExtend(doc, keys, vals[..|vals| - 1], v);
      OrdOfExtend(keys, v, vals[|vals| - 1]);
    }
  }

  /** The state of the first-pass loop after the values `done`. */
  ghost predicate Collected(keys0: seq<int>, counts: seq<int>, log: seq<Delegation>, doc: int, delegate: bool,
                            done: seq<int>, keys: seq<int>, cur: seq<int>, curLog: seq<Delegation>)
  {
    && keys == AddAll(keys0, done)
    && |cur| <= |keys|
    && CountsAfter(keys, cur, counts, done)
    && curLog == log + if delegate then Delegations(doc, keys, done) else []
  }

  lemma CollectStep(keys0: seq<int>, counts: seq<int>, log: seq<Delegation>, doc: int, delegate: bool,
                    done: seq<int>, keys: seq<int>, cur: seq<int>, curLog: seq<Delegation>, v: int,
                    keys': seq<int>, ord: nat, cur': seq<int>, curLog': seq<Delegation>)
    requires DistinctKeys(keys0) && |counts| <= |keys0|
    requires Collected(keys0, counts, log, doc, delegate, done, keys, cur, curLog)
    requires keys' == AddOne(keys, v) && ord == OrdOf(keys', v)
    requires cur' == Increment(cur, ord) && curLog' == curLog + if delegate then [Delegation(doc, ord)] else []
    ensures Collected(keys0, counts, log, doc, delegate, done + [v], keys', cur', curLog')
  {
    AddAllProperties(keys0, done + [v]);
    AddAllProperties(keys0, done);
    assert (done + [v])[..|done|] == done;
    CountStep(keys, cur, counts, done, v);
    DelegationStep(doc, keys, done, v);
  }

  /**
    The first-pass loop of collect: every value is added to the table, its
    ordinal decoded from add's result, and collectBucket counts it (and
    delegates it when sub-aggregators exist).
  */
  method CollectValues(table: LongHash, counts: seq<int>, log: seq<Delegation>, doc: int, vals: seq<int>, delegate: bool)
      returns (newCounts: seq<int>, newLog: seq<Delegation>)
    requires table.Valid() && |counts| <= |table.keys|
    modifies table
    ensures table.Valid()
    ensures table.keys == AddAll(old(table.keys), vals)
    ensures |newCounts| <= |table.keys|
    ensures forall o :: 0 <= o < |table.keys| ==>
              DocCount(newCounts, o) == DocCount(counts, o) + Occurrences(vals, table.keys[o])
    ensures newLog == log + if delegate then Delegations(doc, table.keys, vals) else []
  {
    ghost var keys0 := table.keys;
    newCounts, newLog := counts, log;
    var i := 0;
    while i < |vals|
      invariant 0 <= i <= |vals|
      invariant table.Valid() && DistinctKeys(keys0) && |counts| <= |keys0|
      invariant Collected(keys0, counts, log, doc, delegate, vals[..i], table.keys, newCounts, newLog)
    {
      var v := vals[i];
      assert vals[..i + 1] == vals[..i] + [v];
      ghost var before := table.keys;
      ghost var cur, curLog := newCounts, newLog;
      var bucketOrdinal := table.Add(v);
      if bucketOrdinal < 0 {
        bucketOrdinal := -1 - bucketOrdinal;
      }
      newCounts := Increment(newCounts, bucketOrdinal);
      newLog := newLog + if delegate then [Delegation(doc, bucketOrdinal)] else [];
      CollectStep(keys0, counts, log, doc, delegate, vals[..i], before, cur, curLog, v,
                  table.keys, bucketOrdinal, newCounts, newLog);
      i := i + 1;
    }
    assert vals[..i] == vals;
  }

  /**
    The replay loop of collect: each value is looked up, never added, and
    delegated without counting when its ordinal was not pruned.
  */
  method ReplayValues(table: LongHash, counts: seq<int>, log: seq<Delegation>, doc: int, vals: seq<int>)
      returns (newLog: seq<Delegation>)
    requires table.Valid()
    requires forall v :: v in vals ==> v in table.keys
    ensures newLog == log + ReplayDelegations(doc, table.keys, counts, vals)
  {
    newLog := log;
    var i := 0;
    while i < |vals|
      invariant 0 <= i <= |vals|
      invariant newLog == log + ReplayDelegations(doc, table.keys, counts, vals[..i])
    {
      assert vals[..i + 1][..i] == vals[..i];
      var bucketOrdinal := table.Find(vals[i]);
      if DocCount(counts, bucketOrdinal) != PRUNED {
        newLog := newLog + [Delegation(doc, bucketOrdinal)];
      }
      i := i + 1;
    }
    assert vals[..i] == vals;
  }

  /** The fill-in loop: every value of the scan is added; counts are not touched. */
  method AddValues(table: LongHash, vals: seq<int>)
    requires table.Valid()
    modifies table
    ensures table.Valid()
    ensures table.keys == AddAll(old(table.keys), vals)
  {
    var i := 0;
    while i < |vals|
      invariant 0 <= i <= |vals|
      invariant table.Valid()
      invariant table.keys == AddAll(old(table.keys), vals[..i])
    {
      assert vals[..i + 1][..i] == vals[..i];
      var _ := table.Add(vals[i]);
      i := i + 1;
    }
    assert vals[..i] == vals;
  }

  /** The pruning candidate of ordinal `o`. */
  function Candidate(keys: seq<int>, counts: seq<int>, o: int): Bucket
    requires 0 <= o < |keys|
  {
    Bucket(keys[o], DocCount(counts, o), o)
  }

  /** The ordinals held by a queue. */
  ghost function Ords(heap: seq<Bucket>): set<int> {
    set b | b in heap :: b.ord
  }

  lemma OrdsAppend(heap: seq<Bucket>, b: Bucket)
    ensures Ords(heap + [b]) == Ords(heap) + {b.ord}
  {
    assert forall x :: x in heap + [b] <==> x in heap || x == b;
  }

  lemma OrdsReplace(heap: seq<Bucket>, t: int, b: Bucket)
    requires 0 <= t < |heap|
    requires forall i, j :: 0 <= i < j < |heap| ==> heap[i].ord != heap[j].ord
    ensures Ords(heap[t := b]) == Ords(heap) - {heap[t].ord} + {b.ord}
    ensures forall x :: x in heap[t := b] ==> x == b || (x in heap && x != heap[t])
  {
    forall x | x in heap[t := b]
      ensures x == b || (x in heap && x != heap[t])
    {
      var j :| 0 <= j < |heap| && heap[t := b][j] == x;
      if j != t {
        assert heap[j] == x;
      }
    }
    forall o | o in Ords(heap) - {heap[t].ord} + {b.ord}
      ensures o in Ords(heap[t := b])
    {
      if o != b.ord {
        var x :| x in heap && x.ord == o;
        var j :| 0 <= j < |heap| && heap[j] == x;
        assert j != t;
        assert heap[t := b][j] == x;
      } else {
        assert heap[t := b][t] == b;
      }
    }
  }

  lemma CardinalityOfRange(s: set<int>, n: nat)
    requires forall o :: o in s <==> 0 <= o < n
    ensures |s| == n
  {
    if n > 0 {
      CardinalityOfRange(s - {n - 1}, n - 1);
    } else {
      assert forall o :: o !in s;
    }
  }

  /** The state the pruning loop keeps after offering the ordinals in `offered`. */
  ghost predicate PruneInvariant(keys: seq<int>, counts: seq<int>, cmp: Comparator, size: nat,
                                 heap: seq<Bucket>, offered: set<int>, cur: seq<int>)
  {
    && |heap| == Min(|offered|, size)
    && (|heap| < size ==> forall o :: o in offered ==> o in Ords(heap))
    && (forall b :: b in heap ==> b.ord in offered && 0 <= b.ord < |keys| && b == Candidate(keys, counts, b.ord))
    && (forall o :: 0 <= o < |keys| ==>
          DocCount(cur, o) == if o in offered && o !in Ords(heap) then PRUNED else DocCount(counts, o))
    && (forall b, o :: b in heap && o in offered && o !in Ords(heap) && 0 <= o < |keys| ==>
          Precedes(cmp, b, Candidate(keys, counts, o)))
  }

  lemma HeapOrdsDistinct(keys: seq<int>, counts: seq<int>, heap: seq<Bucket>)
    requires DistinctBucketKeys(heap)
    requires forall b :: b in heap ==> 0 <= b.ord < |keys| && b == Candidate(keys, counts, b.ord)
    ensures forall i, j :: 0 <= i < j < |heap| ==> heap[i].ord != heap[j].ord
  {
    forall i, j | 0 <= i < j < |heap|
      ensures heap[i].ord != heap[j].ord
    {
      assert heap[i] in heap && heap[j] in heap;
    }
  }

  /** The queue had room: the candidate joins it and nothing has been pruned. */
  lemma PruneAppend(keys: seq<int>, counts: seq<int>, cmp: Comparator, size: nat,
                    heap: seq<Bucket>, offered: set<int>, cur: seq<int>, ord: int)
    requires 0 <= ord < |keys| && ord !in offered
    requires PruneInvariant(keys, counts, cmp, size, heap, offered, cur)
    requires |heap| < size
    ensures PruneInvariant(keys, counts, cmp, size, heap + [Candidate(keys, counts, ord)], offered + {ord}, cur)
  {
    var spare := Candidate(keys, counts, ord);
    var heap' := heap + [spare];
    var offered' := offered + {ord};
    assert |offered'| == |offered| + 1;
    OrdsAppend(heap, spare);
    assert forall o :: o in offered' ==> o in Ords(heap');
    assert forall b :: b in heap' ==> b in heap || b == spare;
  }

  /** The queue was full and the candidate ranks below all of it: the candidate is pruned. */
  lemma PruneReject(keys: seq<int>, counts: seq<int>, cmp: Comparator, size: nat,
                    heap: seq<Bucket>, offered: set<int>, cur: seq<int>, ord: int)
    requires 0 <= ord < |keys| && ord !in offered
    requires PruneInvariant(keys, counts, cmp, size, heap, offered, cur)
    requires |heap| == size
    requires forall x :: x in heap ==> Precedes(cmp, x, Candidate(keys, counts, ord))
    ensures PruneInvariant(keys, counts, cmp, size, heap, offered + {ord}, Clear(cur, ord))
  {
    var offered' := offered + {ord};
    assert |offered'| == |offered| + 1;
    assert ord !in Ords(heap);
  }

  /** The queue was full and its least bucket `heap[t]` ranks below the candidate: that bucket is pruned. */
  lemma PruneEvict(keys: seq<int>, counts: seq<int>, cmp: Comparator, size: nat,
                   heap: seq<Bucket>, offered: set<int>, cur: seq<int>, ord: int, t: int)
    requires 0 <= ord < |keys| && ord !in offered
    requires PruneInvariant(keys, counts, cmp, size, heap, offered, cur)
    requires DistinctBucketKeys(heap)
    requires |heap| == size && 0 <= t < |heap| && IsLeast(cmp, heap, t)
    requires Precedes(cmp, Candidate(keys, counts, ord), heap[t])
    ensures 0 <= heap[t].ord < |keys|
    ensures PruneInvariant(keys, counts, cmp, size, heap[t := Candidate(keys, counts, ord)],
                           offered + {ord}, Clear(cur, heap[t].ord))
  {
    var spare := Candidate(keys, counts, ord);
    var heap' := heap[t := spare];
    assert heap[t] in heap;
    assert |offered + {ord}| == |offered| + 1;
    HeapOrdsDistinct(keys, counts, heap);
    OrdsReplace(heap, t, spare);
    EvictCounts(keys, counts, heap, offered, cur, ord, t);
    EvictRanking(keys, counts, cmp, heap, offered, ord, t);
  }

  lemma EvictCounts(keys: seq<int>, counts: seq<int>, heap: seq<Bucket>, offered: set<int>, cur: seq<int>, ord: int, t: int)
    requires 0 <= ord < |keys| && ord !in offered && 0 <= t < |heap|
    requires heap[t].ord in offered && 0 <= heap[t].ord < |keys|
    requires Ords(heap[t := Candidate(keys, counts, ord)]) == Ords(heap) - {heap[t].ord} + {ord}
    requires forall o :: 0 <= o < |keys| ==>
               DocCount(cur, o) == if o in offered && o !in Ords(heap) then PRUNED else DocCount(counts, o)
    ensures forall o :: 0 <= o < |keys| ==>
              DocCount(Clear(cur, heap[t].ord), o) ==
              if o in offered + {ord} && o !in Ords(heap[t := Candidate(keys, counts, ord)]) then PRUNED else DocCount(counts, o)
  {
  }

  lemma EvictRanking(keys: seq<int>, counts: seq<int>, cmp: Comparator,
                     heap: seq<Bucket>, offered: set<int>, ord: int, t: int)
    requires 0 <= ord < |keys| && 0 <= t < |heap| && IsLeast(cmp, heap, t)
    requires 0 <= heap[t].ord < |keys| && heap[t] == Candidate(keys, counts, heap[t].ord) && heap[t].ord in offered
    requires Precedes(cmp, Candidate(keys, counts, ord), heap[t])
    requires Ords(heap[t := Candidate(keys, counts, ord)]) == Ords(heap) - {heap[t].ord} + {ord}
    requires forall x :: x in heap[t := Candidate(keys, counts, ord)] ==> x == Candidate(keys, counts, ord) || (x in heap && x != heap[t])
    requires forall b, o :: b in heap && o in offered && o !in Ords(heap) && 0 <= o < |keys| ==>
               Precedes(cmp, b, Candidate(keys, counts, o))
    ensures forall b, o ::
              b in heap[t := Candidate(keys, counts, ord)] && o in offered + {ord} &&
              o !in Ords(heap[t := Candidate(keys, counts, ord)]) && 0 <= o < |keys| ==>
                Precedes(cmp, b, Candidate(keys, counts, o))
  {
    var spare := Candidate(keys, counts, ord);
    var m := heap[t];
    var heap' := heap[t := spare];
    forall b, o | b in heap' && o in offered + {ord} && o !in Ords(heap') && 0 <= o < |keys|
      ensures Precedes(cmp, b, Candidate(keys, counts, o))
    {
      if o == m.ord {
        if b != spare {
          var j :| 0 <= j < |heap| && heap[j] == b;
          assert j != t;
        }
      } else {
        assert o in offered && o !in Ords(heap);
        if b == spare {
          PrecedesStrictTotal(cmp, spare, m, Candidate(keys, counts, o));
        }
      }
    }
  }

  /** An ordinal not yet offered has a key no queued bucket has. */
  lemma NotYetQueued(keys: seq<int>, counts: seq<int>, cmp: Comparator, size: nat,
                     heap: seq<Bucket>, offered: set<int>, cur: seq<int>, ord: int)
    requires DistinctKeys(keys) && 0 <= ord < |keys| && ord !in offered
    requires PruneInvariant(keys, counts, cmp, size, heap, offered, cur)
    ensures forall x :: x in heap ==> x.key != keys[ord]
  {
  }

  /** Once every ordinal has been offered, PruneInvariant is the pruning loop's postcondition. */
  lemma PruneFinish(keys: seq<int>, counts: seq<int>, cmp: Comparator, size: nat,
                    heap: seq<Bucket>, offered: set<int>, cur: seq<int>)
    requires forall o :: o in offered <==> 0 <= o < |keys|
    requires size <= |keys|
    requires PruneInvariant(keys, counts, cmp, size, heap, offered, cur)
    ensures |heap| == size
    ensures forall o :: 0 <= o < |keys| ==>
              DocCount(cur, o) == if o in Ords(heap) then DocCount(counts, o) else PRUNED
    ensures forall b, o :: b in heap && 0 <= o < |keys| && o !in Ords(heap) ==>
              Precedes(cmp, b, Candidate(keys, counts, o))
  {
    CardinalityOfRange(offered, |keys|);
  }

  lemma {:induction false} OrdsCardinality(heap: seq<Bucket>)
    requires forall i, j :: 0 <= i < j < |heap| ==> heap[i].ord != heap[j].ord
    ensures |Ords(heap)| == |heap|
    decreases |heap|
  {
    if heap != [] {
      var init := heap[..|heap| - 1];
      OrdsCardinality(init);
      OrdsAppend(init, heap[|heap| - 1]);
      assert heap == init + [heap[|heap| - 1]];
      assert heap[|heap| - 1].ord !in Ords(init);
    }
  }

  /** A queue that holds as many buckets as there are ordinals holds every ordinal: nothing is pruned. */
  lemma AllFitNothingPruned(keys: seq<int>, counts: seq<int>, heap: seq<Bucket>)
    requires DistinctBucketKeys(heap)
    requires forall b :: b in heap ==> 0 <= b.ord < |keys| && b == Candidate(keys, counts, b.ord)
    requires |heap| == |keys|
    ensures forall o :: 0 <= o < |keys| ==> o in Ords(heap)
  {
    HeapOrdsDistinct(keys, counts, heap);
    OrdsCardinality(heap);
    forall o | 0 <= o < |keys|
      ensures o in Ords(heap)
    {
      if o !in Ords(heap) {
        var rest := Range(|keys|) - {o};
        assert Ords(heap) <= rest;
        SubsetCardinality(Ords(heap), rest);
      }
    }
  }

  /** The ordinals 0..n-1. */
  function Range(n: nat): (r: set<int>)
    ensures forall o :: o in r <==> 0 <= o < n
    ensures |r| == n
  {
    if n == 0 then {} else Range(n - 1) + {n - 1}
  }

  lemma SubsetCardinality(a: set<int>, b: set<int>)
    requires a <= b
    ensures |a| <= |b|
  {
    assert b == a + (b - a);
  }

  /**
    The pruning loop of doPostCollection: a queue of capacity
    min(size, shardSize) is offered the candidate of every allocated slot once,
    and every bucket the queue rejects or evicts is cleared to PRUNED. The
    survivors are the queue's buckets, each ranked above every pruned one.
  */
  method PruneToTopK(table: LongHash, counts: seq<int>, cmp: Comparator, shardSize: nat)
      returns (queue: BucketQueue, newCounts: seq<int>)
    requires table.Valid()
    requires |counts| <= |table.keys|
    requires forall o :: 0 <= o < |counts| ==> counts[o] >= 0
    ensures fresh(queue) && queue.Valid() && queue.cmp == cmp
    ensures queue.maxSize == Min(|table.keys|, shardSize)
    ensures |queue.heap| == Min(|table.keys|, shardSize)
    ensures |newCounts| <= |table.keys|
    ensures forall b :: b in queue.heap ==> 0 <= b.ord < |table.keys| && b == Candidate(table.keys, counts, b.ord)
    ensures forall o :: 0 <= o < |table.keys| ==>
              DocCount(newCounts, o) == if o in Ords(queue.heap) then DocCount(counts, o) else PRUNED
    ensures forall b, o :: b in queue.heap && 0 <= o < |table.keys| && o !in Ords(queue.heap) ==>
              Precedes(cmp, b, Candidate(table.keys, counts, o))
    ensures |table.keys| <= shardSize ==> forall o :: 0 <= o < |table.keys| ==> DocCount(newCounts, o) == DocCount(counts, o)
  {
    var n := table.Size();
    var size := Min(n, shardSize);
    queue := new BucketQueue(size, cmp);
    newCounts := counts;
    ghost var offered: set<int> := {};
    var i := 0;
    while i < |table.ids|
      invariant 0 <= i <= |table.ids|
      invariant fresh(queue) && queue.Valid() && queue.cmp == cmp && queue.maxSize == size
      invariant forall o :: o in offered <==> 0 <= o < n && table.slotOf[o] < i
      invariant |newCounts| <= n
      invariant PruneInvariant(table.keys, counts, cmp, size, queue.heap, offered, newCounts)
    {
      var ord := table.ids[i];
      if ord >= 0 {
        assert ord !in offered;
        var spare := Bucket(table.keys[ord], DocCount(newCounts, ord), ord);
        NotYetQueued(table.keys, counts, cmp, size, queue.heap, offered, newCounts, ord);
        ghost var heap := queue.heap;
        var overflow, t := queue.InsertWithOverflow(spare);
        if overflow.None? {
          PruneAppend(table.keys, counts, cmp, size, heap, offered, newCounts, ord);
        } else if overflow == Some(spare) {
          PruneReject(table.keys, counts, cmp, size, heap, offered, newCounts, ord);
          newCounts := Clear(newCounts, ord);
        } else {
          PruneEvict(table.keys, counts, cmp, size, heap, offered, newCounts, ord, t);
          newCounts := Clear(newCounts, overflow.value.ord);
        }
        offered := offered + {ord};
      }
      i := i + 1;
    }
    PruneFinish(table.keys, counts, cmp, size, queue.heap, offered, newCounts);
    if n <= shardSize {
      AllFitNothingPruned(table.keys, counts, queue.heap);
    }
  }

  // ---------------------------------------------------------------------
  // Building the result
  // ---------------------------------------------------------------------

  /** A terms aggregation result (LongTerms, DoubleTerms): its settings and its bucket list. */
  datatype TermsResult = TermsResult(name: string, order: Order, requiredSize: nat, minDocCount: nat, buckets: seq<TermBucket>)

  /**
    The terms aggregators fill in the keys no document matched exactly when
    min_doc_count is 0 and either the order is not by descending count or
    fewer than required_size keys were seen.
  */
  predicate NeedsFillIn(minDocCount: nat, order: Order, distinctKeys: nat, requiredSize: nat) {
    minDocCount == 0 && (order != CountDesc || distinctKeys < requiredSize)
  }

  /**
    The build loop of LongTerms: the queue is popped empty and each pop is
    appended, each bucket with its sub-aggregations.
  */
  method DrainAppending(queue: BucketQueue, log: seq<Delegation>) returns (list: seq<TermBucket>)
    requires queue.Valid()
    modifies queue
    ensures queue.Valid() && queue.heap == []
    ensures |list| == |old(queue.heap)|
    ensures forall j :: 0 <= j < |list| ==> list[j] == ToResult(Drain(queue.cmp, old(queue.heap))[j], log)
  {
    ghost var d := Drain(queue.cmp, queue.heap);
    var n := queue.Size();
    list := [];
    var i := n;
    while i > 0
      invariant 0 <= i == |queue.heap| && queue.Valid() && |list| == n - i
      invariant Drain(queue.cmp, queue.heap) == d[n - i..]
      invariant forall j :: 0 <= j < |list| ==> list[j] == ToResult(d[j], log)
    {
      ghost var rest := Drain(queue.cmp, queue.heap);
      DrainPop(queue.cmp, queue.heap);
      var bucket := queue.Pop();
      SuffixStep(d, n - i, rest, bucket, Drain(queue.cmp, queue.heap));
      list := list + [ToResult(bucket, log)];
      i := i - 1;
    }
  }

  /** A suffix of `d` that starts with `b` is `b` followed by the next suffix. */
  lemma SuffixStep<T>(d: seq<T>, k: nat, rest: seq<T>, b: T, tail: seq<T>)
    requires k <= |d| && rest == d[k..] && rest == [b] + tail
    ensures k < |d| && d[k] == b && tail == d[k + 1..]
  {
    assert rest[0] == b && rest[1..] == tail;
  }

  /** A list whose j-th entry is the result of the j-th pop is the drain's results. */
  lemma InPopOrder(d: seq<Bucket>, log: seq<Delegation>, list: seq<TermBucket>)
    requires |list| == |d|
    requires forall j :: 0 <= j < |list| ==> list[j] == ToResult(d[j], log)
    ensures list == Results(d, log)
  {
  }

  /**
    The build loop of DoubleTerms and GeoHashGrid: the queue is popped empty
    and the i-th pop is stored at index size-1-i of a fresh array, so the
    array holds the drain reversed, each bucket with its sub-aggregations.
  */
  method DrainFromBack(queue: BucketQueue, log: seq<Delegation>) returns (list: array<TermBucket>)
    requires queue.Valid()
    modifies queue
    ensures fresh(list) && queue.Valid() && queue.heap == []
    ensures list.Length == |old(queue.heap)|
    ensures forall j :: 0 <= j < list.Length ==>
              list[j] == ToResult(Drain(queue.cmp, old(queue.heap))[list.Length - 1 - j], log)
  {
    ghost var d := Drain(queue.cmp, queue.heap);
    var n := queue.Size();
    list := new TermBucket[n];
    var i := n;
    while i > 0
      invariant 0 <= i <= n && |queue.heap| == i && queue.Valid()
      invariant Drain(queue.cmp, queue.heap) == d[n - i..]
      invariant forall j :: i <= j < n ==> list[j] == ToResult(d[n - 1 - j], log)
    {
      ghost var rest := Drain(queue.cmp, queue.heap);
      DrainPop(queue.cmp, queue.heap);
      var b := queue.Pop();
      SuffixStep(d, n - i, rest, b, Drain(queue.cmp, queue.heap));
      i := i - 1;
      list[i] := ToResult(b, log);
    }
  }

  /** A list whose j-th entry is the result of the (size-1-j)-th pop is the drain reversed. */
  lemma FromBackIsReversed(d: seq<Bucket>, log: seq<Delegation>, list: seq<TermBucket>)
    requires |list| == |d|
    requires forall j :: 0 <= j < |list| ==> list[j] == ToResult(d[|d| - 1 - j], log)
    ensures list == Results(Reverse(d), log)
  {
  }
}
