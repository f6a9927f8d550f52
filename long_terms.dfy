/**
  The terms aggregator over long values. In the first pass each value gets a
  dense ordinal from the hash table and its ordinal's doc count goes up; at the
  end of that pass the keys are (optionally) filled in and pruned to the top
  shard_size buckets; replayed passes only look values up and hand the
  documents of surviving buckets to the sub-aggregators.

  The sub-aggregators themselves are abstract: `delegated` records every
  document handed to them, per ordinal. The node's own pass counter is kept
  here; the recursion over sub-aggregators belongs to the Aggregation module.
*/
module LongTerms {

  import opened Wrappers
  import opened Buckets
  import Aggregation

  class LongTermsAggregator {
    const name: string
    const order: Order
    /** order.comparator(this): the order applied to this aggregator's terms. */
    const cmp: Comparator
    const requiredSize: nat
    const shardSize: nat
    const minDocCount: nat
    const mode: Aggregation.ExecutionMode
    /** The factory has sub-aggregation factories. */
    const hasSubAggregations: bool
    const bucketOrds: LongHash
    /** The doc count of each ordinal (BucketsAggregator's doc-count array). */
    var counts: seq<int>
    /** Every document handed to the sub-aggregators, with its bucket ordinal. */
    var delegated: seq<Delegation>
    var prunedBuckets: BucketQueue?
    var passNumber: nat
    ghost var Repr: set<object>

    ghost predicate Valid()
      reads this, Repr
    {
      && this in Repr && bucketOrds in Repr && bucketOrds.Valid()
      && |counts| <= |bucketOrds.keys|
      && (passNumber == 0 <==> prunedBuckets == null)
      && (prunedBuckets != null ==> prunedBuckets in Repr && prunedBuckets.Valid() && prunedBuckets.cmp == cmp)
      && (passNumber == 0 ==> forall o :: 0 <= o < |counts| ==> counts[o] >= 0)
    }

    constructor (name: string, order: Order, requiredSize: nat, shardSize: nat, minDocCount: nat,
                 mode: Aggregation.ExecutionMode, hasSubAggregations: bool)
      ensures Valid() && fresh(Repr)
      ensures this.name == name && this.order == order && this.requiredSize == requiredSize
      ensures cmp == Comparator(order, Longs)
      ensures this.shardSize == shardSize && this.minDocCount == minDocCount
      ensures this.mode == mode && this.hasSubAggregations == hasSubAggregations
      ensures bucketOrds.keys == [] && counts == [] && delegated == [] && passNumber == 0
    {
      this.name := name;
      this.order := order;
      cmp := Comparator(order, Longs);
      this.requiredSize := requiredSize;
      this.shardSize := shardSize;
      this.minDocCount := minDocCount;
      this.mode := mode;
      this.hasSubAggregations := hasSubAggregations;
      var table := new LongHash(0);
      bucketOrds := table;
      counts := [];
      delegated := [];
      prunedBuckets := null;
      passNumber := 0;
      Repr := {this, table};
    }

    /** The sub-aggregators exist: under PRUNE_FIRST they are created at the end of the first pass. */
    predicate SubAggregatorsExist()
      reads this
    {
      hasSubAggregations && (mode == Aggregation.SinglePass || passNumber > 0)
    }

    /**
      collect(doc, 0) for a document whose values are `vals`. In the first pass
      every value is added and counted, and delegated when sub-aggregators
      exist; in a replay nothing is added or counted, and only values whose
      bucket survived pruning are delegated. A replay sees only documents of
      the first pass, so its values are all known to the table.
    */
    method Collect(doc: int, owningBucketOrdinal: int, vals: seq<int>)
      requires Valid() && owningBucketOrdinal == 0
      requires passNumber > 0 ==> forall v :: v in vals ==> v in bucketOrds.keys
      modifies this, bucketOrds
      ensures Valid() && Repr == old(Repr)
      ensures passNumber == old(passNumber) && prunedBuckets == old(prunedBuckets)
      ensures passNumber == 0 ==>
                && bucketOrds.keys == AddAll(old(bucketOrds.keys), vals)
                && (forall o :: 0 <= o < |bucketOrds.keys| ==>
                      DocCount(counts, o) == DocCount(old(counts), o) + Occurrences(vals, bucketOrds.keys[o]))
                && delegated == old(delegated) +
                     if SubAggregatorsExist() then Delegations(doc, bucketOrds.keys, vals) else []
      ensures passNumber > 0 ==>
                && bucketOrds.keys == old(bucketOrds.keys) && counts == old(counts)
                && delegated == old(delegated) +
                     if SubAggregatorsExist() then ReplayDelegations(doc, bucketOrds.keys, counts, vals) else []
    {
      if passNumber > 0 {
        var log := ReplayValues(bucketOrds, counts, delegated, doc, vals);
        if SubAggregatorsExist() {
          delegated := log;
        }
      } else {
        var oldCounts := counts;
        counts, delegated := CollectValues(bucketOrds, counts, delegated, doc, vals, SubAggregatorsExist());
        forall o | 0 <= o < |counts|
          ensures counts[o] >= 0
        {
          assert DocCount(counts, o) == counts[o];
          assert DocCount(oldCounts, o) >= 0;
        }
      }
    }

    /**
      doPostCollection followed by the pass increment. After the first pass
      the keys are filled in from `allValues` (every value of every document
      of the index) when NeedsFillIn holds, and then every ordinal competes for
      the min(distinct keys, shard_size) places of the queue; the losers'
      counts become PRUNED. Later passes change nothing but the pass number.
    */
    method PostCollection(allValues: seq<int>)
      requires Valid()
      modifies this, bucketOrds
      ensures Valid() && passNumber == old(passNumber) + 1 && delegated == old(delegated)
      ensures fresh(Repr - old(Repr)) && old(Repr) <= Repr
      ensures old(passNumber) > 0 ==>
                && bucketOrds.keys == old(bucketOrds.keys) && counts == old(counts)
                && prunedBuckets == old(prunedBuckets)
      ensures old(passNumber) == 0 ==>
                && bucketOrds.keys == (if NeedsFillIn(minDocCount, order, |old(bucketOrds.keys)|, requiredSize)
                                       then AddAll(old(bucketOrds.keys), allValues) else old(bucketOrds.keys))
                && fresh(prunedBuckets)
                && prunedBuckets.maxSize == |prunedBuckets.heap| == Min(|bucketOrds.keys|, shardSize)
                && (forall b :: b in prunedBuckets.heap ==>
                      0 <= b.ord < |bucketOrds.keys| && b == Candidate(bucketOrds.keys, old(counts), b.ord))
                && (forall o :: 0 <= o < |bucketOrds.keys| ==>
                      DocCount(counts, o) == if o in Ords(prunedBuckets.heap) then DocCount(old(counts), o) else PRUNED)
                && (forall b, o :: b in prunedBuckets.heap && 0 <= o < |bucketOrds.keys| && o !in Ords(prunedBuckets.heap) ==>
                      Precedes(cmp, b, Candidate(bucketOrds.keys, old(counts), o)))
    {
      if passNumber == 0 {
        if NeedsFillIn(minDocCount, order, bucketOrds.Size(), requiredSize) {
          AddAllProperties(bucketOrds.keys, allValues);
          AddValues(bucketOrds, allValues);
        }
        var queue, pruned := PruneToTopK(bucketOrds, counts, cmp, shardSize);
        prunedBuckets := queue;
        counts := pruned;
        Repr := Repr + {queue};
      }
      passNumber := passNumber + 1;
    }

    /** buildEmptyAggregation: the aggregation's settings and no bucket. */
    function BuildEmptyAggregation(): (r: TermsResult)
      reads this
      ensures r.buckets == [] && r.name == name && r.order == order
    {
      TermsResult(name, order, requiredSize, minDocCount, [])
    }

    /**
      buildAggregation(0) as written: the queue is popped empty and each pop is
      appended, so the list is in pop order, lowest-ranked bucket first. Before
      pruning has run the result is the empty aggregation.
    */
    method BuildAggregation(owningBucketOrdinal: int) returns (r: TermsResult)
      requires Valid() && owningBucketOrdinal == 0
      modifies prunedBuckets
      ensures Valid()
      ensures old(prunedBuckets) == null ==> r == BuildEmptyAggregation()
      ensures prunedBuckets != null ==>
                && prunedBuckets.heap == []
                && r == BuildEmptyAggregation().(buckets := Results(Drain(cmp, old(prunedBuckets.heap)), delegated))
    {
      if prunedBuckets == null {
        return BuildEmptyAggregation();
      }
      var list := DrainAppending(prunedBuckets, delegated);
      InPopOrder(Drain(cmp, old(prunedBuckets.heap)), delegated, list);
      r := TermsResult(name, order, requiredSize, minDocCount, list);
    }

    /**
      buildAggregation(0) as intended, the way the double-terms and geohash-grid
      aggregators build theirs: the i-th pop is stored at index size-1-i, so
      the list runs from the highest-ranked bucket down.
    */
    method BuildAggregationBestFirst(owningBucketOrdinal: int) returns (r: TermsResult)
      requires Valid() && owningBucketOrdinal == 0
      modifies prunedBuckets
      ensures Valid()
      ensures old(prunedBuckets) == null ==> r == BuildEmptyAggregation()
      ensures prunedBuckets != null ==>
                && prunedBuckets.heap == []
                && r == BuildEmptyAggregation().(buckets := Results(Reverse(Drain(cmp, old(prunedBuckets.heap))), delegated))
    {
      if prunedBuckets == null {
        return BuildEmptyAggregation();
      }
      var list := DrainFromBack(prunedBuckets, delegated);
      FromBackIsReversed(Drain(cmp, old(prunedBuckets.heap)), delegated, list[..]);
      r := TermsResult(name, order, requiredSize, minDocCount, list[..]);
    }
  }

  /** The list buildAggregation returns holds exactly the queue's buckets, each ranked below all later ones. */
  lemma AppendedListIsWorstFirst(cmp: Comparator, heap: seq<Bucket>)
    requires DistinctBucketKeys(heap)
    ensures multiset(Drain(cmp, heap)) == multiset(heap)
    ensures WorstFirst(cmp, Drain(cmp, heap))
  {
    DrainIsPermutation(cmp, heap);
    DrainIsWorstFirst(cmp, heap);
  }

  /** Descending count on long terms. */
  const ByCount: Comparator := Comparator(CountDesc, Longs)

  /**
    Two surviving buckets under descending count, key 1 with 5 documents and
    key 2 with 3: buildAggregation lists key 2 first.
  */
  lemma AppendedListCounterexample()
    ensures DistinctBucketKeys([Bucket(1, 5, 0), Bucket(2, 3, 1)])
    ensures Drain(ByCount, [Bucket(1, 5, 0), Bucket(2, 3, 1)]) == [Bucket(2, 3, 1), Bucket(1, 5, 0)]
    ensures !BestFirst(ByCount, Drain(ByCount, [Bucket(1, 5, 0), Bucket(2, 3, 1)]))
  {
    var heap := [Bucket(1, 5, 0), Bucket(2, 3, 1)];
    assert LeastIndex(ByCount, heap) == 1 by {
      LeastUnique(ByCount, heap, 1, LeastIndex(ByCount, heap));
    }
    DrainPop(ByCount, heap);
    assert RemoveAt(heap, 1) == [Bucket(1, 5, 0)];
    DrainPop(ByCount, [Bucket(1, 5, 0)]);
    assert RemoveAt([Bucket(1, 5, 0)], 0) == [];
    var d := Drain(ByCount, heap);
    assert d == [Bucket(2, 3, 1), Bucket(1, 5, 0)];
    assert !Precedes(ByCount, d[0], d[1]);
  }
}
