/**
  The terms aggregator over double values. It is the long-terms algorithm
  with each double keyed by its 64-bit pattern: collect keys a value by its
  raw bits (doubleToRawLongBits) and the fill-in by its canonical bits
  (doubleToLongBits). The conversions are not modelled; the methods take the
  bit patterns. Term orders compare the doubles the patterns stand for
  (Comparator(order, Doubles), see TermRank), not the patterns as longs. The
  result list is filled from the back, best bucket first.
*/
module DoubleTerms {

  import opened Wrappers
  import opened Buckets
  import Aggregation

  class DoubleTermsAggregator {
    const name: string
    const order: Order
    /** order.comparator(this): the order applied to this aggregator's terms. */
    const cmp: Comparator
    const requiredSize: nat
    const shardSize: nat
    const minDocCount: nat
    const mode: Aggregation.ExecutionMode
    /** The factory has sub-aggregation factories. */
    const hasSubAggregations: bool
    const bucketOrds: LongHash
    /** The doc count of each ordinal (BucketsAggregator's doc-count array). */
    var counts: seq<int>
    /** Every document handed to the sub-aggregators, with its bucket ordinal. */
    var delegated: seq<Delegation>
    var pruned: BucketQueue?
    var passNumber: nat
    ghost var Repr: set<object>

    ghost predicate Valid()
      reads this, Repr
    {
      && this in Repr && bucketOrds in Repr && bucketOrds.Valid()
      && |counts| <= |bucketOrds.keys|
      && (passNumber == 0 <==> pruned == null)
      && (pruned != null ==> pruned in Repr && pruned.Valid() && pruned.cmp == cmp)
      && (passNumber == 0 ==> forall o :: 0 <= o < |counts| ==> counts[o] >= 0)
    }

    constructor (name: string, order: Order, requiredSize: nat, shardSize: nat, minDocCount: nat,
                 mode: Aggregation.ExecutionMode, hasSubAggregations: bool)
      ensures Valid() && fresh(Repr)
      ensures this.name == name && this.order == order && this.requiredSize == requiredSize
      ensures cmp == Comparator(order, Doubles)
      ensures this.shardSize == shardSize && this.minDocCount == minDocCount
      ensures this.mode == mode && this.hasSubAggregations == hasSubAggregations
      ensures bucketOrds.keys == [] && counts == [] && delegated == [] && passNumber == 0
    {
      this.name := name;
      this.order := order;
      cmp := Comparator(order, Doubles);
      this.requiredSize := requiredSize;
      this.shardSize := shardSize;
      this.minDocCount := minDocCount;
      this.mode := mode;
      this.hasSubAggregations := hasSubAggregations;
      var table := new LongHash(0);
      bucketOrds := table;
      counts := [];
      delegated := [];
      pruned := null;
      passNumber := 0;
      Repr := {this, table};
    }

    /** The sub-aggregators exist: under PRUNE_FIRST they are created at the end of the first pass. */
    predicate SubAggregatorsExist()
      reads this
    {
      hasSubAggregations && (mode == Aggregation.SinglePass || passNumber > 0)
    }

    /**
      collect(doc, 0) for a document whose values have the raw bit patterns `vals`. In the first pass
      every value is added and counted, and delegated when sub-aggregators
      exist; in a replay nothing is added or counted, and only values whose
      bucket survived pruning are delegated. A replay sees only documents of
      the first pass, so its values are all known to the table.
    */
    method Collect(doc: int, owningBucketOrdinal: int, vals: seq<int>)
      requires Valid() && owningBucketOrdinal == 0
      requires passNumber > 0 ==> forall v :: v in vals ==> v in bucketOrds.keys
      modifies this, bucketOrds
      ensures Valid() && Repr == old(Repr)
      ensures passNumber == old(passNumber) && pruned == old(pruned)
      ensures passNumber == 0 ==>
                && bucketOrds.keys == AddAll(old(bucketOrds.keys), vals)
                && (forall o :: 0 <= o < |bucketOrds.keys| ==>
                      DocCount(counts, o) == DocCount(old(counts), o) + Occurrences(vals, bucketOrds.keys[o]))
                && delegated == old(delegated) +
                     if SubAggregatorsExist() then Delegations(doc, bucketOrds.keys, vals) else []
      ensures passNumber > 0 ==>
                && bucketOrds.keys == old(bucketOrds.keys) && counts == old(counts)
                && delegated == old(delegated) +
                     if SubAggregatorsExist() then ReplayDelegations(doc, bucketOrds.keys, counts, vals) else []
    {
      if passNumber > 0 {
        var log := ReplayValues(bucketOrds, counts, delegated, doc, vals);
        if SubAggregatorsExist() {
          delegated := log;
        }
      } else {
        var oldCounts := counts;
        counts, delegated := CollectValues(bucketOrds, counts, delegated, doc, vals, SubAggregatorsExist());
        forall o | 0 <= o < |counts|
          ensures counts[o] >= 0
        {
          assert DocCount(counts, o) == counts[o];
          assert DocCount(oldCounts, o) >= 0;
        }
      }
    }

    /**
      doPostCollection followed by the pass increment. After the first pass
      the keys are filled in from `allValues` (the canonical bit pattern of
      every value of every document of the index) when NeedsFillIn holds, and then every ordinal competes for
      the min(distinct keys, shard_size) places of the queue; the losers'
      counts become PRUNED. Later passes change nothing but the pass number.
    */
    method PostCollection(allValues: seq<int>)
      requires Valid()
      modifies this, bucketOrds
      ensures Valid() && passNumber == old(passNumber) + 1 && delegated == old(delegated)
      ensures fresh(Repr - old(Repr)) && old(Repr) <= Repr
      ensures old(passNumber) > 0 ==>
                && bucketOrds.keys == old(bucketOrds.keys) && counts == old(counts)
                && pruned == old(pruned)
      ensures old(passNumber) == 0 ==>
                && bucketOrds.keys == (if NeedsFillIn(minDocCount, order, |old(bucketOrds.keys)|, requiredSize)
                                       then AddAll(old(bucketOrds.keys), allValues) else old(bucketOrds.keys))
                && fresh(pruned)
                && pruned.maxSize == |pruned.heap| == Min(|bucketOrds.keys|, shardSize)
                && (forall b :: b in pruned.heap ==>
                      0 <= b.ord < |bucketOrds.keys| && b == Candidate(bucketOrds.keys, old(counts), b.ord))
                && (forall o :: 0 <= o < |bucketOrds.keys| ==>
                      DocCount(counts, o) == if o in Ords(pruned.heap) then DocCount(old(counts), o) else PRUNED)
                && (forall b, o :: b in pruned.heap && 0 <= o < |bucketOrds.keys| && o !in Ords(pruned.heap) ==>
                      Precedes(cmp, b, Candidate(bucketOrds.keys, old(counts), o)))
    {
      if passNumber == 0 {
        if NeedsFillIn(minDocCount, order, bucketOrds.Size(), requiredSize) {
          AddAllProperties(bucketOrds.keys, allValues);
          AddValues(bucketOrds, allValues);
        }
        var queue, newCounts := PruneToTopK(bucketOrds, counts, cmp, shardSize);
        pruned := queue;
        counts := newCounts;
        Repr := Repr + {queue};
      }
      passNumber := passNumber + 1;
    }

    /** buildEmptyAggregation: the aggregation's settings and no bucket. */
    function BuildEmptyAggregation(): (r: TermsResult)
      reads this
      ensures r.buckets == [] && r.name == name && r.order == order
    {
      TermsResult(name, order, requiredSize, minDocCount, [])
    }

    /**
      buildAggregation(0): the queue is popped empty and the i-th pop is
      stored at index size-1-i, so the list runs from the highest-ranked bucket
      down. Before pruning has run the result is the empty aggregation.
    */
    method BuildAggregation(owningBucketOrdinal: int) returns (r: TermsResult)
      requires Valid() && owningBucketOrdinal == 0
      modifies pruned
      ensures Valid()
      ensures old(pruned) == null ==> r == BuildEmptyAggregation()
      ensures pruned != null ==>
                && pruned.heap == []
                && r == BuildEmptyAggregation().(buckets := Results(Reverse(Drain(cmp, old(pruned.heap))), delegated))
    {
      if pruned == null {
        return BuildEmptyAggregation();
      }
      var list := DrainFromBack(pruned, delegated);
      FromBackIsReversed(Drain(cmp, old(pruned.heap)), delegated, list[..]);
      r := TermsResult(name, order, requiredSize, minDocCount, list[..]);
    }
  }

  /** The pattern of -1.0 (0xBFF0000000000000) read as a signed long. */
  const MinusOneBits: int := -0x4010_0000_0000_0000
  /** The pattern of -2.0 (0xC000000000000000) read as a signed long. */
  const MinusTwoBits: int := -0x4000_0000_0000_0000

  /**
    Ascending term order puts -2.0 before -1.0, although the pattern of -2.0
    is the larger signed long: comparing the raw patterns as longs would put
    them the other way round.
  */
  lemma NegativeDoublesAscend(ordTwo: int, ordOne: int, count: int)
    ensures MinusTwoBits > MinusOneBits
    ensures Precedes(Comparator(TermAsc, Doubles), Bucket(MinusTwoBits, count, ordTwo), Bucket(MinusOneBits, count, ordOne))
    ensures Precedes(Comparator(TermAsc, Longs), Bucket(MinusOneBits, count, ordOne), Bucket(MinusTwoBits, count, ordTwo))
  {
  }
}
