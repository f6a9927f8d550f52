/**
  The geohash-grid aggregator: the terms algorithm over geohash cells encoded
  as longs, without fill-in and with the grid's own queue order; and the
  aggregator that stands in for it over an unmapped field.
*/
module GeoHashGrid {

  import opened Wrappers
  import opened Buckets
  import Aggregation

  /**
    The order of the grid's bucket queue: more documents rank higher. The
    grid's queue class is not part of this model; ties are taken to be
    broken by the cell as under descending count.
  */
  const GridOrder: Comparator := Comparator(CountDesc, Longs)

  /** A grid result: its name, the requested number of cells and the cell buckets. */
  datatype GridResult = GridResult(name: string, requiredSize: nat, buckets: seq<TermBucket>)

  class GeoHashGridAggregator {
    const name: string
    const requiredSize: nat
    const shardSize: nat
    const mode: Aggregation.ExecutionMode
    /** The factory has sub-aggregation factories. */
    const hasSubAggregations: bool
    const bucketOrds: LongHash
    /** The doc count of each ordinal (BucketsAggregator's doc-count array). */
    var counts: seq<int>
    /** Every document handed to the sub-aggregators, with its bucket ordinal. */
    var delegated: seq<Delegation>
    var pruned: BucketQueue?
    var passNumber: nat
    ghost var Repr: set<object>

    ghost predicate Valid()
      reads this, Repr
    {
      && this in Repr && bucketOrds in Repr && bucketOrds.Valid()
      && |counts| <= |bucketOrds.keys|
      && (passNumber == 0 <==> pruned == null)
      && (pruned != null ==> pruned in Repr && pruned.Valid() && pruned.cmp == GridOrder)
      && (passNumber == 0 ==> forall o :: 0 <= o < |counts| ==> counts[o] >= 0)
    }

    constructor (name: string, requiredSize: nat, shardSize: nat, mode: Aggregation.ExecutionMode, hasSubAggregations: bool)
      ensures Valid() && fresh(Repr)
      ensures this.name == name && this.requiredSize == requiredSize && this.shardSize == shardSize
      ensures this.mode == mode && this.hasSubAggregations == hasSubAggregations
      ensures bucketOrds.keys == [] && counts == [] && delegated == [] && passNumber == 0
    {
      this.name := name;
      this.requiredSize := requiredSize;
      this.shardSize := shardSize;
      this.mode := mode;
      this.hasSubAggregations := hasSubAggregations;
      var table := new LongHash(0);
      bucketOrds := table;
      counts := [];
      delegated := [];
      pruned := null;
      passNumber := 0;
      Repr := {this, table};
    }

    /** The sub-aggregators exist: under PRUNE_FIRST they are created at the end of the first pass. */
    predicate SubAggregatorsExist()
      reads this
    {
      hasSubAggregations && (mode == Aggregation.SinglePass || passNumber > 0)
    }

    /**
      collect(doc, 0) for a document whose cells are `vals`. In the first pass
      every cell is added and counted, and delegated when sub-aggregators
      exist; in a replay nothing is added or counted, and only cells whose
      bucket survived pruning are delegated. A replay sees only documents of
      the first pass, so its cells are all known to the table.
    */
    method Collect(doc: int, owningBucketOrdinal: int, vals: seq<int>)
      requires Valid() && owningBucketOrdinal == 0
      requires passNumber > 0 ==> forall v :: v in vals ==> v in bucketOrds.keys
      modifies this, bucketOrds
      ensures Valid() && Repr == old(Repr)
      ensures passNumber == old(passNumber) && pruned == old(pruned)
      ensures passNumber == 0 ==>
                && bucketOrds.keys == AddAll(old(bucketOrds.keys), vals)
                && (forall o :: 0 <= o < |bucketOrds.keys| ==>
                      DocCount(counts, o) == DocCount(old(counts), o) + Occurrences(vals, bucketOrds.keys[o]))
                && delegated == old(delegated) +
                     if SubAggregatorsExist() then Delegations(doc, bucketOrds.keys, vals) else []
      ensures passNumber > 0 ==>
                && bucketOrds.keys == old(bucketOrds.keys) && counts == old(counts)
                && delegated == old(delegated) +
                     if SubAggregatorsExist() then ReplayDelegations(doc, bucketOrds.keys, counts, vals) else []
    {
      if passNumber > 0 {
        var log := ReplayValues(bucketOrds, counts, delegated, doc, vals);
        if SubAggregatorsExist() {
          delegated := log;
        }
      } else {
        var oldCounts := counts;
        counts, delegated := CollectValues(bucketOrds, counts, delegated, doc, vals, SubAggregatorsExist());
        forall o | 0 <= o < |counts|
          ensures counts[o] >= 0
        {
          assert DocCount(counts, o) == counts[o];
          assert DocCount(oldCounts, o) >= 0;
        }
      }
    }

    /**
      doPostCollection followed by the pass increment. After the first pass
      every cell seen competes for the min(distinct cells, shard_size) places
      of the queue and the losers' counts become PRUNED; no cell is filled in.
      Later passes change nothing but the pass number.
    */
    method PostCollection()
      requires Valid()
      modifies this
      ensures Valid() && passNumber == old(passNumber) + 1 && delegated == old(delegated)
      ensures fresh(Repr - old(Repr)) && old(Repr) <= Repr
      ensures bucketOrds.keys == old(bucketOrds.keys)
      ensures old(passNumber) > 0 ==> counts == old(counts) && pruned == old(pruned)
      ensures old(passNumber) == 0 ==>
                && fresh(pruned)
                && pruned.maxSize == |pruned.heap| == Min(|bucketOrds.keys|, shardSize)
                && (forall b :: b in pruned.heap ==>
                      0 <= b.ord < |bucketOrds.keys| && b == Candidate(bucketOrds.keys, old(counts), b.ord))
                && (forall o :: 0 <= o < |bucketOrds.keys| ==>
                      DocCount(counts, o) == if o in Ords(pruned.heap) then DocCount(old(counts), o) else PRUNED)
                && (forall b, o :: b in pruned.heap && 0 <= o < |bucketOrds.keys| && o !in Ords(pruned.heap) ==>
                      Precedes(GridOrder, b, Candidate(bucketOrds.keys, old(counts), o)))
    {
      if passNumber == 0 {
        var queue, newCounts := PruneToTopK(bucketOrds, counts, GridOrder, shardSize);
        pruned := queue;
        counts := newCounts;
        Repr := Repr + {queue};
      }
      passNumber := passNumber + 1;
    }

    /** buildEmptyAggregation: the aggregation's settings and no cell. */
    function BuildEmptyAggregation(): (r: GridResult)
      reads this
      ensures r.buckets == [] && r.name == name && r.requiredSize == requiredSize
    {
      GridResult(name, requiredSize, [])
    }

    /**
      buildAggregation(0): the queue is popped empty and the i-th pop is
      stored at index size-1-i, so the list runs from the highest-ranked cell
      down. Before pruning has run the result is the empty aggregation.
    */
    method BuildAggregation(owningBucketOrdinal: int) returns (r: GridResult)
      requires Valid() && owningBucketOrdinal == 0
      modifies pruned
      ensures Valid()
      ensures old(pruned) == null ==> r == BuildEmptyAggregation()
      ensures pruned != null ==>
                && pruned.heap == []
                && r == BuildEmptyAggregation().(buckets := Results(Reverse(Drain(GridOrder, old(pruned.heap))), delegated))
    {
      if pruned == null {
        return BuildEmptyAggregation();
      }
      var list := DrainFromBack(pruned, delegated);
      FromBackIsReversed(Drain(GridOrder, old(pruned.heap)), delegated, list[..]);
      r := GridResult(name, requiredSize, list[..]);
    }
  }

  /**
    The grid aggregator over an unmapped field: a single-pass aggregator
    without sub-aggregators that never collects and always builds the empty
    result.
  */
  class Unmapped {
    const name: string
    const requiredSize: nat
    const mode: Aggregation.ExecutionMode

    constructor (name: string, requiredSize: nat)
      ensures this.name == name && this.requiredSize == requiredSize
      ensures mode == Aggregation.SinglePass
    {
      this.name := name;
      this.requiredSize := requiredSize;
      mode := Aggregation.SinglePass;
    }

    /** The factory of an unmapped grid: no sub-factories. */
    function Factory(): (f: Aggregation.Factory)
      reads this
      ensures Aggregation.SubFactories(f) == [] && Aggregation.FactoryMode(f) == Aggregation.SinglePass
      ensures f.name == name
    {
      Aggregation.UnmappedFactory(name)
    }

    method ShouldCollect() returns (r: bool)
      ensures !r
    {
      r := false;
    }

    function BuildEmptyAggregation(): (r: GridResult)
      reads this
      ensures r.buckets == [] && r.name == name && r.requiredSize == requiredSize
    {
      GridResult(name, requiredSize, [])
    }

    method BuildAggregation(owningBucketOrdinal: int) returns (r: GridResult)
      ensures r == BuildEmptyAggregation()
    {
      r := BuildEmptyAggregation();
    }
  }

  /** An unmapped grid never asks for replays, whatever else is in its tree. */
  lemma {:induction false} UnmappedNeverReplays(u: Unmapped)
    ensures !Aggregation.FactoryReplays(u.Factory())
  {
  }

  /** In the aggregator tree an unmapped node never collects, in any pass. */
  lemma {:induction false} UnmappedNodeNeverCollects(a: Aggregation.Aggregator)
    requires a.Valid() && a.factory.UnmappedFactory?
    ensures !a.Collects() && !a.Replays()
  {
  }
}
