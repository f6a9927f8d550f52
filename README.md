# Two-pass bucket aggregation, geohash neighbours and geo_point mapping options

This project is a Dafny model of three parts of an Elasticsearch code base.

**The two-pass bucket aggregation engine.** An `Aggregator` is a node in a tree of aggregators:
- Its `ExecutionMode` is `single_pass` or `prune_first`.
- It counts collection passes in `passNumber`.
- A `prune_first` node creates its sub-aggregators only at the end of its first pass, and the documents are then replayed to them.
- `shouldCollect`, `requiresMatchReplays`, `postCollection` and `release` walk the tree.

Three bucket aggregators bind this machine to one algorithm:
- **First pass.** Every value is added to a `LongHash`, which maps 64-bit keys to dense ordinals. The document count of the value's ordinal goes up by one, and the document is handed to the sub-aggregators.
- **`doPostCollection`.** Every ordinal is offered to a bounded priority queue of size min(distinct keys, `shard_size`). The ordinals the queue evicts get the PRUNED count.
- **Replay passes.** Values are only looked up. Only documents of surviving buckets are handed on, and counts are not touched.
- **`buildAggregation`.** The queue is drained into the result.

The three aggregators are:
- `LongTermsAggregator` over longs;
- `DoubleTermsAggregator` over the 64-bit patterns of doubles;
- `GeoHashGridAggregator` over geohash cells encoded as longs, with its `Unmapped` stand-in.

**Geohash neighbours (`GeoHashUtils`).**
- `encode(x, y)` interleaves the bits of grid coordinates into a base-32 symbol.
- `neighbor` steps one cell east, west, north or south, carrying the step into the parent cell when it leaves it.
- `addNeighbors` and `neighbors` list the up to eight cells around a cell.

**The geo_point mapping options.**
- The type parser's option loop: `lat_lon`, `precision_step`, `geohash`, `geohash_prefix`, `geohash_precision`, and `path` on old indices.
- The builder's choice of lat, lon and geohash sub-mappers.
- `checkCompatibility`, `iterator`, `addGeohashField` and `doXContentBody`.
- The legacy mapper's own options, which are `ignore_malformed`, `coerce` and the pre-2.0 `validate*`/`normalize*`, and its build, which turns doc values off.
- Mapping values as the JSON parser hands them over: booleans, texts and numbers, a number being an Integer, a wider integer or a double. Booleans and integers are read from a number through Java's `intValue()`, with its 32-bit narrowing.
- The legacy mapper's `CustomGeoPointDocValuesField`, which keeps the distinct points of a document and serialises them 16 bytes each.

The unseen collaborators are modelled by their observable contracts:
- **`LongHash`** (`Buckets.LongHash`): ordinals are `0..size-1` in insertion order; `add` of a known key returns `-1-ord`; `find` returns the ordinal or -1.
- **Lucene's `insertWithOverflow` and `pop`** (`Buckets.BucketQueue`): the queue holds at most `maxSize` buckets; when full, it returns the rejected or evicted bucket; `pop` removes the lowest-ranked bucket.
- **The bucket orders** (`Buckets.Order`, `Buckets.Comparator`): count descending or ascending, or term ascending or descending, with ties broken by the term. Long keys compare as signed longs. Double keys are the bit patterns of the doubles, and they compare as the doubles they encode (`Buckets.TermRank`).
- **`BucketsAggregator`'s document counts and sub-aggregation hand-off**: a count sequence, where PRUNED is -1, and a log of `(doc, ordinal)` delegations. A bucket's sub-aggregations are the documents delegated for its ordinal.

Values of documents, the whole index's values for fill-in, and how a mapping text reads as a boolean, an integer or a number of geohash levels are parameters.

The files:
- `wrappers.dfy` holds `Option` and `Result`.
- `aggregator.dfy` is `Aggregator.java`.
- `buckets.dfy` holds the shared table, queue, counts and the collect, prune and drain loops.
- `long_terms.dfy`, `double_terms.dfy` and `geohash_grid.dfy` are the three bucket aggregators.
- `geohash.dfy` is `GeoHashUtils`.
- `geo_point_mapper.dfy` is `BaseGeoPointFieldMapper`.
- `geo_point_legacy.dfy` is `GeoPointFieldMapperLegacy`.

## Model

| member | source | states |
|---|---|---|
| Aggregation.ParseExecutionMode | src/main/java/org/elasticsearch/search/aggregations/Aggregator.java:77-94 | Succeeds iff the value is "single_pass" or "prune_first", returning the mode with that name; otherwise fails with "No executionMode found for value: " and the value |
| Aggregation.ModeName | src/main/java/org/elasticsearch/search/aggregations/Aggregator.java:57-65 | The name a mode is parsed from: "single_pass" for SINGLE_PASS and "prune_first" for PRUNE_FIRST |
| Aggregation.Aggregator.constructor | src/main/java/org/elasticsearch/search/aggregations/Aggregator.java:124-148 | depth is 0 for a root and parent depth + 1 otherwise; pass 0; a PRUNE_FIRST node starts with no sub-aggregators, a SINGLE_PASS node with one per sub-factory; the tree is valid |
| Aggregation.Aggregator.CreateSubAggregators | src/main/java/org/elasticsearch/search/aggregations/Aggregator.java:145 | One fresh pass-0 sub-aggregator per sub-factory, in order; pass number, release flag and name cache unchanged |
| Aggregation.Aggregator.Replays | src/main/java/org/elasticsearch/search/aggregations/Aggregator.java:160-170 | requiresMatchReplays over the live tree: PRUNE_FIRST here or in some sub-aggregator; its meaning over the factory tree is ReplaysMatchFactory |
| Aggregation.Aggregator.RequiresMatchReplays | src/main/java/org/elasticsearch/search/aggregations/Aggregator.java:160-170 | True iff this node is PRUNE_FIRST or some sub-aggregator requires replays (the recursive Replays predicate) |
| Aggregation.Aggregator.ReplaysMatchFactory | src/main/java/org/elasticsearch/search/aggregations/Aggregator.java:160-170 | Whatever the pass, the live tree requires replays exactly when its factory tree holds a PRUNE_FIRST factory, although PRUNE_FIRST nodes have no children before their first pass ends |
| Aggregation.Aggregator.ShouldCollect | src/main/java/org/elasticsearch/search/aggregations/Aggregator.java:238-253 | True in pass 0 (unless the node is unmapped) and, in later passes, iff some sub-aggregator should collect |
| Aggregation.Aggregator.Collects | src/main/java/org/elasticsearch/search/aggregations/Aggregator.java:238-253 | shouldCollect over the live tree: never when unmapped; in pass 0 otherwise; later only while some sub-aggregator collects. SinglePassTreeCollectsOnce and UnmappedNodeNeverCollects state its consequences |
| Aggregation.Aggregator.SinglePassTreeCollectsOnce | src/main/java/org/elasticsearch/search/aggregations/Aggregator.java:238-253 | In a tree with no PRUNE_FIRST node, a node collects exactly in pass 0 when it is not unmapped |
| Aggregation.Aggregator.PostCollection | src/main/java/org/elasticsearch/search/aggregations/Aggregator.java:271-286 | The doPostCollection hooks run in post-order (sub-aggregators first, in order); the pass number goes up by exactly one; deferred sub-aggregators are created, fresh at pass 0, only at the end of a PRUNE_FIRST node's first pass, and otherwise every sub-aggregator advanced one pass |
| Aggregation.Aggregator.PostCollectSubs | src/main/java/org/elasticsearch/search/aggregations/Aggregator.java:272-274 | Every sub-aggregator's postCollection runs once, in order, each advancing one pass; the node's own pass and children are unchanged |
| Aggregation.Aggregator.PostCollectSub | src/main/java/org/elasticsearch/search/aggregations/Aggregator.java:273 | One sub-aggregator's postCollection, leaving the others unchanged |
| Aggregation.Aggregator.Release | src/main/java/org/elasticsearch/search/aggregations/Aggregator.java:296-305 | Every node of the tree is released even when some doRelease fails; the call completes normally iff no doRelease in the tree fails; the node's sub-aggregators, pass number and name cache are unchanged |
| Aggregation.Aggregator.ReleaseSubs | src/main/java/org/elasticsearch/search/aggregations/Aggregator.java:302 | Releasables.release over the children: every child tree released, in order, whatever failed before; each child keeps its pass number, its sub-aggregators and its name cache |
| Aggregation.Aggregator.ReleaseSub | src/main/java/org/elasticsearch/search/aggregations/Aggregator.java:302 | Releasing one child tree keeps its pass number, sub-aggregators and name cache, and leaves the other children untouched |
| Aggregation.Aggregator.SubAggregator | src/main/java/org/elasticsearch/search/aggregations/Aggregator.java:197-205 | The name cache is filled from the current sub-aggregators on the first call only; the result is the cached aggregator for the name, or null |
| Aggregation.NameMapLookup | src/main/java/org/elasticsearch/search/aggregations/Aggregator.java:199-202 | A name is in the cache iff some sub-aggregator has it, and then it maps to the last sub-aggregator with that name |
| Aggregation.Aggregator.BuildEmptySubAggregations | src/main/java/org/elasticsearch/search/aggregations/Aggregator.java:323-329 | One empty aggregation per sub-aggregator, in order, each named after its sub-aggregator |
| Buckets.PrecedesStrictTotal | src/main/java/org/elasticsearch/search/aggregations/bucket/terms/LongTermsAggregator.java:120 | The queue order is irreflexive, asymmetric and transitive, and total on buckets with different keys |
| Buckets.TermRank | src/main/java/org/elasticsearch/search/aggregations/bucket/terms/DoubleTermsAggregator.java:129 | The position of a key in term order: a long key is itself; a double key's bit pattern is ranked as the double it encodes |
| Buckets.TermRankInjective | src/main/java/org/elasticsearch/search/aggregations/bucket/terms/LongTermsAggregator.java:120 | Different keys have different ranks, so term order ties only on equal keys |
| Buckets.DoubleRankIsSignMagnitude | src/main/java/org/elasticsearch/search/aggregations/bucket/terms/DoubleTermsAggregator.java:129 | Double patterns rank as sign and magnitude: every negative below every non-negative, larger magnitudes lower among negatives and higher among non-negatives |
| Buckets.Grow | src/main/java/org/elasticsearch/search/aggregations/bucket/terms/LongTermsAggregator.java:88 | Growing the count array keeps its length or extends it to n, and keeps every ordinal's count (new ones read 0) |
| Buckets.Increment | src/main/java/org/elasticsearch/search/aggregations/bucket/terms/LongTermsAggregator.java:88 | collectBucket: the ordinal's count goes up by one, growing the count array if needed; every other count is unchanged |
| Buckets.Clear | src/main/java/org/elasticsearch/search/aggregations/bucket/terms/LongTermsAggregator.java:136-139 | clearDocCount: the ordinal's count becomes PRUNED; every other count is unchanged |
| Buckets.DocsFor | src/main/java/org/elasticsearch/search/aggregations/bucket/terms/LongTermsAggregator.java:157 | bucketAggregations(ord): a document is there iff it was delegated for that ordinal, exactly as many times as it was delegated for it |
| Buckets.DocsForAppend | src/main/java/org/elasticsearch/search/aggregations/bucket/terms/LongTermsAggregator.java:157 | Delegations logged later come later: the documents of a longer log are those of the earlier part followed by those of the later part |
| Buckets.OrdOf | src/main/java/org/elasticsearch/search/aggregations/bucket/terms/LongTermsAggregator.java:75 | The ordinal of a key in the table: an index holding the key, and -1 iff the key is absent |
| Buckets.OrdOfUnique | src/main/java/org/elasticsearch/search/aggregations/bucket/terms/LongTermsAggregator.java:75 | With distinct keys, an index holding the key is the key's ordinal |
| Buckets.Occurrences | src/main/java/org/elasticsearch/search/aggregations/bucket/terms/LongTermsAggregator.java:82-89 | The number of times a value occurs in a document's values, zero iff it does not occur |
| Buckets.AddOne | src/main/java/org/elasticsearch/search/aggregations/bucket/terms/LongTermsAggregator.java:84 | Adding one key keeps the table as a prefix, adds at most one entry, and afterwards holds exactly the old keys and the new one |
| Buckets.AddAll | src/main/java/org/elasticsearch/search/aggregations/bucket/terms/LongTermsAggregator.java:82-89 | The keys after adding every value in order; its properties are AddAllProperties and AddAllIdempotent |
| Buckets.LongHash.constructor | src/main/java/org/elasticsearch/search/aggregations/bucket/terms/LongTermsAggregator.java:58 | An empty table with the given number of slots |
| Buckets.LongHash.Find | src/main/java/org/elasticsearch/search/aggregations/bucket/terms/LongTermsAggregator.java:75 | The ordinal of the key, or -1 iff the key was never added |
| Buckets.LongHash.Add | src/main/java/org/elasticsearch/search/aggregations/bucket/terms/LongTermsAggregator.java:84-87 | A new key gets the next dense ordinal and it is returned; a known key is left in place and -1-ordinal is returned, so decoding gives its ordinal |
| Buckets.BucketQueue.constructor | src/main/java/org/elasticsearch/search/aggregations/bucket/terms/LongTermsAggregator.java:120 | An empty queue with the given capacity and order |
| Buckets.BucketQueue.Top | src/main/java/org/elasticsearch/search/aggregations/bucket/terms/LongTermsAggregator.java:135 | The position of a bucket that every other queued bucket ranks above |
| Buckets.AddAllProperties | src/main/java/org/elasticsearch/search/aggregations/bucket/terms/LongTermsAggregator.java:82-89 | Adding values keeps the existing ordinals, keeps keys distinct, contains every value and adds nothing else |
| Buckets.AddAllIdempotent | src/main/java/org/elasticsearch/search/aggregations/bucket/terms/LongTermsAggregator.java:107-116 | Adding values that are all known changes nothing |
| Buckets.BucketQueue.InsertWithOverflow | src/main/java/org/elasticsearch/search/aggregations/bucket/terms/LongTermsAggregator.java:135 | With room, the bucket is added and nothing returned; when full, the size stays and either the new bucket is returned (it ranks below all) or the lowest-ranked bucket is evicted, returned, and replaced |
| Buckets.BucketQueue.Pop | src/main/java/org/elasticsearch/search/aggregations/bucket/terms/LongTermsAggregator.java:156 | Removes and returns the lowest-ranked bucket |
| Buckets.Drain | src/main/java/org/elasticsearch/search/aggregations/bucket/terms/LongTermsAggregator.java:155-158 | The order in which popping a queue empty yields its buckets; exactly as many as the queue holds |
| Buckets.DrainPop | src/main/java/org/elasticsearch/search/aggregations/bucket/terms/LongTermsAggregator.java:156 | The drain is the lowest-ranked bucket followed by the drain of the rest, whose keys stay distinct |
| Buckets.DrainIsPermutation | src/main/java/org/elasticsearch/search/aggregations/bucket/terms/LongTermsAggregator.java:155-158 | Popping a queue empty yields exactly its buckets (as a multiset) |
| Buckets.DrainIsWorstFirst | src/main/java/org/elasticsearch/search/aggregations/bucket/terms/LongTermsAggregator.java:155-158 | Popping a queue empty yields its buckets from the lowest-ranked up |
| Buckets.ReversedDrainIsBestFirst | src/main/java/org/elasticsearch/search/aggregations/bucket/terms/DoubleTermsAggregator.java:150-155 | Filling from the back yields exactly the queue's buckets, from the highest-ranked down |
| Buckets.Reverse | src/main/java/org/elasticsearch/search/aggregations/bucket/terms/DoubleTermsAggregator.java:150-155 | Index i of the result is index size-1-i of the input |
| Buckets.ReverseOfWorstFirst | src/main/java/org/elasticsearch/search/aggregations/bucket/terms/DoubleTermsAggregator.java:150-155 | Reversing a worst-first list gives a best-first list |
| Buckets.ReverseMultiset | src/main/java/org/elasticsearch/search/aggregations/bucket/terms/DoubleTermsAggregator.java:150-155 | Reversing keeps exactly the same elements |
| Buckets.Results | src/main/java/org/elasticsearch/search/aggregations/bucket/terms/LongTermsAggregator.java:157 | One result bucket per queued bucket, in the same order, with its key, count and sub-aggregations |
| Buckets.CollectValues | src/main/java/org/elasticsearch/search/aggregations/bucket/terms/LongTermsAggregator.java:82-89 | The first-pass loop: keys become AddAll of the values, each ordinal's count rises by the number of occurrences of its key, and, when delegating, each value's (doc, ordinal) is logged in order |
| Buckets.ReplayValues | src/main/java/org/elasticsearch/search/aggregations/bucket/terms/LongTermsAggregator.java:71-79 | The replay loop: the table and counts are untouched and only the values whose count is not PRUNED are logged, in order |
| Buckets.ReplayDelegatesSurvivorsOnly | src/main/java/org/elasticsearch/search/aggregations/bucket/terms/LongTermsAggregator.java:76-77 | A replay delegates a value iff its bucket was not pruned |
| Buckets.ReplayWithoutPruningIsFirstPass | src/main/java/org/elasticsearch/search/aggregations/bucket/terms/LongTermsAggregator.java:71-89 | With nothing pruned, a replay delegates exactly what the first pass delegated |
| Buckets.AddValues | src/main/java/org/elasticsearch/search/aggregations/bucket/terms/LongTermsAggregator.java:107-116 | The fill-in loop only adds keys: keys become AddAll of the values |
| Buckets.PruneToTopK | src/main/java/org/elasticsearch/search/aggregations/bucket/terms/LongTermsAggregator.java:119-140 | The queue has capacity and size min(distinct keys, shard size); each queued bucket is its ordinal's (key, count); survivors keep their count, every other ordinal becomes PRUNED; every survivor outranks every pruned bucket; with no more keys than the shard size nothing is pruned |
| Buckets.AllFitNothingPruned | src/main/java/org/elasticsearch/search/aggregations/bucket/terms/LongTermsAggregator.java:119-139 | When the queue holds as many buckets as there are keys, every ordinal survives |
| Buckets.NeedsFillIn | src/main/java/org/elasticsearch/search/aggregations/bucket/terms/LongTermsAggregator.java:105 | Fill-in happens iff minDocCount is 0 and the order is not COUNT_DESC or fewer keys than requiredSize were seen |
| Buckets.DrainAppending | src/main/java/org/elasticsearch/search/aggregations/bucket/terms/LongTermsAggregator.java:155-158 | The queue ends empty and the list holds the pops in pop order, each with its ordinal's sub-aggregations |
| Buckets.InPopOrder | src/main/java/org/elasticsearch/search/aggregations/bucket/terms/LongTermsAggregator.java:155-158 | A list whose j-th entry is the result of the j-th pop is the pop-order result list |
| Buckets.DrainFromBack | src/main/java/org/elasticsearch/search/aggregations/bucket/terms/DoubleTermsAggregator.java:150-155 | The queue ends empty and the i-th pop lands at index size-1-i, with its ordinal's sub-aggregations |
| Buckets.FromBackIsReversed | src/main/java/org/elasticsearch/search/aggregations/bucket/terms/DoubleTermsAggregator.java:151-154 | An array filled from the back holds the results of the reversed pop order |
| LongTerms.LongTermsAggregator.constructor | src/main/java/org/elasticsearch/search/aggregations/bucket/terms/LongTermsAggregator.java:50-59 | Settings stored; empty table, counts and log; pass 0 |
| LongTerms.LongTermsAggregator.Collect | src/main/java/org/elasticsearch/search/aggregations/bucket/terms/LongTermsAggregator.java:67-91 | Pass 0: every value added, counts rise by occurrences, documents delegated when sub-aggregators exist. Replay: keys and counts unchanged, only surviving buckets delegated |
| LongTerms.LongTermsAggregator.PostCollection | src/main/java/org/elasticsearch/search/aggregations/bucket/terms/LongTermsAggregator.java:97-141 | After pass 0: fill-in exactly when minDocCount is 0 and (order is not COUNT_DESC or fewer keys than requiredSize), then top-K pruning as in PruneToTopK. Later passes change nothing; the pass goes up by one |
| LongTerms.LongTermsAggregator.BuildEmptyAggregation | src/main/java/org/elasticsearch/search/aggregations/bucket/terms/LongTermsAggregator.java:165-167 | No bucket; the aggregation's name and order |
| LongTerms.LongTermsAggregator.BuildAggregation | src/main/java/org/elasticsearch/search/aggregations/bucket/terms/LongTermsAggregator.java:146-162 | As written: empty before pruning; otherwise the queue is emptied and the buckets are listed in pop order |
| LongTerms.LongTermsAggregator.BuildAggregationBestFirst | src/main/java/org/elasticsearch/search/aggregations/bucket/terms/LongTermsAggregator.java:146-162 | Corrected: the queue is emptied and the buckets are listed from the highest-ranked down, as the double-terms aggregator does |
| LongTerms.AppendedListIsWorstFirst | src/main/java/org/elasticsearch/search/aggregations/bucket/terms/LongTermsAggregator.java:155-158 | The list as written holds exactly the queue's buckets, each ranked below every later one |
| LongTerms.AppendedListCounterexample | src/main/java/org/elasticsearch/search/aggregations/bucket/terms/LongTermsAggregator.java:155-158 | Buckets (key 1, 5 docs) and (key 2, 3 docs) under COUNT_DESC come out key 2 first, which is not best-first |
| DoubleTerms.DoubleTermsAggregator.constructor | src/main/java/org/elasticsearch/search/aggregations/bucket/terms/DoubleTermsAggregator.java:50-58 | Settings stored; empty table, counts and log; pass 0 |
| DoubleTerms.DoubleTermsAggregator.Collect | src/main/java/org/elasticsearch/search/aggregations/bucket/terms/DoubleTermsAggregator.java:66-90 | As for long terms, over the values' bit patterns |
| DoubleTerms.DoubleTermsAggregator.PostCollection | src/main/java/org/elasticsearch/search/aggregations/bucket/terms/DoubleTermsAggregator.java:95-138 | As for long terms: the same fill-in condition, then top-K pruning; nothing after pass 0 |
| DoubleTerms.DoubleTermsAggregator.BuildEmptyAggregation | src/main/java/org/elasticsearch/search/aggregations/bucket/terms/DoubleTermsAggregator.java:161-163 | No bucket; the aggregation's name and order |
| DoubleTerms.DoubleTermsAggregator.BuildAggregation | src/main/java/org/elasticsearch/search/aggregations/bucket/terms/DoubleTermsAggregator.java:144-158 | Empty before pruning; otherwise the queue is emptied and the result is the reversed pop order, best first, each bucket with its sub-aggregations |
| DoubleTerms.NegativeDoublesAscend | src/main/java/org/elasticsearch/search/aggregations/bucket/terms/DoubleTermsAggregator.java:117-129 | Under TERM_ASC, -2.0 ranks before -1.0 although its bit pattern is the larger signed long, and a comparison of the patterns would put them the other way round |
| GeoHashGrid.GeoHashGridAggregator.constructor | src/main/java/org/elasticsearch/search/aggregations/bucket/geogrid/GeoHashGridAggregator.java:51-58 | Settings stored; empty table, counts and log; pass 0 |
| GeoHashGrid.GeoHashGridAggregator.Collect | src/main/java/org/elasticsearch/search/aggregations/bucket/geogrid/GeoHashGridAggregator.java:65-89 | Pass 0 adds and counts every cell; a replay delegates only surviving cells and changes no count |
| GeoHashGrid.GeoHashGridAggregator.PostCollection | src/main/java/org/elasticsearch/search/aggregations/bucket/geogrid/GeoHashGridAggregator.java:105-136 | After pass 0, with no fill-in, the keys stay and min(cells, shard size) cells survive, outranking every pruned one; later passes change nothing |
| GeoHashGrid.GeoHashGridAggregator.BuildEmptyAggregation | src/main/java/org/elasticsearch/search/aggregations/bucket/geogrid/GeoHashGridAggregator.java:157-160 | No cell; the aggregation's name and required size |
| GeoHashGrid.GeoHashGridAggregator.BuildAggregation | src/main/java/org/elasticsearch/search/aggregations/bucket/geogrid/GeoHashGridAggregator.java:138-155 | Empty before pruning; otherwise the queue is emptied and the cells come out best first, filled from the back |
| GeoHashGrid.Unmapped.constructor | src/main/java/org/elasticsearch/search/aggregations/bucket/geogrid/GeoHashGridAggregator.java:171-175 | Always SINGLE_PASS |
| GeoHashGrid.Unmapped.Factory | src/main/java/org/elasticsearch/search/aggregations/bucket/geogrid/GeoHashGridAggregator.java:173 | The unmapped factory has no sub-factories and is SINGLE_PASS |
| GeoHashGrid.Unmapped.ShouldCollect | src/main/java/org/elasticsearch/search/aggregations/bucket/geogrid/GeoHashGridAggregator.java:177-180 | Always false |
| GeoHashGrid.Unmapped.BuildEmptyAggregation | src/main/java/org/elasticsearch/search/aggregations/bucket/geogrid/GeoHashGridAggregator.java:196-198 | No cell; the aggregation's name and required size |
| GeoHashGrid.Unmapped.BuildAggregation | src/main/java/org/elasticsearch/search/aggregations/bucket/geogrid/GeoHashGridAggregator.java:190-198 | Equals the empty aggregation |
| GeoHashGrid.UnmappedNeverReplays | src/main/java/org/elasticsearch/search/aggregations/bucket/geogrid/GeoHashGridAggregator.java:173 | An unmapped grid never requires replays |
| GeoHashGrid.UnmappedNodeNeverCollects | src/main/java/org/elasticsearch/search/aggregations/bucket/geogrid/GeoHashGridAggregator.java:177-188 | In the aggregator tree an unmapped node neither collects nor replays, in any pass |
| GeoHash.CellIndex | core/src/main/java/org/elasticsearch/common/geo/GeoHashUtils.java:38-40 | encode's index is in 0..31 |
| GeoHash.Encode | core/src/main/java/org/elasticsearch/common/geo/GeoHashUtils.java:38-40 | encode(x, y): the alphabet symbol at CellIndex; DecodeEncode and EncodeDecode prove it inverse to the decoding |
| GeoHash.Base32Distinct | core/src/main/java/org/elasticsearch/common/geo/GeoHashUtils.java:38-40 | The 32 symbols of the alphabet are all different |
| GeoHash.IndexOf | core/src/main/java/org/elasticsearch/common/geo/GeoHashUtils.java:62 | String.indexOf: an index of the string, or -1 |
| GeoHash.IndexOfFinds | core/src/main/java/org/elasticsearch/common/geo/GeoHashUtils.java:62 | indexOf returns the first index holding the character, and -1 iff the character is absent |
| GeoHash.DecodeCell | core/src/main/java/org/elasticsearch/common/geo/GeoHashUtils.java:62-75 | The decoded x is below 8 and y below 4 |
| GeoHash.DecodeEncode | core/src/main/java/org/elasticsearch/common/geo/GeoHashUtils.java:62-75 | Decoding encode(x, y) gives x mod 8 and y mod 4, so coordinates in range come back unchanged and others wrap through the bit masks |
| GeoHash.EncodeDecode | core/src/main/java/org/elasticsearch/common/geo/GeoHashUtils.java:62-75 | Encoding the decoded coordinates of an alphabet symbol gives the symbol back |
| GeoHash.DecodeIsIndexOf | core/src/main/java/org/elasticsearch/common/geo/GeoHashUtils.java:62-75 | The decoding splits the symbol's indexOf in the alphabet into x (bits 0, 2, 4) and y (bits 1, 3) |
| GeoHash.DecodeOutsideAlphabet | core/src/main/java/org/elasticsearch/common/geo/GeoHashUtils.java:62 | A character outside the alphabet has indexOf -1 and decodes as (7, 3) |
| GeoHash.Neighbor | core/src/main/java/org/elasticsearch/common/geo/GeoHashUtils.java:61-108 | A result has exactly `level` characters, and an east-west step never fails |
| GeoHash.NeighborInside | core/src/main/java/org/elasticsearch/common/geo/GeoHashUtils.java:97-98 | A step that stays inside the parent keeps the first level-1 characters and changes only the last |
| GeoHash.NeighborCarry | core/src/main/java/org/elasticsearch/common/geo/GeoHashUtils.java:99-106 | A step that leaves the parent is the parent's step plus the wrapped character, and a failing parent step fails |
| GeoHash.AlongTop | core/src/main/java/org/elasticsearch/common/geo/GeoHashUtils.java:77-85 | At level 1 a north-south step fails iff it leaves rows 0..3 |
| GeoHash.StepAcross | core/src/main/java/org/elasticsearch/common/geo/GeoHashUtils.java:61-108 | An east-west step keeps the row and moves the column by dx, wrapping around the grid of the level, with the x/y roles swapped on even levels |
| GeoHash.StepAlong | core/src/main/java/org/elasticsearch/common/geo/GeoHashUtils.java:61-108 | A north-south step fails iff it would leave the grid's rows; otherwise it moves the row by dy and keeps the column |
| GeoHash.Row | core/src/main/java/org/elasticsearch/common/geo/GeoHashUtils.java:61-108 | The row of a cell, counted from the south, is within the rows of its level |
| GeoHash.Col | core/src/main/java/org/elasticsearch/common/geo/GeoHashUtils.java:61-108 | The column of a cell, counted from the west, is within the columns of its level |
| GeoHash.CoordsOfPrefix | core/src/main/java/org/elasticsearch/common/geo/GeoHashUtils.java:61-108 | A cell's row and column depend only on its first level characters |
| GeoHash.NeighborsAreSurroundingCells | core/src/main/java/org/elasticsearch/common/geo/GeoHashUtils.java:129-148 | The cells addNeighbors adds are, in order, NW, N, NE (when a northern row exists), W, E, SW, S, SE (when a southern row exists), each at its row and wrapping column offset |
| GeoHash.GeohashList.Add | core/src/main/java/org/elasticsearch/common/geo/GeoHashUtils.java:133-144 | Appends one geohash to the collection |
| GeoHash.AddBand | core/src/main/java/org/elasticsearch/common/geo/GeoHashUtils.java:133-144 | Appends the west neighbour, the cell and the east neighbour |
| GeoHash.AddNeighbors | core/src/main/java/org/elasticsearch/common/geo/GeoHashUtils.java:129-148 | Appends exactly NeighborsOf to the given collection in place when the length is between 1 and the geohash's length, and fails with nothing added otherwise |
| GeoHash.Neighbors | core/src/main/java/org/elasticsearch/common/geo/GeoHashUtils.java:48-50 | The neighbours of the whole geohash in a new list; fails iff the geohash is empty |
| GeoPointMapper.ParsePathType | core/src/main/java/org/elasticsearch/index/mapper/geo/BaseGeoPointFieldMapper.java:181-183 | Succeeds iff the text is "full" or "just_name", and then the path type's name is the text |
| GeoPointMapper.PathTypeRoundTrip | core/src/main/java/org/elasticsearch/index/mapper/geo/BaseGeoPointFieldMapper.java:460-461 | A path type written by its lower-case name reads back as itself |
| GeoPointMapper.NodeBoolean | core/src/main/java/org/elasticsearch/index/mapper/geo/BaseGeoPointFieldMapper.java:176 | nodeBooleanValue: a boolean as it is, a number true iff its intValue() is non-zero, a text as the text reading says; NumberTruth states the number cases |
| GeoPointMapper.NodeInteger | core/src/main/java/org/elasticsearch/index/mapper/geo/BaseGeoPointFieldMapper.java:179 | nodeIntegerValue: a number's intValue(), anything else through the text reading, which may fail; NumberAsInteger states the number cases |
| GeoPointMapper.GeohashLevels | core/src/main/java/org/elasticsearch/index/mapper/geo/BaseGeoPointFieldMapper.java:194-197 | geohash_precision: only an Integer is the number of levels; a Long, a Double or a text is read as a distance from its text; LevelsOnlyFromIntegers states each case |
| GeoPointMapper.Low32 | core/src/main/java/org/elasticsearch/index/mapper/geo/BaseGeoPointFieldMapper.java:179 | The (int) narrowing of an integer: congruent to it modulo 2^32, and equal to it when it fits in an int |
| GeoPointMapper.Saturate32 | core/src/main/java/org/elasticsearch/index/mapper/geo/BaseGeoPointFieldMapper.java:179 | The (int) cast of a double's whole part: equal to it iff it fits in an int, otherwise the nearer end of the int range |
| GeoPointMapper.NumberTruth | core/src/main/java/org/elasticsearch/index/mapper/geo/BaseGeoPointFieldMapper.java:176 | A number reads as true iff its intValue() is non-zero: an Integer iff non-zero, a wider integer iff its low 32 bits are non-zero, a double iff its whole part is non-zero, so 4294967296 and 0.5 read as false |
| GeoPointMapper.NumberAsInteger | core/src/main/java/org/elasticsearch/index/mapper/geo/BaseGeoPointFieldMapper.java:179 | A number always reads as an integer: an Integer as itself, a wider integer as a value congruent to it modulo 2^32, a double whose whole part fits as that whole part |
| GeoPointMapper.LevelsOnlyFromIntegers | core/src/main/java/org/elasticsearch/index/mapper/geo/BaseGeoPointFieldMapper.java:194-197 | An Integer is taken as the number of levels as it is; a Long and a Double go to the distance reading with their decimal and double texts |
| GeoPointMapper.ParseStep | core/src/main/java/org/elasticsearch/index/mapper/geo/BaseGeoPointFieldMapper.java:172-201 | One iteration of the option loop: a failure stays, an option is applied, a multi-field key is consumed, anything else is left |
| GeoPointMapper.ParseOptions | core/src/main/java/org/elasticsearch/index/mapper/geo/BaseGeoPointFieldMapper.java:171-202 | The option loop over a node in order; its outcome is stated by ParseOptionsOutcome, UnclaimedMembers, LastOptionWins and FailureStays |
| GeoPointMapper.ApplyOption | core/src/main/java/org/elasticsearch/index/mapper/geo/BaseGeoPointFieldMapper.java:175-199 | One option entry fails iff its value cannot be read (precision_step, path, geohash_precision) |
| GeoPointMapper.ParseOptionsOutcome | core/src/main/java/org/elasticsearch/index/mapper/geo/BaseGeoPointFieldMapper.java:171-203 | The loop fails iff some option entry's value cannot be read; otherwise what is left is exactly the entries that are neither options (path only before 2.0.0-beta1) nor multi-field keys, in order |
| GeoPointMapper.UnclaimedMembers | core/src/main/java/org/elasticsearch/index/mapper/geo/BaseGeoPointFieldMapper.java:171-203 | An entry is left iff it is in the node, is not an option and is not a multi-field key |
| GeoPointMapper.LastOptionWins | core/src/main/java/org/elasticsearch/index/mapper/geo/BaseGeoPointFieldMapper.java:175-192 | lat_lon and geohash_prefix take the value of their last entry |
| GeoPointMapper.PrefixEnablesGeohash | core/src/main/java/org/elasticsearch/index/mapper/geo/BaseGeoPointFieldMapper.java:187-192 | geohash_prefix true also enables geohash; false leaves geohash as it was; nothing else changes |
| GeoPointMapper.GeoPointBuilder.ParseOptionEntries | core/src/main/java/org/elasticsearch/index/mapper/geo/BaseGeoPointFieldMapper.java:171-203 | The loop, run in place on the builder, fails iff ParseOptions fails, with its error, and otherwise leaves the builder's options and the remaining entries that ParseOptions gives |
| GeoPointMapper.FailureStays | core/src/main/java/org/elasticsearch/index/mapper/geo/BaseGeoPointFieldMapper.java:179-197 | Once an option fails, the whole parse fails with that error |
| GeoPointMapper.WithSubFields | core/src/main/java/org/elasticsearch/index/mapper/geo/BaseGeoPointFieldMapper.java:140-156 | lat_lon enabled iff asked for (or already), geohash enabled iff geohash or geohash_prefix (or already), with the builder's precision and prefix flag; other settings unchanged |
| GeoPointMapper.PrefixOnlyWithGeohash | core/src/main/java/org/elasticsearch/index/mapper/geo/BaseGeoPointFieldMapper.java:152-155 | From a fresh field type, prefixes are enabled only together with geohash |
| GeoPointMapper.GeoPointBuilder.BuildSubMappers | core/src/main/java/org/elasticsearch/index/mapper/geo/BaseGeoPointFieldMapper.java:130-158 | lat and lon mappers iff lat_lon, a geohash mapper iff geohash or geohash_prefix, built under the builder's path type inside the field's path; the context's path is restored; the field type is WithSubFields |
| GeoPointMapper.GeoPointFieldType.SetGeohashEnabled | core/src/main/java/org/elasticsearch/index/mapper/geo/BaseGeoPointFieldMapper.java:296-301 | Sets the geohash type, precision and prefix flag and nothing else |
| GeoPointMapper.GeoPointFieldType.SetLatLonEnabled | core/src/main/java/org/elasticsearch/index/mapper/geo/BaseGeoPointFieldMapper.java:315-319 | Sets the lat and lon types and nothing else |
| GeoPointMapper.GeoPointFieldType.SetIgnoreMalformed | core/src/main/java/org/elasticsearch/index/mapper/geo/BaseGeoPointFieldMapper.java:325-328 | Sets ignore_malformed and nothing else |
| GeoPointMapper.GeoPointFieldType.SetHasDocValues | core/src/main/java/org/elasticsearch/index/mapper/geo/GeoPointFieldMapperLegacy.java:115-116 | Sets has-doc-values and nothing else |
| GeoPointMapper.CheckCompatibility | core/src/main/java/org/elasticsearch/index/mapper/geo/BaseGeoPointFieldMapper.java:259-278 | Appends to the conflicts, adding nothing iff the settings agree; each of the five messages (lat_lon, precision_step, geohash, geohash_precision, geohash_prefix) is added iff its own setting differs, and the number added is the number of differing settings |
| GeoPointMapper.Messages | core/src/main/java/org/elasticsearch/index/mapper/geo/BaseGeoPointFieldMapper.java:262-277 | Of five distinct optional conflict messages, each is added iff its condition holds, and as many are added as conditions hold |
| GeoPointMapper.ConflictsDiffer | core/src/main/java/org/elasticsearch/index/mapper/geo/BaseGeoPointFieldMapper.java:262-277 | The five conflict messages for a field are pairwise different |
| GeoPointMapper.CompatibleSymmetric | core/src/main/java/org/elasticsearch/index/mapper/geo/BaseGeoPointFieldMapper.java:259-278 | Whether conflicts are found does not depend on which side is the existing mapping |
| GeoPointMapper.GeoPointFieldMapper.Iterator | core/src/main/java/org/elasticsearch/index/mapper/geo/BaseGeoPointFieldMapper.java:356-366 | The multi-field mappers, then the geohash mapper if enabled, then lat and lon if enabled |
| GeoPointMapper.XContentWritesChanges | core/src/main/java/org/elasticsearch/index/mapper/geo/BaseGeoPointFieldMapper.java:457-481 | Without defaults, path is written iff it is not FULL, lat_lon iff enabled, geohash_precision iff geohash is on with a non-default precision; nothing at all iff every setting is at its default |
| GeoPointMapper.XContentKeys | core/src/main/java/org/elasticsearch/index/mapper/geo/BaseGeoPointFieldMapper.java:457-481 | Without defaults, the keys written are exactly those of the settings that differ from their defaults, in writing order |
| GeoPointMapper.WrittenKeysHave | core/src/main/java/org/elasticsearch/index/mapper/geo/BaseGeoPointFieldMapper.java:457-481 | path, lat_lon and geohash_precision are among the written keys iff their fields are written |
| GeoPointMapper.XContent | core/src/main/java/org/elasticsearch/index/mapper/geo/BaseGeoPointFieldMapper.java:457-481 | doXContentBody: path, lat_lon, precision_step (only with lat_lon), geohash, geohash_prefix, geohash_precision (only with geohash) and ignore_malformed, each when defaults are asked for or it differs from its default; XContentWritesChanges, XContentKeys and ReadBackOptions state its meaning |
| GeoPointMapper.GeoPointFieldMapper.AddGeohashField | core/src/main/java/org/elasticsearch/index/mapper/geo/BaseGeoPointFieldMapper.java:439-447 | Indexes GeohashPrefixes: geohash[0..i) for i from min(precision, length) down to 1 with prefixes, or down to the full length without |
| GeoPointMapper.GeohashPrefixes | core/src/main/java/org/elasticsearch/index/mapper/geo/BaseGeoPointFieldMapper.java:440-446 | Its length is len - min + 1 (or 0) and its k-th element is the prefix of len - k characters |
| GeoPointMapper.WholeGeohashOrNothing | core/src/main/java/org/elasticsearch/index/mapper/geo/BaseGeoPointFieldMapper.java:440-446 | Without prefixes, the whole geohash once when the precision allows it, and nothing otherwise |
| GeoPointMapper.EveryPrefixOnce | core/src/main/java/org/elasticsearch/index/mapper/geo/BaseGeoPointFieldMapper.java:440-446 | With prefixes, a string is indexed iff it is a non-empty prefix of the geohash no longer than the precision |
| GeoPointLegacy.ApplyLegacyEntry | core/src/main/java/org/elasticsearch/index/mapper/geo/GeoPointFieldMapperLegacy.java:133-170 | An entry is consumed iff it is ignore_malformed or coerce, or one of the validate*/normalize* names on a pre-2.0 index; the flags change as ApplyLegacy says; nothing else in the field type changes |
| GeoPointLegacy.Parse | core/src/main/java/org/elasticsearch/index/mapper/geo/GeoPointFieldMapperLegacy.java:127-173 | The loop run in place: the final flags and the entries left are ParseLegacy's, and only the two flags of the field type change |
| GeoPointLegacy.ApplyLegacy | core/src/main/java/org/elasticsearch/index/mapper/geo/GeoPointFieldMapperLegacy.java:133-169 | One legacy entry's effect on the two flags; CoerceForcesIgnoreMalformed, CoerceHolds and IgnoreMalformedHolds state its consequences |
| GeoPointLegacy.ParseLegacy | core/src/main/java/org/elasticsearch/index/mapper/geo/GeoPointFieldMapperLegacy.java:129-171 | The legacy loop over a node in order; LegacyRemaining states what it leaves and CoerceImpliesIgnoreMalformed what it ends with |
| GeoPointLegacy.CoerceForcesIgnoreMalformed | core/src/main/java/org/elasticsearch/index/mapper/geo/GeoPointFieldMapperLegacy.java:153-158 | coerce true turns both flags on |
| GeoPointLegacy.CoerceHolds | core/src/main/java/org/elasticsearch/index/mapper/geo/GeoPointFieldMapperLegacy.java:133-169 | Once both flags are on, only coerce (or pre-2.0 normalize, normalize_lat) can change either |
| GeoPointLegacy.IgnoreMalformedHolds | core/src/main/java/org/elasticsearch/index/mapper/geo/GeoPointFieldMapperLegacy.java:133-158 | Only an ignore_malformed entry can turn ignore_malformed off |
| GeoPointLegacy.LegacyRemaining | core/src/main/java/org/elasticsearch/index/mapper/geo/GeoPointFieldMapperLegacy.java:128-172 | An entry is left iff it is not a legacy key; on indices from 2.0.0 on the validate*/normalize* entries stay |
| GeoPointLegacy.CoerceImpliesIgnoreMalformed | core/src/main/java/org/elasticsearch/index/mapper/geo/GeoPointFieldMapperLegacy.java:133-169 | Without normalize* entries, coerce on implies ignore_malformed on at the end |
| GeoPointLegacy.ParseMapping | core/src/main/java/org/elasticsearch/index/mapper/geo/BaseGeoPointFieldMapper.java:205-209 | The common option loop then the legacy loop: fails with the common loop's error, else its options, the legacy flags and what both left |
| GeoPointLegacy.TypeParse | core/src/main/java/org/elasticsearch/index/mapper/geo/BaseGeoPointFieldMapper.java:167-210 | A fresh builder, the common loop then the legacy loop: succeeds iff ParseMapping does, with its options, flags and remaining entries |
| GeoPointLegacy.Build | core/src/main/java/org/elasticsearch/index/mapper/geo/GeoPointFieldMapperLegacy.java:110-119 | Sub-mappers as BuildSubMappers; doc values turned off on the field type and on the default field type; the mapper gets the context's original path type |
| GeoPointLegacy.ParseAndBuildShape | core/src/main/java/org/elasticsearch/index/mapper/geo/GeoPointFieldMapperLegacy.java:110-119 | Every parsed-and-built legacy field type has lat and lon together, geohash settings only with geohash, and no doc values |
| GeoPointLegacy.RoundTrip | core/src/main/java/org/elasticsearch/index/mapper/geo/GeoPointFieldMapperLegacy.java:275-280 | A built field type with coerce implying ignore_malformed, written out with or without defaults, parses and builds back to itself |
| GeoPointLegacy.LegacyXContent | core/src/main/java/org/elasticsearch/index/mapper/geo/GeoPointFieldMapperLegacy.java:275-280 | The base body first, unchanged, then coerce with its value exactly when defaults are asked for or coerce is on |
| GeoPointLegacy.ReadBackOptions | core/src/main/java/org/elasticsearch/index/mapper/geo/BaseGeoPointFieldMapper.java:457-481 | The option loop reads back from doXContentBody every setting of a built field type; only the path entry on newer indices and ignore_malformed are left |
| GeoPointLegacy.ReadBackFlags | core/src/main/java/org/elasticsearch/index/mapper/geo/GeoPointFieldMapperLegacy.java:133-158 | The legacy loop reads back ignore_malformed and coerce as written, when coerce implies ignore_malformed |
| GeoPointLegacy.BuiltReadBack | core/src/main/java/org/elasticsearch/index/mapper/geo/GeoPointFieldMapperLegacy.java:110-119 | Building from the options read back gives the written field type again |
| GeoPointLegacy.NewerIndexRoundTrip | core/src/main/java/org/elasticsearch/index/mapper/geo/GeoPointFieldMapperLegacy.java:127-173 | On indices from 2.0.0 on, a parsed and built field survives being written out and parsed and built again |
| GeoPointLegacy.NormalizeBreaksRoundTrip | core/src/main/java/org/elasticsearch/index/mapper/geo/GeoPointFieldMapperLegacy.java:159-161 | On an older index, normalize true gives coerce without ignore_malformed, and writing that out reads back with ignore_malformed on |
| GeoPointLegacy.ReadWriteLittleEndian | core/src/main/java/org/elasticsearch/index/mapper/geo/GeoPointFieldMapperLegacy.java:302-303 | Reading back n little-endian bytes of a value below 256^n gives the value |
| GeoPointLegacy.LittleEndian | core/src/main/java/org/elasticsearch/index/mapper/geo/GeoPointFieldMapperLegacy.java:302-303 | The n low bytes of a value, least significant first: exactly n bytes |
| GeoPointLegacy.ReadLittleEndian | core/src/main/java/org/elasticsearch/index/mapper/geo/GeoPointFieldMapperLegacy.java:302-303 | The value of little-endian bytes is below 256 to the number of bytes |
| GeoPointLegacy.WriteLongLE | core/src/main/java/org/elasticsearch/index/mapper/geo/GeoPointFieldMapperLegacy.java:302 | Writes the 8 little-endian bytes of a pattern at the offset and nothing else |
| GeoPointLegacy.WritePoint | core/src/main/java/org/elasticsearch/index/mapper/geo/GeoPointFieldMapperLegacy.java:301-304 | The k-th 16-byte chunk decodes to the point; the bytes before it are unchanged |
| GeoPointLegacy.CustomGeoPointDocValuesField.constructor | core/src/main/java/org/elasticsearch/index/mapper/geo/GeoPointFieldMapperLegacy.java:286-290 | The set holds the one point |
| GeoPointLegacy.CustomGeoPointDocValuesField.Add | core/src/main/java/org/elasticsearch/index/mapper/geo/GeoPointFieldMapperLegacy.java:292-294 | The point joins the set, so a duplicate changes nothing |
| GeoPointLegacy.CustomGeoPointDocValuesField.BinaryValue | core/src/main/java/org/elasticsearch/index/mapper/geo/GeoPointFieldMapperLegacy.java:296-307 | 16 bytes per distinct point; every chunk decodes to a point of the set and every point is some chunk |

## Left out

- Hashing and the open-addressing layout of `LongHash`, BigArrays memory, and `doRelease` (`Releasables.release(bucketOrds)`) of the bucket aggregators. The table is a sequence of keys in ordinal order with a slot array. Memory release has no observable effect on results.
- Lucene's heap layout in the bucket queue. The queue is a sequence with the queue's observable `insertWithOverflow`/`pop` contract.
- The `InternalOrder` comparators and `InternalOrder.validate`. Four orders with a key tie-break stand in for them.
- GeoHashGrid.GeoHashGridAggregator.PostCollection: the grid's own `BucketPriorityQueue` class is not part of this model. Its order is taken as descending count with ties broken by the cell, compared as a signed long (`GridOrder`).
- `setNextReader` and the value sources. A document's values, and all values of the index for fill-in, are parameters. The fill-in loop over segments and `maxDoc` is one sequence of values.
- LongTerms.LongTermsAggregator.Collect, DoubleTerms.DoubleTermsAggregator.Collect, GeoHashGrid.GeoHashGridAggregator.Collect: require that a replayed document's values are all in the table. A replay sees only documents of the first pass. The model does not say what `find` returning -1 would do to `bucketDocCount`.
- The double conversions `doubleToRawLongBits` (collect), `doubleToLongBits` (fill-in) and `longBitsToDouble` (bucket term). Keys are 64-bit patterns, so the NaN canonicalisation difference between collect and fill-in is not captured.
- Buckets.TermRank: `DoubleTerms.Bucket`'s term comparison is not part of this model and is taken to be `Double.compare`. Ranking the patterns as sign and magnitude agrees with it on every non-NaN value, with -0.0 below +0.0. It does not put NaN last: a NaN ranks by its pattern, so a NaN with the sign bit set ranks below negative infinity.
- `ParseField.match` with deprecation flags in `ExecutionMode.parse`. A name matches by string equality.
- `prepareSubAggregators` (a no-op hook), `estimatedBucketCount` and the aggregation context.
- `GeoHashUtils.decode` (all three overloads): floating-point Morton unhashing and a foreign `flipFlop`.
- `addNeighbors(geohash, neighbors)`: it only supplies the length and is covered by `AddNeighbors` with the whole geohash's length. The Lucene alphabet constant is written out in the model.
- `BigDecimal` node values, whose intValue() narrows the integer part to its low 32 bits, are not modelled: a number with a fraction is a Double (a Float reads the same way), as the JSON parser hands it over. Integers, Longs and BigIntegers are modelled.
- `Strings.toUnderscoreCase` is not part of this model: keys arrive already in underscore form. How `XContentMapValues.nodeBooleanValue/nodeIntegerValue` read a text, and how `GeoUtils.geoHashLevelsForPrecision` reads a distance, are a parameter (`TextReading`). `TypeParsers.parsePathType` is modelled by `GeoPointMapper.ParsePathType`.
- GeoPointMapper.ParsePathType: the value is not passed through `toUnderscoreCase` first, so camel-case names such as "justName" are refused here, although the source accepts them.
- `parseField` and `parseMultiField`. The common field options are reduced to `stored` and `hasDocValues`, and the multi-field keys to a parameter set.
- `BaseGeoPointFieldMapper.parse(ParseContext)`, its point overload and `parsePointFromString`: XContent token parsing and GeoPoint arithmetic in doubles. Only `addGeohashField` is modelled.
- The legacy `parse(ParseContext, GeoPoint, String)`: latitude and longitude range checks and `normalizePoint` in doubles, the stored Lucene field, and the lookup of an existing doc-values field in the document.
- The non-legacy `GeoPointFieldMapper`.
- `checkIfFrozen`, `setTokenized`, `setupFieldType`, field-type `equals`/`hashCode`/`clone`, and the base `checkCompatibility` of `MappedFieldType`.
- GeoPointLegacy.CustomGeoPointDocValuesField.BinaryValue: the hash set's iteration order is not modelled. Points are written in an order the model leaves open, so the contract says which points the chunks hold, not their order. Points are equal when their bit patterns are.

## Findings

| source | as written | input that shows it | evidently intended | confidence | as-written member | corrected member |
|---|---|---|---|---|---|---|
| src/main/java/org/elasticsearch/search/aggregations/bucket/terms/LongTermsAggregator.java:155-158 | `buildAggregation` appends each pop to the list, so buckets come out lowest-ranked first | two surviving buckets under COUNT_DESC, (key 1, 5 docs) and (key 2, 3 docs): the list is key 2 then key 1 | highest-ranked first, as `DoubleTermsAggregator` and `GeoHashGridAggregator` do by filling the array from the back | not executed | LongTerms.LongTermsAggregator.BuildAggregation (with LongTerms.AppendedListCounterexample) | LongTerms.LongTermsAggregator.BuildAggregationBestFirst |
