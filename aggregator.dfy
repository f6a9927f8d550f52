/**
  The generic aggregator of the aggregation framework: a tree of aggregators
  built from a tree of factories, each node counting the passes made over the
  matching documents. Under the PRUNE_FIRST execution mode a node starts
  without sub-aggregators and creates them at the end of the first pass, so
  that the replayed passes reach only the buckets that survived pruning.

  What a concrete aggregator does in its hooks (collect, doPostCollection,
  doRelease, buildEmptyAggregation) is not part of this module: the hooks are
  observed through their effects (a trace of post-collection hooks, a set of
  nodes whose doRelease fails, the name of each empty result).
*/
module Aggregation {

  import opened Wrappers

  // ---------------------------------------------------------------------
  // Execution modes
  // ---------------------------------------------------------------------

  datatype ExecutionMode = SinglePass | PruneFirst

  /** The name a mode is parsed from. */
  function ModeName(m: ExecutionMode): string {
    match m
    case SinglePass => "single_pass"
    case PruneFirst => "prune_first"
  }

  /** ExecutionMode.values(), in declaration order. */
  const Modes: seq<ExecutionMode> := [SinglePass, PruneFirst]

  /**
    ExecutionMode.parse: the first mode, in declaration order, whose name
    matches; an error naming the value when none does.
  */
  method ParseExecutionMode(value: string) returns (r: Result<ExecutionMode>)
    ensures r.Success? <==> value == "single_pass" || value == "prune_first"
    ensures r.Success? ==> ModeName(r.value) == value
    ensures forall m :: ModeName(m) == value ==> r == Success(m)
    ensures r.Failure? ==> r.error == "No executionMode found for value: " + value
  {
    var found: Option<ExecutionMode> := None;
    var i := 0;
    while i < |Modes|
      invariant 0 <= i <= |Modes|
      invariant found.None? ==> forall j :: 0 <= j < i ==> ModeName(Modes[j]) != value
      invariant found.Some? ==> ModeName(found.value) == value
    {
      if ModeName(Modes[i]) == value {
        found := Some(Modes[i]);
        break;
      }
      i := i + 1;
    }
    if found.None? {
      assert Modes[0] == SinglePass && Modes[1] == PruneFirst;
      return Failure("No executionMode found for value: " + value);
    }
    return Success(found.value);
  }

  // ---------------------------------------------------------------------
  // Factories
  // ---------------------------------------------------------------------

  /**
    An aggregator factory: a named aggregation with its execution mode and its
    sub-factories, or the factory of an aggregator over an unmapped field
    (always SINGLE_PASS, without sub-factories).
  */
  datatype Factory =
    | Factory(name: string, mode: ExecutionMode, subs: seq<Factory>)
    | UnmappedFactory(name: string)

  function FactoryMode(f: Factory): ExecutionMode {
    if f.Factory? then f.mode else SinglePass
  }

  function SubFactories(f: Factory): seq<Factory> {
    if f.Factory? then f.subs else []
  }

  /** Number of factories in the tree rooted at `f`; it bounds the construction recursion. */
  function Size(f: Factory): nat
    decreases f, 1
  {
    1 + if f.Factory? then SizeAll(f.subs) else 0
  }

  function SizeAll(fs: seq<Factory>): nat
    decreases fs, 0
  {
    if fs == [] then 0 else Size(fs[0]) + SizeAll(fs[1..])
  }

  lemma {:induction false} SizeOfSub(fs: seq<Factory>, i: nat)
    requires i < |fs|
    ensures Size(fs[i]) <= SizeAll(fs)
    decreases i
  {
    if i > 0 {
      SizeOfSub(fs[1..], i - 1);
    }
  }

  /** Whether a tree built from `f` replays the documents: some factory in it is PRUNE_FIRST. */
  function FactoryReplays(f: Factory): bool
    decreases f
  {
    match f
    case UnmappedFactory(_) => false
    case Factory(_, mode, subs) => mode == PruneFirst || exists i :: 0 <= i < |subs| && FactoryReplays(subs[i])
  }

  /** The empty result of an aggregator, identified by the aggregation's name. */
  datatype InternalAggregation = EmptyAggregation(name: string)

  /** The name-to-aggregator cache after putting each sub-aggregator in order: a later name overwrites an earlier one. */
  function NameMap(subs: seq<Aggregator>): (m: map<string, Aggregator>)
    decreases |subs|
  {
    if subs == [] then map[]
    else NameMap(subs[..|subs| - 1])[subs[|subs| - 1].name := subs[|subs| - 1]]
  }

  /** A name is cached iff some sub-aggregator has it, and it maps to the last sub-aggregator with that name. */
  lemma {:induction false} NameMapLookup(subs: seq<Aggregator>, k: string)
    ensures k in NameMap(subs) <==> exists i :: 0 <= i < |subs| && subs[i].name == k
    ensures k in NameMap(subs) ==>
              exists i :: 0 <= i < |subs| && subs[i] == NameMap(subs)[k] && subs[i].name == k &&
                          forall j :: i < j < |subs| ==> subs[j].name != k
    decreases |subs|
  {
    if subs != [] {
      var init := subs[..|subs| - 1];
      NameMapLookup(init, k);
      if subs[|subs| - 1].name != k && k in NameMap(subs) {
        var i :| 0 <= i < |init| && init[i] == NameMap(init)[k] && init[i].name == k &&
                 forall j :: i < j < |init| ==> init[j].name != k;
        assert subs[i] == NameMap(subs)[k];
      }
    }
  }

  // ---------------------------------------------------------------------
  // The aggregator tree
  // ---------------------------------------------------------------------

  /** `c` is a fresh-state aggregator of factory `f` at `depth` under `parent`. */
  ghost predicate BuiltFrom(c: Aggregator, parent: Aggregator, depth: nat, f: Factory)
    reads c, c.Repr
  {
    && c.Valid() && c in c.Repr && parent !in c.Repr
    && c.parent == parent && c.depth == depth && c.factory == f
    && c.passNumber == 0 && !c.released
  }

  class Aggregator {
    const name: string
    const parent: Aggregator?
    const depth: nat
    const factory: Factory
    const mode: ExecutionMode
    /** An aggregator over an unmapped field, whose shouldCollect is always false. */
    const unmapped: bool
    var subAggregators: seq<Aggregator>
    var passNumber: nat
    /** doRelease has been called. */
    var released: bool
    /** The lazily built name-to-sub-aggregator cache (subAggregatorbyName). */
    var byName: Option<map<string, Aggregator>>
    ghost var Repr: set<object>

    /** Sub-aggregators wait for the end of the first pass. */
    ghost predicate Deferred()
      reads this
    {
      mode == PruneFirst && passNumber == 0
    }

    /** The sub-aggregators are valid trees built from the factory's sub-factories, with disjoint footprints. */
    ghost predicate ChildrenOk()
      reads this`subAggregators, this`Repr, Repr - {this}
      decreases Repr, 0
    {
      && this in Repr
      && |subAggregators| <= |SubFactories(factory)|
      && (forall i :: 0 <= i < |subAggregators| ==>
            && subAggregators[i] in Repr
            && subAggregators[i] in subAggregators[i].Repr
            && subAggregators[i].Repr <= Repr
            && this !in subAggregators[i].Repr
            && subAggregators[i].parent == this
            && subAggregators[i].depth == depth + 1
            && subAggregators[i].factory == SubFactories(factory)[i]
            && subAggregators[i].Valid())
      && (forall i, j :: 0 <= i < j < |subAggregators| ==> subAggregators[i].Repr !! subAggregators[j].Repr)
    }

    ghost predicate Valid()
      reads this, Repr
      decreases Repr, 1
    {
      && ChildrenOk()
      && name == factory.name
      && mode == FactoryMode(factory)
      && unmapped == factory.UnmappedFactory?
      && |subAggregators| == (if Deferred() then 0 else |SubFactories(factory)|)
      && (forall i :: 0 <= i < |subAggregators| ==>
            subAggregators[i].passNumber + (if mode == PruneFirst then 1 else 0) == passNumber)
    }

    /**
      Builds the aggregator of `f` under `parent`. The depth is 0 for a root and
      one more than the parent's otherwise; under PRUNE_FIRST the node starts
      with no sub-aggregators, otherwise one per sub-factory.
    */
    constructor (f: Factory, parent: Aggregator?)
      ensures Valid() && fresh(Repr)
      ensures factory == f && this.parent == parent
      ensures depth == if parent == null then 0 else parent.depth + 1
      ensures passNumber == 0 && !released && byName == None
      ensures FactoryMode(f) == PruneFirst ==> subAggregators == []
      ensures FactoryMode(f) == SinglePass ==> |subAggregators| == |SubFactories(f)|
      decreases Size(f), 1
    {
      name := f.name;
      this.parent := parent;
      depth := if parent == null then 0 else parent.depth + 1;
      factory := f;
      mode := FactoryMode(f);
      unmapped := f.UnmappedFactory?;
      subAggregators := [];
      passNumber := 0;
      released := false;
      byName := None;
      Repr := {this};
      new;
      if mode != PruneFirst {
        CreateSubAggregators();
      }
    }

    /** factories.createSubAggregators(this): one fresh aggregator per sub-factory, in order. */
    method CreateSubAggregators()
      requires this in Repr && subAggregators == []
      modifies this
      ensures ChildrenOk() && fresh(Repr - old(Repr)) && old(Repr) <= Repr
      ensures |subAggregators| == |SubFactories(factory)|
      ensures forall c :: c in subAggregators ==> fresh(c) && c.passNumber == 0 && !c.released
      ensures passNumber == old(passNumber) && released == old(released) && byName == old(byName)
      decreases Size(factory), 0
    {
      var fs := SubFactories(factory);
      var subs: seq<Aggregator> := [];
      ghost var r := Repr;
      var i := 0;
      while i < |fs|
        invariant 0 <= i <= |fs| && |subs| == i
        invariant old(Repr) <= r && fresh(r - old(Repr)) && unchanged(this)
        invariant forall j :: 0 <= j < i ==> BuiltFrom(subs[j], this, depth + 1, fs[j]) && fresh(subs[j].Repr) && subs[j].Repr <= r
        invariant forall j, k :: 0 <= j < k < i ==> subs[j].Repr !! subs[k].Repr
      {
        SizeOfSub(fs, i);
        var c := new Aggregator(fs[i], this);
        subs := subs + [c];
        r := r + c.Repr;
        i := i + 1;
      }
      subAggregators := subs;
      Repr := r;
    }

    // -------------------------------------------------------------------
    // Recursive queries
    // -------------------------------------------------------------------

    /** requiresMatchReplays, over the live tree: this node is PRUNE_FIRST or some sub-aggregator replays. */
    ghost predicate Replays()
      requires Valid()
      reads this, Repr
      decreases Repr
    {
      assert ChildrenOk();
      mode == PruneFirst || exists i :: 0 <= i < |subAggregators| && subAggregators[i].Replays()
    }

    /**
      shouldCollect, over the live tree: an unmapped aggregator never collects;
      any other collects in the first pass, and afterwards only while some
      sub-aggregator still collects.
    */
    ghost predicate Collects()
      requires Valid()
      reads this, Repr
      decreases Repr
    {
      assert ChildrenOk();
      !unmapped && (passNumber == 0 || exists i :: 0 <= i < |subAggregators| && subAggregators[i].Collects())
    }

    method RequiresMatchReplays() returns (r: bool)
      requires Valid()
      ensures r == Replays()
      decreases Repr
    {
      if mode == PruneFirst {
        return true;
      }
      var i := 0;
      while i < |subAggregators|
        invariant 0 <= i <= |subAggregators|
        invariant forall j :: 0 <= j < i ==> !subAggregators[j].Replays()
      {
        var sub := subAggregators[i].RequiresMatchReplays();
        if sub {
          return true;
        }
        i := i + 1;
      }
      return false;
    }

    /** The live tree replays exactly when its factory tree holds a PRUNE_FIRST factory, whatever the pass. */
    lemma ReplaysMatchFactory()
      requires Valid()
      ensures Replays() == FactoryReplays(factory)
      decreases Repr
    {
      if mode != PruneFirst {
        forall i | 0 <= i < |subAggregators|
          ensures subAggregators[i].Replays() == FactoryReplays(SubFactories(factory)[i])
        {
          subAggregators[i].ReplaysMatchFactory();
        }
      }
    }

    method ShouldCollect() returns (r: bool)
      requires Valid()
      ensures r == Collects()
      decreases Repr
    {
      if unmapped {
        return false;
      }
      r := false;
      if passNumber == 0 {
        r := true;
      } else {
        var i := 0;
        while i < |subAggregators|
          invariant 0 <= i <= |subAggregators|
          invariant forall j :: 0 <= j < i ==> !subAggregators[j].Collects()
        {
          var sub := subAggregators[i].ShouldCollect();
          if sub {
            r := true;
            break;
          }
          i := i + 1;
        }
      }
    }

    /**
      In a tree without PRUNE_FIRST every node advances its pass number in
      step, so the tree collects in the first pass only (and an unmapped root never).
    */
    lemma SinglePassTreeCollectsOnce()
      requires Valid() && !Replays()
      ensures Collects() <==> passNumber == 0 && !unmapped
      decreases Repr
    {
      if passNumber > 0 {
        forall i | 0 <= i < |subAggregators|
          ensures !subAggregators[i].Collects()
        {
          subAggregators[i].SinglePassTreeCollectsOnce();
        }
      }
    }

    // -------------------------------------------------------------------
    // postCollection
    // -------------------------------------------------------------------

    /** The names of the nodes in the order their doPostCollection hooks run: sub-aggregators first, in order. */
    ghost function PostOrder(): seq<string>
      requires Valid()
      reads this, Repr
      decreases Repr, 1
    {
      ChildrenPostOrder(|subAggregators|) + [name]
    }

    ghost function ChildrenPostOrder(n: nat): seq<string>
      requires Valid() && n <= |subAggregators|
      reads this, Repr
      decreases Repr, 0, n
    {
      assert ChildrenOk();
      if n == 0 then [] else ChildrenPostOrder(n - 1) + subAggregators[n - 1].PostOrder()
    }

    /**
      postCollection: the sub-aggregators' postCollection first, then this
      node's doPostCollection (recorded in `trace`), then, at the end of the
      first pass of a PRUNE_FIRST node, the creation of the deferred
      sub-aggregators; finally the pass number goes up by one.
    */
    method PostCollection() returns (trace: seq<string>)
      requires Valid()
      modifies Repr
      ensures Valid() && old(Repr) <= Repr && fresh(Repr - old(Repr))
      ensures trace == old(PostOrder())
      ensures passNumber == old(passNumber) + 1
      ensures old(Deferred()) ==>
                |subAggregators| == |SubFactories(factory)| &&
                forall c :: c in subAggregators ==> fresh(c) && c.passNumber == 0
      ensures !old(Deferred()) ==>
                subAggregators == old(subAggregators) &&
                forall c :: c in subAggregators ==> c.passNumber == old(c.passNumber) + 1
      ensures released == old(released) && byName == old(byName)
      decreases Repr, 3
    {
      ghost var order := PostOrder();
      assert order == ChildrenPostOrder(|subAggregators|) + [name];
      trace := PostCollectSubs();
      // doPostCollection()
      trace := trace + [name];
      assert trace == order;
      if passNumber == 0 && mode == PruneFirst {
        CreateSubAggregators();
      }
      passNumber := passNumber + 1;
    }

    /** postCollection of every sub-aggregator, in order. */
    method PostCollectSubs() returns (trace: seq<string>)
      requires Valid()
      modifies Repr
      ensures ChildrenOk() && old(Repr) <= Repr && fresh(Repr - old(Repr))
      ensures subAggregators == old(subAggregators) && passNumber == old(passNumber)
      ensures released == old(released) && byName == old(byName)
      ensures trace == old(ChildrenPostOrder(|subAggregators|))
      ensures forall j :: 0 <= j < |subAggregators| ==>
                subAggregators[j].passNumber == old(subAggregators[j].passNumber) + 1
      decreases Repr, 2
    {
      trace := [];
      var i := 0;
      while i < |subAggregators|
        invariant 0 <= i <= |subAggregators|
        invariant subAggregators == old(subAggregators) && passNumber == old(passNumber)
        invariant released == old(released) && byName == old(byName)
        invariant old(Repr) <= Repr && fresh(Repr - old(Repr))
        invariant ChildrenOk()
        invariant forall j :: 0 <= j < i ==> subAggregators[j].passNumber == old(subAggregators[j].passNumber) + 1
        invariant forall j :: i <= j < |subAggregators| ==>
                    subAggregators[j].Repr == old(subAggregators[j].Repr) && unchanged(old(subAggregators[j].Repr))
        invariant trace == old(ChildrenPostOrder(i))
      {
        assert subAggregators[i].Repr < old(Repr);
        var t := PostCollectSub(i);
        trace := trace + t;
        i := i + 1;
      }
    }

    /** postCollection of the `i`-th sub-aggregator, whose grown footprint joins this node's. */
    method PostCollectSub(i: nat) returns (t: seq<string>)
      requires ChildrenOk() && i < |subAggregators|
      modifies this`Repr, subAggregators[i].Repr
      ensures ChildrenOk() && old(Repr) <= Repr && fresh(Repr - old(Repr))
      ensures t == old(subAggregators[i].PostOrder())
      ensures subAggregators[i].passNumber == old(subAggregators[i].passNumber) + 1
      ensures forall j :: 0 <= j < |subAggregators| && j != i ==>
                subAggregators[j].Repr == old(subAggregators[j].Repr) && unchanged(old(subAggregators[j].Repr))
      decreases subAggregators[i].Repr, 4
    {
      var c := subAggregators[i];
      ghost var cRepr := c.Repr;
      assert forall j :: 0 <= j < |subAggregators| && j != i ==> subAggregators[j].Repr !! cRepr;
      t := c.PostCollection();
      Repr := Repr + c.Repr;
      assert forall j :: 0 <= j < |subAggregators| && j != i ==>
               && subAggregators[j].Repr == old(subAggregators[j].Repr)
               && subAggregators[j].Repr !! c.Repr
               && subAggregators[j].Valid();
      assert c.Valid() && c in c.Repr && this !in c.Repr;
      assert forall j, k :: 0 <= j < k < |subAggregators| ==> subAggregators[j].Repr !! subAggregators[k].Repr;
    }

    // -------------------------------------------------------------------
    // release
    // -------------------------------------------------------------------

    /** doRelease has been called on every node of the tree. */
    ghost predicate AllReleased()
      requires Valid()
      reads this, Repr
      decreases Repr
    {
      assert ChildrenOk();
      released && forall i :: 0 <= i < |subAggregators| ==> subAggregators[i].AllReleased()
    }

    /** No node of the tree is one whose doRelease fails. */
    ghost predicate NoneFails(failing: set<Aggregator>)
      requires Valid()
      reads this, Repr
      decreases Repr
    {
      assert ChildrenOk();
      this !in failing && forall i :: 0 <= i < |subAggregators| ==> subAggregators[i].NoneFails(failing)
    }

    /**
      release: doRelease, then Releasables.release(success, subAggregators),
      which releases every sub-aggregator whether or not doRelease failed. The
      call completes normally (`ok`) iff no doRelease in the tree failed;
      `failing` is the set of nodes whose doRelease throws.
    */
    method Release(failing: set<Aggregator>) returns (ok: bool)
      requires Valid()
      modifies Repr
      ensures Valid() && Repr == old(Repr)
      ensures subAggregators == old(subAggregators) && passNumber == old(passNumber) && byName == old(byName)
      ensures AllReleased()
      ensures ok == NoneFails(failing)
      decreases Repr, 3
    {
      var success := this !in failing;
      released := true;
      var subsOk := ReleaseSubs(failing);
      ok := success && subsOk;
    }

    /** Releasables.release over the sub-aggregators: every one is released, in order. */
    method ReleaseSubs(failing: set<Aggregator>) returns (ok: bool)
      requires ChildrenOk()
      modifies Repr - {this}
      ensures ChildrenOk()
      ensures forall j :: 0 <= j < |subAggregators| ==>
                subAggregators[j].AllReleased() && subAggregators[j].passNumber == old(subAggregators[j].passNumber)
      ensures forall j :: 0 <= j < |subAggregators| ==>
                && subAggregators[j].subAggregators == old(subAggregators[j].subAggregators)
                && subAggregators[j].byName == old(subAggregators[j].byName)
      ensures ok == forall j :: 0 <= j < |subAggregators| ==> subAggregators[j].NoneFails(failing)
      decreases Repr, 2
    {
      ok := true;
      var i := 0;
      while i < |subAggregators|
        invariant 0 <= i <= |subAggregators|
        invariant ChildrenOk()
        invariant forall j :: 0 <= j < |subAggregators| ==> subAggregators[j].passNumber == old(subAggregators[j].passNumber)
        invariant forall j :: 0 <= j < |subAggregators| ==>
                    && subAggregators[j].subAggregators == old(subAggregators[j].subAggregators)
                    && subAggregators[j].byName == old(subAggregators[j].byName)
        invariant forall j :: 0 <= j < i ==> subAggregators[j].AllReleased()
        invariant ok == forall j :: 0 <= j < i ==> subAggregators[j].NoneFails(failing)
      {
        label step:
        var sub := ReleaseSub(i, failing);
        assert forall j :: 0 <= j < i ==>
                 subAggregators[j].AllReleased() &&
                 subAggregators[j].NoneFails(failing) == old@step(subAggregators[j].NoneFails(failing));
        ok := ok && sub;
        i := i + 1;
      }
    }

    /** release of the `i`-th sub-aggregator; the other sub-aggregators are untouched. */
    method ReleaseSub(i: nat, failing: set<Aggregator>) returns (ok: bool)
      requires ChildrenOk() && i < |subAggregators|
      modifies subAggregators[i].Repr
      ensures ChildrenOk()
      ensures subAggregators[i].AllReleased() && ok == subAggregators[i].NoneFails(failing)
      ensures subAggregators[i].passNumber == old(subAggregators[i].passNumber)
      ensures subAggregators[i].subAggregators == old(subAggregators[i].subAggregators)
      ensures subAggregators[i].byName == old(subAggregators[i].byName)
      ensures forall j :: 0 <= j < |subAggregators| && j != i ==> unchanged(subAggregators[j].Repr)
      decreases subAggregators[i].Repr, 4
    {
      ok := subAggregators[i].Release(failing);
      assert forall j :: 0 <= j < |subAggregators| ==> subAggregators[j].Valid();
    }

    // -------------------------------------------------------------------
    // subAggregator and buildEmptySubAggregations
    // -------------------------------------------------------------------

    /**
      subAggregator(aggName): the cache is filled from the current
      sub-aggregators on the first call only, so a cache filled before the
      deferred sub-aggregators exist stays empty.
    */
    method SubAggregator(aggName: string) returns (r: Aggregator?)
      requires Valid()
      modifies this
      ensures Valid() && unchanged(this`subAggregators) && unchanged(this`passNumber) && unchanged(this`Repr)
      ensures released == old(released)
      ensures old(byName).None? ==> byName == Some(NameMap(subAggregators))
      ensures old(byName).Some? ==> byName == old(byName)
      ensures byName.Some? && r == if aggName in byName.value then byName.value[aggName] else null
    {
      if byName.None? {
        var m: map<string, Aggregator> := map[];
        var i := 0;
        while i < |subAggregators|
          invariant 0 <= i <= |subAggregators|
          invariant m == NameMap(subAggregators[..i])
        {
          assert subAggregators[..i + 1][..i] == subAggregators[..i];
          m := m[subAggregators[i].name := subAggregators[i]];
          i := i + 1;
        }
        assert subAggregators[..i] == subAggregators;
        byName := Some(m);
      }
      var cache := byName.value;
      r := if aggName in cache then cache[aggName] else null;
    }

    /** buildEmptySubAggregations: one empty result per sub-aggregator, in order. */
    method BuildEmptySubAggregations() returns (aggs: seq<InternalAggregation>)
      requires Valid()
      ensures |aggs| == |subAggregators|
      ensures forall i :: 0 <= i < |aggs| ==> aggs[i] == EmptyAggregation(subAggregators[i].name)
    {
      aggs := [];
      var i := 0;
      while i < |subAggregators|
        invariant 0 <= i <= |subAggregators| && |aggs| == i
        invariant forall j :: 0 <= j < i ==> aggs[j] == EmptyAggregation(subAggregators[j].name)
      {
        aggs := aggs + [EmptyAggregation(subAggregators[i].name)];
        i := i + 1;
      }
    }
  }
}
