/**
  The helpers of the Bootique launcher: the module-provider dependency
  resolver and two small array utilities.

  The resolver's accumulator is a `HashMap` that the private helper fills in
  place and hands to its own recursive calls. Here it is threaded: each method
  takes the accumulator as it is on entry and returns it as it is on exit, and
  the caller continues with what the callee returned. Besides the map, the two
  resolver methods return a ghost `encountered` trace: every provider the
  helper's `for` loops reach, in the order they reach it, skipped ones included.
 */
module BootiqueUtils {
  import opened Providers

  /** The public entry point: resolves `roots` with a fresh accumulator and
      returns the recorded providers, one per module type, in no particular
      order. */
  method ModuleProviderDependencies(g: Graph, roots: seq<Id>) returns (providers: seq<Id>)
    requires Closed(g) && AllIn(g, roots)
    ensures AllIn(g, providers)
    // at most one provider per module type (so no provider twice)
    ensures forall i, j :: 0 <= i < j < |providers| ==>
              g[providers[i]].moduleType != g[providers[j]].moduleType
    // every root's module type is represented
    ensures forall i :: 0 <= i < |roots| ==> g[roots[i]].moduleType in TypesOf(g, providers)
    // the module types of the collected providers' dependencies are represented
    ensures forall i :: 0 <= i < |providers| ==>
              forall d :: d in g[providers[i]].dependencies ==> g[d].moduleType in TypesOf(g, providers)
    // soundness: each provider is reached from a root through collected providers only
    ensures forall i :: 0 <= i < |providers| ==>
              ReachableWithin(g, roots, Elements(providers), providers[i])
    ensures roots == [] ==> providers == []
    // with one provider per module type the result is exactly the reachable set
    ensures DistinctTypes(g) ==>
              Elements(providers) == ReachableSet(g, roots) && |providers| == |ReachableSet(g, roots)|
    // first wins: the providers kept are the first of each module type in the visit order
    ensures AllIn(g, VisitOrder(g, roots, {})) &&
            Elements(providers) == FirstOfEachType(g, VisitOrder(g, roots, {}))
  {
    var empty: Processed := map[];
    assert empty.Keys == {};
    var processed: Processed;
    ghost var encountered: seq<Id>;
    processed, encountered := ResolveInto(g, roots, empty);
    ghost var keys: seq<ModuleType>;
    providers, keys := CollectValues(processed);
    ResolutionListed(g, roots, processed, providers, keys);
    WinnersListed(g, roots, processed, encountered, providers, keys);
  }

  /** First wins, for the listed values of a fresh resolution. */
  lemma WinnersListed(g: Graph, roots: seq<Id>, m: Processed, trace: seq<Id>,
                      providers: seq<Id>, keys: seq<ModuleType>)
    requires Closed(g) && AllIn(g, roots) && Consistent(g, m)
    requires DependenciesRecorded(g, map[], m)
    requires TypesRecorded(g, trace, m) && FirstWins(g, map[], m, trace)
    requires trace == VisitOrder(g, roots, {}) && m.Keys == {} + TypesOf(g, trace)
    requires |providers| == |keys|
    requires forall i :: 0 <= i < |keys| ==> keys[i] in m && providers[i] == m[keys[i]]
    requires forall i, j :: 0 <= i < j < |keys| ==> keys[i] != keys[j]
    requires forall t :: t in m ==> t in keys
    ensures AllIn(g, VisitOrder(g, roots, {})) &&
            Elements(providers) == FirstOfEachType(g, VisitOrder(g, roots, {}))
  {
    ValuesListed(g, m, providers, keys);
    FirstOfEachTypeKept(g, m, trace);
  }

  /** The values of a fresh resolution are the first providers of each module
      type in its trace. */
  lemma FirstOfEachTypeKept(g: Graph, m: Processed, trace: seq<Id>)
    requires Consistent(g, m) && TypesRecorded(g, trace, m)
    requires FirstWins(g, map[], m, trace)
    requires m.Keys == TypesOf(g, trace)
    ensures m.Values == FirstOfEachType(g, trace)
  {
    forall x | x in m.Values ensures x in FirstOfEachType(g, trace) {
      var t :| t in m && m[t] == x;
      assert FirstOfType(g, trace, t) == Some(x);
    }
    forall x | x in FirstOfEachType(g, trace) ensures x in m.Values {
      var t := g[x].moduleType;
      var i :| 0 <= i < |trace| && trace[i] == x;
      assert t in m;
    }
  }

  /** The wrapper's promises, from what the helper and the listing of the
      accumulator's values guarantee. */
  lemma ResolutionListed(g: Graph, roots: seq<Id>, m: Processed, providers: seq<Id>, keys: seq<ModuleType>)
    requires Closed(g) && AllIn(g, roots) && Consistent(g, m)
    requires TypesRecorded(g, roots, m)
    requires DependenciesRecorded(g, map[], m) && ReachedFrom(g, roots, map[], m)
    requires |providers| == |keys|
    requires forall i :: 0 <= i < |keys| ==> keys[i] in m && providers[i] == m[keys[i]]
    requires forall i, j :: 0 <= i < j < |keys| ==> keys[i] != keys[j]
    requires forall t :: t in m ==> t in keys
    ensures AllIn(g, providers)
    ensures forall i, j :: 0 <= i < j < |providers| ==>
              g[providers[i]].moduleType != g[providers[j]].moduleType
    ensures forall i :: 0 <= i < |roots| ==> g[roots[i]].moduleType in TypesOf(g, providers)
    ensures forall i :: 0 <= i < |providers| ==>
              forall d :: d in g[providers[i]].dependencies ==> g[d].moduleType in TypesOf(g, providers)
    ensures forall i :: 0 <= i < |providers| ==>
              ReachableWithin(g, roots, Elements(providers), providers[i])
    ensures roots == [] ==> providers == []
    ensures DistinctTypes(g) ==>
              Elements(providers) == ReachableSet(g, roots) && |providers| == |ReachableSet(g, roots)|
  {
    ValuesListed(g, m, providers, keys);
    ListedReachable(g, roots, m, providers);
    if DistinctTypes(g) {
      ResolvedIsReachableSet(g, roots, m);
      DistinctElementsCard(providers);
    }
  }

  /** Resolving the result of a resolution once more, as roots: when no two
      providers share a module type, the second resolution collects the same providers. */
  method ResolveAgain(g: Graph, roots: seq<Id>) returns (first: seq<Id>, second: seq<Id>)
    requires Closed(g) && AllIn(g, roots)
    ensures DistinctTypes(g) ==> Elements(second) == Elements(first)
  {
    first := ModuleProviderDependencies(g, roots);
    second := ModuleProviderDependencies(g, first);
    if DistinctTypes(g) {
      ReachableSetClosed(g, roots, first);
    }
  }

  /** Soundness of the listed values: each is reached from a root through
      listed providers only, so no roots means no providers. */
  lemma ListedReachable(g: Graph, roots: seq<Id>, m: Processed, providers: seq<Id>)
    requires ReachedFrom(g, roots, map[], m)
    requires Elements(providers) == m.Values == Added(map[], m)
    ensures forall i :: 0 <= i < |providers| ==>
              ReachableWithin(g, roots, Elements(providers), providers[i])
    ensures roots == [] ==> providers == []
  {
    forall i | 0 <= i < |providers| ensures ReachableWithin(g, roots, Elements(providers), providers[i]) {
      assert providers[i] in Elements(providers);
      var t :| t in m && m[t] == providers[i];
    }
    if providers != [] {
      ReachableNeedsRoot(g, roots, Elements(providers), providers[0]);
    }
  }

  /** What the list of the values of a fresh resolution says about the graph. */
  lemma ValuesListed(g: Graph, m: Processed, providers: seq<Id>, keys: seq<ModuleType>)
    requires Consistent(g, m) && DependenciesRecorded(g, map[], m)
    requires |providers| == |keys|
    requires forall i :: 0 <= i < |keys| ==> keys[i] in m && providers[i] == m[keys[i]]
    requires forall i, j :: 0 <= i < j < |keys| ==> keys[i] != keys[j]
    requires forall t :: t in m ==> t in keys
    ensures AllIn(g, providers) && TypesOf(g, providers) == m.Keys
    ensures Elements(providers) == m.Values == Added(map[], m)
    ensures forall i, j :: 0 <= i < j < |providers| ==>
              g[providers[i]].moduleType != g[providers[j]].moduleType
    ensures forall i :: 0 <= i < |providers| ==>
              forall d :: d in g[providers[i]].dependencies ==> g[d].moduleType in m
  {
    forall t | t in m ensures t in TypesOf(g, providers) && m[t] in Elements(providers) {
      var k :| 0 <= k < |keys| && keys[k] == t;
      assert g[providers[k]].moduleType == t;
    }
    assert Added(map[], m) == m.Values by {
      forall x | x in m.Values ensures x in Added(map[], m) {
        var t :| t in m && m[t] == x;
      }
    }
    forall i | 0 <= i < |providers|
      ensures forall d :: d in g[providers[i]].dependencies ==> g[d].moduleType in m
    {
      assert keys[i] in m;
    }
  }

  /** Exactness of a fresh resolution when no two providers share a module type:
      its providers are precisely the ones reachable from the roots. */
  lemma ResolvedIsReachableSet(g: Graph, roots: seq<Id>, m: Processed)
    requires Closed(g) && AllIn(g, roots) && DistinctTypes(g) && Consistent(g, m)
    requires TypesRecorded(g, roots, m)
    requires DependenciesRecorded(g, map[], m) && ReachedFrom(g, roots, map[], m)
    ensures m.Values == ReachableSet(g, roots)
  {
    forall p | p in ReachableSet(g, roots) ensures p in m.Values {
      var path :| PathFrom(g, roots, g.Keys, path, p);
      forall t | t in m ensures forall d :: d in g[m[t]].dependencies ==> g[d].moduleType in m {
        assert t in m;
      }
      PathCollected(g, roots, m, path);
    }
    forall p | p in m.Values ensures p in ReachableSet(g, roots) {
      var t :| t in m && m[t] == p;
      assert t in m;
      assert Added(map[], m) <= g.Keys;
      ReachableWeaken(g, roots, roots, Added(map[], m), g.Keys, p);
    }
  }

  /** The values of the accumulator's entries as a list, in the map's own
      (unspecified) iteration order; `keys` are the matching keys. */
  method CollectValues(m: Processed) returns (values: seq<Id>, ghost keys: seq<ModuleType>)
    ensures |values| == |keys| == |m|
    ensures forall i :: 0 <= i < |keys| ==> keys[i] in m && values[i] == m[keys[i]]
    ensures forall i, j :: 0 <= i < j < |keys| ==> keys[i] != keys[j]
    ensures forall t :: t in m ==> t in keys
    // the list holds exactly the map's values
    ensures Elements(values) == m.Values
  {
    var remaining := m.Keys;
    values, keys := [], [];
    while remaining != {}
      invariant remaining <= m.Keys
      invariant |values| == |keys| && |keys| + |remaining| == |m|
      invariant forall i :: 0 <= i < |keys| ==> keys[i] in m && keys[i] !in remaining && values[i] == m[keys[i]]
      invariant forall i, j :: 0 <= i < j < |keys| ==> keys[i] != keys[j]
      invariant forall t :: t in m ==> t in remaining || t in keys
      decreases remaining
    {
      var t :| t in remaining;
      keys := keys + [t];
      values := values + [m[t]];
      remaining := remaining - {t};
    }
  }

  /** The private helper: visits `roots` in order against the accumulator
      `processed` and returns the accumulator as it stands afterwards. */
  method ResolveInto(g: Graph, roots: seq<Id>, processed: Processed)
    returns (result: Processed, ghost encountered: seq<Id>)
    requires Closed(g) && AllIn(g, roots) && Consistent(g, processed)
    ensures Consistent(g, result)
    // nothing already recorded is removed or replaced
    ensures Extends(processed, result)
    // the module type of every root ends up recorded
    ensures TypesRecorded(g, roots, result)
    // roots whose module types are all recorded already change nothing
    ensures TypesRecorded(g, roots, processed) ==> result == processed
    // every newly recorded provider has had its dependencies resolved
    ensures DependenciesRecorded(g, processed, result)
    // every newly recorded provider is reached from a root through newly recorded providers
    ensures ReachedFrom(g, roots, processed, result)
    // every provider encountered has its module type recorded, the first one of a type wins
    ensures TypesRecorded(g, encountered, result)
    ensures FirstWins(g, processed, result, encountered)
    // the trace is the depth-first visit order, and the types it meets are exactly the new keys
    ensures encountered == VisitOrder(g, roots, processed.Keys)
    ensures result.Keys == processed.Keys + TypesOf(g, encountered)
    decreases TypesLeft(g, processed), 1
  {
    result, encountered := processed, [];
    assert roots[0..] == roots && TypesOf(g, []) == {};
    for i := 0 to |roots|
      invariant LoopState(g, roots, i, processed, result, encountered)
    {
      assert TypesLeft(g, result) <= TypesLeft(g, processed);
      var next: Processed;
      ghost var trace: seq<Id>;
      next, trace := ProcessProvider(g, roots[i], result);
      LoopTurn(g, roots, i, processed, result, next, encountered, trace);
      result, encountered := next, encountered + trace;
    }
    assert roots[|roots|..] == [];
  }

  /** What holds once the helper's loop has visited `roots[..i]`. */
  ghost predicate LoopState(g: Graph, roots: seq<Id>, i: nat, processed: Processed,
                            result: Processed, encountered: seq<Id>)
    requires AllIn(g, roots) && i <= |roots|
  {
    && Consistent(g, result) && Extends(processed, result)
    && (forall k :: 0 <= k < i ==> g[roots[k]].moduleType in result)
    && ((forall k :: 0 <= k < i ==> g[roots[k]].moduleType in processed) ==> result == processed)
    && DependenciesRecorded(g, processed, result)
    && ReachedFrom(g, roots, processed, result)
    && TypesRecorded(g, encountered, result)
    && FirstWins(g, processed, result, encountered)
    && result.Keys == processed.Keys + TypesOf(g, encountered)
    && encountered + VisitOrder(g, roots[i..], result.Keys) == VisitOrder(g, roots, processed.Keys)
  }

  /** One turn of the helper's loop: what `ProcessProvider` promises for
      `roots[i]` carries the loop invariants from `i` to `i + 1`. */
  lemma LoopTurn(g: Graph, roots: seq<Id>, i: nat, processed: Processed, result: Processed, next: Processed,
                 encountered: seq<Id>, trace: seq<Id>)
    requires Closed(g) && AllIn(g, roots) && i < |roots|
    requires LoopState(g, roots, i, processed, result, encountered)
    requires Consistent(g, next) && Extends(result, next) && g[roots[i]].moduleType in next
    requires g[roots[i]].moduleType in result ==> next == result
    requires DependenciesRecorded(g, result, next) && ReachedFrom(g, [roots[i]], result, next)
    requires TypesRecorded(g, trace, next) && FirstWins(g, result, next, trace)
    requires trace == VisitOne(g, roots[i], result.Keys) && next.Keys == result.Keys + TypesOf(g, trace)
    ensures LoopState(g, roots, i + 1, processed, next, encountered + trace)
  {
    ProcessStep(g, roots, i, processed, result, next, encountered, trace);
    VisitStep(g, roots, i, processed.Keys, result.Keys, next.Keys, encountered, trace);
    RootsStep(g, roots, i, processed, result, next);
  }

  /** One turn of the helper's loop records the next root's module type, and
      changes nothing while every root's type so far was recorded already. */
  lemma RootsStep(g: Graph, roots: seq<Id>, i: nat, processed: Processed, result: Processed, next: Processed)
    requires AllIn(g, roots) && i < |roots|
    requires forall k :: 0 <= k < i ==> g[roots[k]].moduleType in result
    requires (forall k :: 0 <= k < i ==> g[roots[k]].moduleType in processed) ==> result == processed
    requires Extends(result, next) && g[roots[i]].moduleType in next
    requires g[roots[i]].moduleType in result ==> next == result
    ensures forall k :: 0 <= k < i + 1 ==> g[roots[k]].moduleType in next
    ensures (forall k :: 0 <= k < i + 1 ==> g[roots[k]].moduleType in processed) ==> next == processed
  {
    forall k | 0 <= k < i + 1 ensures g[roots[k]].moduleType in next {
      if k < i {
        assert g[roots[k]].moduleType in result;
      }
    }
  }

  /** The body of the helper's loop for one provider `p`: skip it when it is
      already recorded or its module type already has a provider; otherwise
      record it and resolve its dependencies. */
  method ProcessProvider(g: Graph, p: Id, processed: Processed)
    returns (result: Processed, ghost encountered: seq<Id>)
    requires Closed(g) && p in g && Consistent(g, processed)
    ensures Consistent(g, result)
    ensures Extends(processed, result)
    ensures g[p].moduleType in result
    // a skipped provider changes nothing and none of its dependencies is visited
    ensures p in processed.Values || g[p].moduleType in processed ==> result == processed && encountered == [p]
    ensures g[p].moduleType !in processed ==> result[g[p].moduleType] == p
    ensures DependenciesRecorded(g, processed, result)
    ensures ReachedFrom(g, [p], processed, result)
    ensures TypesRecorded(g, encountered, result)
    ensures FirstWins(g, processed, result, encountered)
    ensures encountered == VisitOne(g, p, processed.Keys)
    ensures result.Keys == processed.Keys + TypesOf(g, encountered)
    decreases TypesLeft(g, processed), 0
  {
    if p in processed.Values {
      RecordSkip(g, p, processed);
      return processed, [p];
    }
    var moduleType := g[p].moduleType;
    if moduleType !in processed {
      result, encountered := processed[moduleType := p], [p];
      var dependencies := g[p].dependencies;
      if |dependencies| > 0 {
        assert moduleType in AllTypes(g);
        assert TypesLeft(g, result) == TypesLeft(g, processed) - {moduleType};
        var next: Processed;
        ghost var trace: seq<Id>;
        next, trace := ResolveInto(g, dependencies, result);
        ExpandStep(g, p, processed, result, next, trace);
        ExpandVisit(g, p, processed, result, next, trace);
        result, encountered := next, [p] + trace;
      } else {
        RecordLeaf(g, p, processed, result);
      }
    } else {
      RecordSkip(g, p, processed);
      result, encountered := processed, [p];
    }
  }

  /** Skipping a provider whose type is already recorded. */
  lemma RecordSkip(g: Graph, p: Id, processed: Processed)
    requires Closed(g) && p in g && Consistent(g, processed)
    requires p in processed.Values || g[p].moduleType in processed
    ensures g[p].moduleType in processed
    ensures DependenciesRecorded(g, processed, processed)
    ensures ReachedFrom(g, [p], processed, processed)
    ensures TypesRecorded(g, [p], processed)
    ensures FirstWins(g, processed, processed, [p])
    ensures [p] == VisitOne(g, p, processed.Keys)
    ensures processed.Keys == processed.Keys + TypesOf(g, [p])
  {
    TypesOfSingleton(g, p);
    assert Added(processed, processed) == {};
  }

  /** Recording a provider without dependencies. */
  lemma RecordLeaf(g: Graph, p: Id, processed: Processed, result: Processed)
    requires Closed(g) && p in g && g[p].dependencies == []
    requires g[p].moduleType !in processed && result == processed[g[p].moduleType := p]
    ensures DependenciesRecorded(g, processed, result)
    ensures ReachedFrom(g, [p], processed, result)
    ensures FirstWins(g, processed, result, [p])
    ensures [p] == VisitOne(g, p, processed.Keys)
    ensures result.Keys == processed.Keys + TypesOf(g, [p])
  {
    TypesOfSingleton(g, p);
    assert Added(processed, result) == {p};
    assert PathFrom(g, [p], {p}, [p], p);
  }

  /** What one turn of the helper's loop preserves. */
  lemma ProcessStep(g: Graph, roots: seq<Id>, i: nat, processed: Processed, before: Processed, after: Processed,
                    encountered: seq<Id>, trace: seq<Id>)
    requires Closed(g) && i < |roots| && AllIn(g, roots)
    requires Consistent(g, after) && Extends(processed, before) && Extends(before, after)
    requires DependenciesRecorded(g, processed, before) && DependenciesRecorded(g, before, after)
    requires ReachedFrom(g, roots, processed, before) && ReachedFrom(g, [roots[i]], before, after)
    requires TypesRecorded(g, encountered, before) && TypesRecorded(g, trace, after)
    requires FirstWins(g, processed, before, encountered) && FirstWins(g, before, after, trace)
    ensures DependenciesRecorded(g, processed, after)
    ensures ReachedFrom(g, roots, processed, after)
    ensures TypesRecorded(g, encountered + trace, after)
    ensures FirstWins(g, processed, after, encountered + trace)
  {
    AddedGrows(processed, before, after);
    FirstOfTypeConcat(g, encountered, trace, 0);
    forall t | t in after && t !in processed
      ensures ReachableWithin(g, roots, Added(processed, after), after[t])
      ensures FirstOfType(g, encountered + trace, t) == Some(after[t])
    {
      FirstOfTypeConcat(g, encountered, trace, t);
      if t in before {
        ReachableWeaken(g, roots, roots, Added(processed, before), Added(processed, after), after[t]);
      } else {
        ReachableWeaken(g, [roots[i]], roots, Added(before, after), Added(processed, after), after[t]);
      }
    }
    forall k | 0 <= k < |encountered + trace| ensures g[(encountered + trace)[k]].moduleType in after {
      if k >= |encountered| {
        assert (encountered + trace)[k] == trace[k - |encountered|];
      }
    }
  }

  /** One turn of the helper's loop follows the visit order: the provider's
      trace comes next, and the recorded types grow by the types it met. */
  lemma VisitStep(g: Graph, roots: seq<Id>, i: nat, start: set<ModuleType>,
                  before: set<ModuleType>, after: set<ModuleType>, encountered: seq<Id>, trace: seq<Id>)
    requires Closed(g) && i < |roots| && AllIn(g, roots) && AllIn(g, encountered)
    requires before == start + TypesOf(g, encountered)
    requires encountered + VisitOrder(g, roots[i..], before) == VisitOrder(g, roots, start)
    requires AllIn(g, trace)
    requires trace == VisitOne(g, roots[i], before) && after == before + TypesOf(g, trace)
    ensures after == start + TypesOf(g, encountered + trace)
    ensures (encountered + trace) + VisitOrder(g, roots[i + 1..], after) == VisitOrder(g, roots, start)
  {
    TypesOfConcat(g, encountered, trace);
    AddTypesUnion(g, before, trace);
    assert roots[i..][0] == roots[i] && roots[i..][1..] == roots[i + 1..];
  }

  /** Recording `p` and then resolving its dependencies is the visit of `p`. */
  lemma ExpandVisit(g: Graph, p: Id, processed: Processed, recorded: Processed, after: Processed, trace: seq<Id>)
    requires Closed(g) && p in g && AllIn(g, trace)
    requires g[p].moduleType !in processed && recorded == processed[g[p].moduleType := p]
    requires trace == VisitOrder(g, g[p].dependencies, recorded.Keys)
    requires after.Keys == recorded.Keys + TypesOf(g, trace) && Extends(recorded, after)
    ensures [p] + trace == VisitOne(g, p, processed.Keys)
    ensures after.Keys == processed.Keys + TypesOf(g, [p] + trace)
    ensures Extends(processed, after) && after[g[p].moduleType] == p
  {
    TypesOfSingleton(g, p);
    TypesOfConcat(g, [p], trace);
    assert recorded.Keys == processed.Keys + {g[p].moduleType};
  }

  /** Resolving the dependencies of a just-recorded provider `p` keeps the
      properties of the accumulator relative to the state before `p`. */
  lemma ExpandStep(g: Graph, p: Id, processed: Processed, recorded: Processed, after: Processed, trace: seq<Id>)
    requires Closed(g) && p in g
    requires g[p].moduleType !in processed && recorded == processed[g[p].moduleType := p]
    requires Extends(recorded, after) && TypesRecorded(g, g[p].dependencies, after)
    requires DependenciesRecorded(g, recorded, after)
    requires ReachedFrom(g, g[p].dependencies, recorded, after)
    requires TypesRecorded(g, trace, after) && FirstWins(g, recorded, after, trace)
    ensures DependenciesRecorded(g, processed, after)
    ensures ReachedFrom(g, [p], processed, after)
    ensures TypesRecorded(g, [p] + trace, after)
    ensures FirstWins(g, processed, after, [p] + trace)
  {
    var moduleType := g[p].moduleType;
    assert Extends(processed, recorded);
    AddedGrows(processed, recorded, after);
    assert p in Added(processed, after) by {
      assert after[moduleType] == p;
    }
    FirstOfTypeConcat(g, [p], trace, 0);
    forall t | t in after && t !in processed
      ensures ReachableWithin(g, [p], Added(processed, after), after[t])
      ensures FirstOfType(g, [p] + trace, t) == Some(after[t])
    {
      FirstOfTypeConcat(g, [p], trace, t);
      if t == moduleType {
        assert PathFrom(g, [p], Added(processed, after), [p], p);
      } else {
        ReachableThroughDependency(g, p, Added(recorded, after), Added(processed, after), after[t]);
      }
    }
    forall k | 0 <= k < |[p] + trace| ensures g[([p] + trace)[k]].moduleType in after {
      if k >= 1 {
        assert ([p] + trace)[k] == trace[k - 1];
      }
    }
  }

  /** Models `System.arraycopy`: copies `length` elements of `src` from `srcPos`
      into `dest` at `destPos`, as if through a temporary copy when `src` and
      `dest` are the same array. */
  method ArrayCopy(src: array<string>, srcPos: nat, dest: array<string>, destPos: nat, length: nat)
    requires srcPos + length <= src.Length && destPos + length <= dest.Length
    modifies dest
    ensures dest[..] == old(dest[..destPos]) + old(src[srcPos..srcPos + length]) + old(dest[destPos + length..])
  {
    var chunk := src[srcPos..srcPos + length];
    for k := 0 to length
      invariant dest[..destPos] == old(dest[..destPos])
      invariant dest[destPos..destPos + k] == chunk[..k]
      invariant dest[destPos + length..] == old(dest[destPos + length..])
    {
      dest[destPos + k] := chunk[k];
    }
    assert dest[..] == dest[..destPos] + dest[destPos..destPos + length] + dest[destPos + length..];
  }

  /** Concatenates two arrays, handing back an input array itself when the other
      one is empty and a fresh array otherwise. */
  method MergeArrays(a1: array<string>, a2: array<string>) returns (merged: array<string>)
    ensures merged[..] == a1[..] + a2[..]
    ensures a1.Length == 0 ==> merged == a2
    ensures a1.Length != 0 && a2.Length == 0 ==> merged == a1
    ensures a1.Length != 0 && a2.Length != 0 ==> fresh(merged)
  {
    if a1.Length == 0 {
      return a2;
    }
    if a2.Length == 0 {
      return a1;
    }
    merged := new string[a1.Length + a2.Length];
    ArrayCopy(a1, 0, merged, 0, a1.Length);
    ArrayCopy(a2, 0, merged, a1.Length, a2.Length);
  }

  /** A fresh array holding the collection's elements in its order. */
  method ToArray(collection: seq<string>) returns (a: array<string>)
    ensures fresh(a)
    ensures a.Length == |collection| && a[..] == collection
  {
    a := new string[|collection|](i requires 0 <= i < |collection| => collection[i]);
  }
}
