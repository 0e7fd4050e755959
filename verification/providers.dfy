/**
  The provider graph that the resolver in BootiqueUtils walks.

  A module provider is an object with two queries: the module it produces
  (of which only the concrete class matters) and the providers it depends on.
  Here a provider is an identity (`Id`) into a finite graph, the class of its
  module is an abstract tag (`ModuleType`), and the resolver's accumulator is a
  map from module type to the provider recorded for it.
 */
module Providers {

  /** A provider, compared by identity: the model treats two providers as the
      same exactly when their identities are equal. */
  type Id = nat

  /** The concrete class of the module a provider produces. */
  type ModuleType = nat

  datatype Provider = Provider(moduleType: ModuleType, dependencies: seq<Id>)

  type Graph = map<Id, Provider>

  /** The resolver's accumulator: module type to the provider recorded for it. */
  type Processed = map<ModuleType, Id>

  datatype Option<T> = None | Some(value: T)

  /** Every dependency edge leads to a provider of the graph. */
  ghost predicate Closed(g: Graph)
  {
    forall p :: p in g ==> forall d :: d in g[p].dependencies ==> d in g
  }

  ghost predicate AllIn(g: Graph, s: seq<Id>)
  {
    forall i :: 0 <= i < |s| ==> s[i] in g
  }

  ghost function Elements(s: seq<Id>): set<Id>
  {
    set x | x in s
  }

  ghost function TypesOf(g: Graph, s: seq<Id>): set<ModuleType>
    requires AllIn(g, s)
  {
    set i | 0 <= i < |s| :: g[s[i]].moduleType
  }

  /** Every entry of the accumulator is keyed by the module type of its provider. */
  ghost predicate Consistent(g: Graph, m: Processed)
  {
    forall t :: t in m ==> m[t] in g && g[m[t]].moduleType == t
  }

  /** `m'` keeps every entry of `m` unchanged. */
  ghost predicate Extends(m: Processed, m': Processed)
  {
    forall t :: t in m ==> t in m' && m'[t] == m[t]
  }

  /** The providers recorded in `m'` under module types that `m` did not have. */
  ghost function Added(m: Processed, m': Processed): set<Id>
  {
    set t | t in m' && t !in m :: m'[t]
  }

  ghost function AllTypes(g: Graph): set<ModuleType>
  {
    set p | p in g :: g[p].moduleType
  }

  /** The module types of the graph that the accumulator does not have yet: the
      measure that makes the resolver terminate on cyclic graphs. */
  ghost function TypesLeft(g: Graph, m: Processed): set<ModuleType>
  {
    AllTypes(g) - m.Keys
  }

  /** No two providers of the graph produce modules of the same class. */
  ghost predicate DistinctTypes(g: Graph)
  {
    forall p, q :: p in g && q in g && p != q ==> g[p].moduleType != g[q].moduleType
  }

  /** Every provider recorded in `result` but not in `processed` had its
      dependencies resolved: their module types are recorded too. */
  ghost predicate DependenciesRecorded(g: Graph, processed: Processed, result: Processed)
  {
    forall t :: t in result && t !in processed ==> result[t] in g && DependencyTypesIn(g, result[t], result)
  }

  /** The module type of every dependency of `p` is recorded in `m`. */
  ghost predicate DependencyTypesIn(g: Graph, p: Id, m: Processed)
    requires p in g
  {
    forall d :: d in g[p].dependencies ==> d in g && g[d].moduleType in m
  }

  /** Every provider recorded in `result` but not in `processed` is reached from
      `roots` through such newly recorded providers only. */
  ghost predicate ReachedFrom(g: Graph, roots: seq<Id>, processed: Processed, result: Processed)
  {
    forall t :: t in result && t !in processed ==> ReachableWithin(g, roots, Added(processed, result), result[t])
  }

  /** First wins: every provider recorded in `result` but not in `processed` is
      the first of its module type in the trace `encountered`. */
  ghost predicate FirstWins(g: Graph, processed: Processed, result: Processed, encountered: seq<Id>)
  {
    && AllIn(g, encountered)
    && forall t :: t in result && t !in processed ==> FirstOfType(g, encountered, t) == Some(result[t])
  }

  /** The module type of every provider of `s` is recorded in `m`. */
  ghost predicate TypesRecorded(g: Graph, s: seq<Id>, m: Processed)
  {
    && AllIn(g, s)
    && forall i :: 0 <= i < |s| ==> g[s[i]].moduleType in m
  }

  /** A non-empty walk along dependency edges. */
  ghost predicate IsPath(g: Graph, path: seq<Id>)
  {
    && |path| > 0
    && (forall i :: 0 <= i < |path| ==> path[i] in g)
    && (forall i :: 1 <= i < |path| ==> path[i] in g[path[i - 1]].dependencies)
  }

  /** `path` starts at a root, ends at `p`, and every node before `p` is in `via`. */
  ghost predicate PathFrom(g: Graph, roots: seq<Id>, via: set<Id>, path: seq<Id>, p: Id)
  {
    && IsPath(g, path)
    && path[0] in roots
    && path[|path| - 1] == p
    && forall i :: 0 <= i < |path| - 1 ==> path[i] in via
  }

  /** `p` is reachable from `roots` through providers of `via` only. */
  ghost predicate ReachableWithin(g: Graph, roots: seq<Id>, via: set<Id>, p: Id)
  {
    exists path :: PathFrom(g, roots, via, path, p)
  }

  /** Every provider reachable from `roots` along dependency edges. */
  ghost function ReachableSet(g: Graph, roots: seq<Id>): set<Id>
  {
    set p | p in g && ReachableWithin(g, roots, g.Keys, p)
  }

  /** The first provider of `s` whose module is of type `t`, if any. */
  function FirstOfType(g: Graph, s: seq<Id>, t: ModuleType): (r: Option<Id>)
    requires AllIn(g, s)
    ensures r.None? <==> forall i :: 0 <= i < |s| ==> g[s[i]].moduleType != t
    ensures r.Some? ==> r.value in s && g[r.value].moduleType == t
    ensures r.Some? ==> exists k :: 0 <= k < |s| && s[k] == r.value &&
                          forall j :: 0 <= j < k ==> g[s[j]].moduleType != t
  {
    if s == [] then None
    else if g[s[0]].moduleType == t then Some(s[0])
    else FirstOfType(g, s[1..], t)
  }

  /** The order in which the resolver meets providers when it visits `roots`
      left to right and `seen` holds the module types already recorded: each
      provider is met once per occurrence, and it is expanded into its
      dependencies only when its module type is not recorded yet, which then
      records it. (A provider outside the graph, which a closed graph never
      leads to, is met and not expanded.) */
  ghost function VisitOrder(g: Graph, roots: seq<Id>, seen: set<ModuleType>): (trace: seq<Id>)
    ensures |roots| <= |trace|
    ensures roots != [] ==> trace[0] == roots[0]
    decreases AllTypes(g) - seen, 1, |roots|
  {
    if roots == [] then []
    else
      var first := VisitOne(g, roots[0], seen);
      first + VisitOrder(g, roots[1..], AddTypes(g, seen, first))
  }

  /** The providers met when the resolver visits the single provider `p`. */
  ghost function VisitOne(g: Graph, p: Id, seen: set<ModuleType>): (trace: seq<Id>)
    ensures |trace| > 0 && trace[0] == p
    decreases AllTypes(g) - seen, 0, 0
  {
    if p !in g || g[p].moduleType in seen then [p]
    else
      assert g[p].moduleType in AllTypes(g);
      [p] + VisitOrder(g, g[p].dependencies, seen + {g[p].moduleType})
  }

  /** `seen` with the module types of the providers of `s` that are in the graph. */
  ghost function AddTypes(g: Graph, seen: set<ModuleType>, s: seq<Id>): (r: set<ModuleType>)
    ensures seen <= r
    decreases s
  {
    if s == [] then seen
    else if s[0] in g then AddTypes(g, seen + {g[s[0]].moduleType}, s[1..])
    else AddTypes(g, seen, s[1..])
  }

  lemma {:induction false} AddTypesUnion(g: Graph, seen: set<ModuleType>, s: seq<Id>)
    requires AllIn(g, s)
    ensures AddTypes(g, seen, s) == seen + TypesOf(g, s)
    decreases s
  {
    if s != [] {
      AddTypesUnion(g, seen + {g[s[0]].moduleType}, s[1..]);
      assert TypesOf(g, s) == {g[s[0]].moduleType} + TypesOf(g, s[1..]) by {
        forall t | t in TypesOf(g, s) ensures t in {g[s[0]].moduleType} + TypesOf(g, s[1..]) {
          var i :| 0 <= i < |s| && g[s[i]].moduleType == t;
          if i > 0 {
            assert s[1..][i - 1] == s[i];
          }
        }
        forall t | t in TypesOf(g, s[1..]) ensures t in TypesOf(g, s) {
          var i :| 0 <= i < |s[1..]| && g[s[1..][i]].moduleType == t;
          assert s[1..][i] == s[i + 1];
        }
      }
    }
  }

  /** The providers of `s` that are the first of their module type in `s`. */
  ghost function FirstOfEachType(g: Graph, s: seq<Id>): set<Id>
    requires AllIn(g, s)
  {
    set p | p in s && FirstOfType(g, s, g[p].moduleType) == Some(p)
  }

  lemma TypesOfSingleton(g: Graph, p: Id)
    requires p in g
    ensures AllIn(g, [p]) && TypesOf(g, [p]) == {g[p].moduleType}
  {
    assert [p][0] == p;
    assert g[[p][0]].moduleType in TypesOf(g, [p]);
  }

  lemma TypesOfConcat(g: Graph, s1: seq<Id>, s2: seq<Id>)
    requires AllIn(g, s1) && AllIn(g, s2)
    ensures AllIn(g, s1 + s2) && TypesOf(g, s1 + s2) == TypesOf(g, s1) + TypesOf(g, s2)
  {
    assert AllIn(g, s1 + s2) by {
      forall i | 0 <= i < |s1 + s2| ensures (s1 + s2)[i] in g {
        if i >= |s1| {
          assert (s1 + s2)[i] == s2[i - |s1|];
        }
      }
    }
    forall t | t in TypesOf(g, s1 + s2) ensures t in TypesOf(g, s1) + TypesOf(g, s2) {
      var i :| 0 <= i < |s1 + s2| && g[(s1 + s2)[i]].moduleType == t;
      if i >= |s1| {
        assert (s1 + s2)[i] == s2[i - |s1|];
      }
    }
    forall t | t in TypesOf(g, s1) ensures t in TypesOf(g, s1 + s2) {
      var i :| 0 <= i < |s1| && g[s1[i]].moduleType == t;
      assert (s1 + s2)[i] == s1[i];
    }
    forall t | t in TypesOf(g, s2) ensures t in TypesOf(g, s1 + s2) {
      var i :| 0 <= i < |s2| && g[s2[i]].moduleType == t;
      assert (s1 + s2)[|s1| + i] == s2[i];
    }
  }

  /** In a concatenation the first provider of a type comes from the left part
      when the left part has one. */
  lemma {:induction false} FirstOfTypeConcat(g: Graph, s1: seq<Id>, s2: seq<Id>, t: ModuleType)
    requires AllIn(g, s1) && AllIn(g, s2)
    ensures AllIn(g, s1 + s2)
    ensures FirstOfType(g, s1 + s2, t)
         == if FirstOfType(g, s1, t).Some? then FirstOfType(g, s1, t) else FirstOfType(g, s2, t)
  {
    if s1 == [] {
      assert s1 + s2 == s2;
    } else {
      assert (s1 + s2)[1..] == s1[1..] + s2;
      FirstOfTypeConcat(g, s1[1..], s2, t);
    }
  }

  /** Keys that are added on top of an extension are added relative to the start too. */
  lemma AddedGrows(m0: Processed, m1: Processed, m2: Processed)
    requires Extends(m0, m1) && Extends(m1, m2)
    ensures Added(m0, m1) <= Added(m0, m2)
    ensures Added(m1, m2) <= Added(m0, m2)
  {
    forall x | x in Added(m0, m1) ensures x in Added(m0, m2) {
      var t :| t in m1 && t !in m0 && m1[t] == x;
      assert m2[t] == x;
    }
    forall x | x in Added(m1, m2) ensures x in Added(m0, m2) {
      var t :| t in m2 && t !in m1 && m2[t] == x;
      assert t !in m0;
    }
  }

  /** Reachability survives more roots and a larger set of inner nodes. */
  lemma ReachableWeaken(g: Graph, roots: seq<Id>, roots': seq<Id>, via: set<Id>, via': set<Id>, p: Id)
    requires ReachableWithin(g, roots, via, p)
    requires forall x :: x in roots ==> x in roots'
    requires via <= via'
    ensures ReachableWithin(g, roots', via', p)
  {
    var path :| PathFrom(g, roots, via, path, p);
    assert PathFrom(g, roots', via', path, p);
  }

  /** Nothing is reachable from no roots. */
  lemma ReachableNeedsRoot(g: Graph, roots: seq<Id>, via: set<Id>, p: Id)
    requires ReachableWithin(g, roots, via, p)
    ensures |roots| > 0
  {
    var path :| PathFrom(g, roots, via, path, p);
    assert path[0] in roots;
  }

  /** What is reachable from the dependencies of `p` is reachable from `p`, with
      `p` itself as one more inner node. */
  lemma ReachableThroughDependency(g: Graph, p: Id, via: set<Id>, via': set<Id>, q: Id)
    requires p in g
    requires ReachableWithin(g, g[p].dependencies, via, q)
    requires via <= via' && p in via'
    ensures ReachableWithin(g, [p], via', q)
  {
    var path :| PathFrom(g, g[p].dependencies, via, path, q);
    var longer := [p] + path;
    forall i | 1 <= i < |longer| ensures longer[i] in g[longer[i - 1]].dependencies {
      if i > 1 {
        assert longer[i] == path[i - 1] && longer[i - 1] == path[i - 2];
      }
    }
    assert PathFrom(g, [p], via', longer, q);
  }

  /** Completeness: when no two providers share a module type, a consistent map
      that covers the roots' types and the types of its own providers'
      dependencies holds every provider on every path from a root. */
  lemma {:induction false} PathCollected(g: Graph, roots: seq<Id>, m: Processed, path: seq<Id>)
    requires Closed(g) && DistinctTypes(g) && Consistent(g, m)
    requires forall i :: 0 <= i < |roots| ==> roots[i] in g && g[roots[i]].moduleType in m
    requires forall t :: t in m ==> forall d :: d in g[m[t]].dependencies ==> g[d].moduleType in m
    requires IsPath(g, path) && path[0] in roots
    ensures path[|path| - 1] in m.Values
    decreases |path|
  {
    var last := path[|path| - 1];
    if |path| == 1 {
      var t := g[last].moduleType;
      assert m[t] == last;
    } else {
      var prefix := path[..|path| - 1];
      assert IsPath(g, prefix) by {
        forall i | 1 <= i < |prefix| ensures prefix[i] in g[prefix[i - 1]].dependencies {
          assert prefix[i] == path[i] && prefix[i - 1] == path[i - 1];
        }
      }
      PathCollected(g, roots, m, prefix);
      var q := path[|path| - 2];
      var tq :| tq in m && m[tq] == q;
      var t := g[last].moduleType;
      assert t in m;
      assert m[t] == last;
    }
  }

  /** Two walks where the second starts at the end of the first join into one. */
  lemma PathJoin(g: Graph, first: seq<Id>, second: seq<Id>)
    requires IsPath(g, first) && IsPath(g, second) && second[0] == first[|first| - 1]
    ensures IsPath(g, first + second[1..])
    ensures (first + second[1..])[0] == first[0]
    ensures (first + second[1..])[|first + second[1..]| - 1] == second[|second| - 1]
  {
    var joined := first + second[1..];
    forall i | 1 <= i < |joined| ensures joined[i] in g[joined[i - 1]].dependencies {
      if i >= |first| {
        assert joined[i] == second[i - |first| + 1] && joined[i - 1] == second[i - |first|];
      }
    }
  }

  /** A list holding exactly what is reachable from some roots reaches nothing
      more: its own reachable set is itself. */
  lemma ReachableSetClosed(g: Graph, roots: seq<Id>, s: seq<Id>)
    requires AllIn(g, s) && Elements(s) == ReachableSet(g, roots)
    ensures ReachableSet(g, s) == Elements(s)
  {
    forall p | p in Elements(s) ensures p in ReachableSet(g, s) {
      assert PathFrom(g, s, g.Keys, [p], p);
    }
    forall p | p in ReachableSet(g, s) ensures p in Elements(s) {
      var second :| PathFrom(g, s, g.Keys, second, p);
      assert second[0] in Elements(s);
      var first :| PathFrom(g, roots, g.Keys, first, second[0]);
      PathJoin(g, first, second);
      assert PathFrom(g, roots, g.Keys, first + second[1..], p);
    }
  }

  /** A sequence without repeated elements has as many elements as its set. */
  lemma {:induction false} DistinctElementsCard(s: seq<Id>)
    requires forall i, j :: 0 <= i < j < |s| ==> s[i] != s[j]
    ensures |Elements(s)| == |s|
  {
    if s != [] {
      DistinctElementsCard(s[1..]);
      assert Elements(s) == {s[0]} + Elements(s[1..]);
      assert s[0] !in Elements(s[1..]);
    }
  }
}
