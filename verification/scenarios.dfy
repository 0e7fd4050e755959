/**
  Concrete provider graphs checked against the resolver's contracts: the three
  shapes the unit tests of BootiqueUtils use (fan-out, a two-level chain, a
  cycle), two providers of the same module type, no roots, and the array
  helpers on the tests' inputs. Providers are numbered 1, 2, 3; provider k
  produces a module of type 10 * k unless stated otherwise.
 */
module Scenarios {
  import opened Providers
  import opened BootiqueUtils

  /** Provider 1 depends on providers 2 and 3, which have no dependencies. */
  method FanOutScenario() returns (providers: seq<Id>)
    ensures |providers| == 3 && Elements(providers) == {1, 2, 3}
  {
    var g := map[1 := Provider(10, [2, 3]), 2 := Provider(20, []), 3 := Provider(30, [])];
    providers := ModuleProviderDependencies(g, [1]);
    FanOutCollected(g, providers);
  }

  lemma FanOutCollected(g: Graph, providers: seq<Id>)
    requires g == map[1 := Provider(10, [2, 3]), 2 := Provider(20, []), 3 := Provider(30, [])]
    requires DistinctTypes(g) ==>
               Elements(providers) == ReachableSet(g, [1]) && |providers| == |ReachableSet(g, [1])|
    ensures |providers| == 3 && Elements(providers) == {1, 2, 3}
  {
    ThreeCollected(g, providers, [1, 2], [1, 3]);
  }

  /** Provider 1 depends on 2, which depends on 3. */
  method TwoLevelScenario() returns (providers: seq<Id>)
    ensures |providers| == 3 && Elements(providers) == {1, 2, 3}
  {
    var g := map[1 := Provider(10, [2]), 2 := Provider(20, [3]), 3 := Provider(30, [])];
    providers := ModuleProviderDependencies(g, [1]);
    TwoLevelCollected(g, providers);
  }

  lemma TwoLevelCollected(g: Graph, providers: seq<Id>)
    requires g == map[1 := Provider(10, [2]), 2 := Provider(20, [3]), 3 := Provider(30, [])]
    requires DistinctTypes(g) ==>
               Elements(providers) == ReachableSet(g, [1]) && |providers| == |ReachableSet(g, [1])|
    ensures |providers| == 3 && Elements(providers) == {1, 2, 3}
  {
    ThreeCollected(g, providers, [1, 2], [1, 2, 3]);
  }

  /** Provider 1 depends on 2, 2 on 3 and 3 back on 1: the cycle is resolved once. */
  method CircularScenario() returns (providers: seq<Id>)
    ensures |providers| == 3 && Elements(providers) == {1, 2, 3}
  {
    var g := map[1 := Provider(10, [2]), 2 := Provider(20, [3]), 3 := Provider(30, [1])];
    providers := ModuleProviderDependencies(g, [1]);
    CircularCollected(g, providers);
  }

  lemma CircularCollected(g: Graph, providers: seq<Id>)
    requires g == map[1 := Provider(10, [2]), 2 := Provider(20, [3]), 3 := Provider(30, [1])]
    requires DistinctTypes(g) ==>
               Elements(providers) == ReachableSet(g, [1]) && |providers| == |ReachableSet(g, [1])|
    ensures |providers| == 3 && Elements(providers) == {1, 2, 3}
  {
    ThreeCollected(g, providers, [1, 2], [1, 2, 3]);
  }

  /** A resolution from provider 1 of such a graph collects all three providers. */
  lemma ThreeCollected(g: Graph, providers: seq<Id>, to2: seq<Id>, to3: seq<Id>)
    requires g.Keys == {1, 2, 3}
    requires g[1].moduleType == 10 && g[2].moduleType == 20 && g[3].moduleType == 30
    requires IsPath(g, to2) && to2[0] == 1 && to2[|to2| - 1] == 2
    requires IsPath(g, to3) && to3[0] == 1 && to3[|to3| - 1] == 3
    requires DistinctTypes(g) ==>
               Elements(providers) == ReachableSet(g, [1]) && |providers| == |ReachableSet(g, [1])|
    ensures |providers| == 3 && Elements(providers) == {1, 2, 3}
  {
    ThreeReachable(g, to2, to3);
  }

  /** In a graph of providers 1, 2, 3 of types 10, 20, 30, the given paths
      from 1 to 2 and to 3 make exactly these three reachable from 1. */
  lemma ThreeReachable(g: Graph, to2: seq<Id>, to3: seq<Id>)
    requires g.Keys == {1, 2, 3}
    requires g[1].moduleType == 10 && g[2].moduleType == 20 && g[3].moduleType == 30
    requires IsPath(g, to2) && to2[0] == 1 && to2[|to2| - 1] == 2
    requires IsPath(g, to3) && to3[0] == 1 && to3[|to3| - 1] == 3
    ensures DistinctTypes(g)
    ensures ReachableSet(g, [1]) == {1, 2, 3}
    ensures |ReachableSet(g, [1])| == 3
  {
    forall p, q | p in g && q in g && p != q ensures g[p].moduleType != g[q].moduleType {
      assert p in g.Keys && q in g.Keys;
    }
    assert PathFrom(g, [1], g.Keys, [1], 1);
    assert PathFrom(g, [1], g.Keys, to2, 2);
    assert PathFrom(g, [1], g.Keys, to3, 3);
    assert ReachableSet(g, [1]) == {1, 2, 3};
    SizeOfThree(ReachableSet(g, [1]));
  }

  lemma SizeOfThree(s: set<Id>)
    requires s == {1, 2, 3}
    ensures |s| == 3
  {
    assert s == {1, 2} + {3};
  }

  /** No roots, nothing resolved. */
  method EmptyRootsScenario() returns (providers: seq<Id>)
    ensures providers == []
  {
    var g := map[1 := Provider(10, [])];
    providers := ModuleProviderDependencies(g, []);
  }

  /** Providers 1 and 2 both produce modules of type 10; only 2 depends on 3.
      With roots [1, 2], provider 1 is recorded first, provider 2 is skipped
      because its module type is already a key, and so provider 3, reachable
      only through 2, is never collected. */
  method DuplicateTypeScenario() returns (processed: Processed)
    ensures processed == map[10 := 1]
  {
    var g := map[1 := Provider(10, []), 2 := Provider(10, [3]), 3 := Provider(30, [])];
    ghost var encountered: seq<Id>;
    processed, encountered := ResolveInto(g, [1, 2], map[]);
    DuplicateMetFirst(g);
    DependencyOfSkippedNotCollected(g, processed);
  }

  /** Provider 1 is met first, and provider 2 is met but not expanded. */
  lemma DuplicateMetFirst(g: Graph)
    requires g == map[1 := Provider(10, []), 2 := Provider(10, [3]), 3 := Provider(30, [])]
    ensures VisitOrder(g, [1, 2], {}) == [1, 2]
  {
    assert VisitOne(g, 1, {}) == [1];
    assert AddTypes(g, {}, [1]) == {10};
    assert VisitOne(g, 2, {10}) == [2];
    assert VisitOrder(g, [2], {10}) == [2] + VisitOrder(g, [], AddTypes(g, {10}, [2]));
    assert VisitOrder(g, [1, 2], {}) == [1] + VisitOrder(g, [2], AddTypes(g, {}, [1]));
  }

  /** With provider 1 recorded for type 10, a resolution of roots [1, 2] that
      only holds providers reached through recorded providers cannot hold 3. */
  lemma DependencyOfSkippedNotCollected(g: Graph, m: Processed)
    requires g == map[1 := Provider(10, []), 2 := Provider(10, [3]), 3 := Provider(30, [])]
    requires Consistent(g, m) && 10 in m && m[10] == 1
    requires ReachedFrom(g, [1, 2], map[], m)
    ensures m == map[10 := 1]
  {
    assert 30 !in m by {
      if 30 in m {
        assert m[30] == 3;
        var path :| PathFrom(g, [1, 2], Added(map[], m), path, 3);
        OnlyThroughSkipped(g, Added(map[], m), path);
      }
    }
    assert m.Keys == {10};
  }

  /** In that graph every path from the roots to provider 3 passes through 2. */
  lemma OnlyThroughSkipped(g: Graph, via: set<Id>, path: seq<Id>)
    requires g == map[1 := Provider(10, []), 2 := Provider(10, [3]), 3 := Provider(30, [])]
    requires PathFrom(g, [1, 2], via, path, 3)
    ensures 2 in via
  {
    assert |path| >= 2;
    var q := path[|path| - 2];
    assert 3 in g[q].dependencies;
  }

  /** Providers 2 and 3 produce modules of the same type and are roots after 1:
      the first of them in root order, 2, is kept. */
  method SameTypeRootsScenario() returns (providers: seq<Id>)
    ensures Elements(providers) == {1, 2}
  {
    var g := map[1 := Provider(10, []), 2 := Provider(20, []), 3 := Provider(20, [])];
    providers := ModuleProviderDependencies(g, [1, 2, 3]);
    LeavesVisitedInOrder(g);
  }

  /** Roots without dependencies are visited in root order. */
  lemma LeavesVisitedInOrder(g: Graph)
    requires g == map[1 := Provider(10, []), 2 := Provider(20, []), 3 := Provider(20, [])]
    ensures VisitOrder(g, [1, 2, 3], {}) == [1, 2, 3]
    ensures FirstOfEachType(g, [1, 2, 3]) == {1, 2}
  {
    assert [1, 2, 3][1..] == [2, 3] && [2, 3][1..] == [3];
    assert VisitOne(g, 3, {10, 20}) == [3];
    assert VisitOrder(g, [3], {10, 20}) == [3];
    assert VisitOne(g, 2, {10}) == [2];
    assert VisitOrder(g, [2, 3], {10}) == VisitOne(g, 2, {10}) + VisitOrder(g, [3], AddTypes(g, {10}, [2]));
    assert AddTypes(g, {10}, [2]) == {10, 20};
    assert VisitOrder(g, [2, 3], {10}) == [2, 3];
    assert VisitOne(g, 1, {}) == [1];
    assert VisitOrder(g, [1, 2, 3], {}) == VisitOne(g, 1, {}) + VisitOrder(g, [2, 3], AddTypes(g, {}, [1]));
    assert AddTypes(g, {}, [1]) == {10};
    FirstOfEachTypeOneTwo(g, [1, 2, 3]);
  }

  /** Provider 1 depends on 2 and 3, which produce modules of the same type: the
      first dependency, 2, is kept. */
  method SameTypeDependenciesScenario() returns (providers: seq<Id>)
    ensures Elements(providers) == {1, 2}
  {
    var g := map[1 := Provider(10, [2, 3]), 2 := Provider(20, []), 3 := Provider(20, [])];
    providers := ModuleProviderDependencies(g, [1]);
    DependenciesVisitedInOrder(g);
  }

  /** A provider's dependencies are visited right after it, in their order. */
  lemma DependenciesVisitedInOrder(g: Graph)
    requires g == map[1 := Provider(10, [2, 3]), 2 := Provider(20, []), 3 := Provider(20, [])]
    ensures VisitOrder(g, [1], {}) == [1, 2, 3]
    ensures FirstOfEachType(g, [1, 2, 3]) == {1, 2}
  {
    assert [2, 3][1..] == [3];
    assert VisitOne(g, 3, {10, 20}) == [3];
    assert VisitOrder(g, [3], {10, 20}) == [3];
    assert VisitOne(g, 2, {10}) == [2];
    assert VisitOrder(g, [2, 3], {10}) == VisitOne(g, 2, {10}) + VisitOrder(g, [3], AddTypes(g, {10}, [2]));
    assert AddTypes(g, {10}, [2]) == {10, 20};
    assert VisitOrder(g, [2, 3], {10}) == [2, 3];
    assert VisitOne(g, 1, {}) == [1] + VisitOrder(g, [2, 3], {} + {10});
    assert {} + {10} == {10};
    assert VisitOne(g, 1, {}) == [1, 2, 3];
    assert VisitOrder(g, [1], {}) == [1, 2, 3] + VisitOrder(g, [], AddTypes(g, {}, [1, 2, 3]));
    FirstOfEachTypeOneTwo(g, [1, 2, 3]);
  }

  /** In the trace 1, 2, 3 where 2 and 3 share a module type, 1 and 2 come first. */
  lemma FirstOfEachTypeOneTwo(g: Graph, s: seq<Id>)
    requires g.Keys == {1, 2, 3} && g[1].moduleType == 10 && g[2].moduleType == 20 && g[3].moduleType == 20
    requires s == [1, 2, 3]
    ensures AllIn(g, s) && FirstOfEachType(g, s) == {1, 2}
  {
    assert s[1..] == [2, 3];
    assert FirstOfType(g, s, 10) == Some(1);
    assert FirstOfType(g, s, 20) == Some(2);
    assert 1 in FirstOfEachType(g, s) && 2 in FirstOfEachType(g, s);
  }

  /** Providers 2 and 3 share a module type, and 2 alone depends on 4. The
      roots [3, 1] give {1, 3}, but the same two providers as roots in the order
      [1, 3] collect 2 as well: with shared module types, resolving a result again
      can depend on the order in which its providers are listed. */
  method ResolveAgainOrderScenario() returns (first: seq<Id>, second: seq<Id>)
    ensures Elements(first) == {1, 3}
    ensures 2 in Elements(second) && Elements(second) != Elements(first)
  {
    var g := map[1 := Provider(10, [2]), 2 := Provider(30, [4]), 3 := Provider(30, []), 4 := Provider(40, [])];
    first := ModuleProviderDependencies(g, [3, 1]);
    SharedTypeFirst(g);
    second := ModuleProviderDependencies(g, [1, 3]);
    SharedTypeSecond(g);
  }

  /** With root 3 first, provider 2 is met after its module type is recorded. */
  lemma SharedTypeFirst(g: Graph)
    requires g == map[1 := Provider(10, [2]), 2 := Provider(30, [4]), 3 := Provider(30, []), 4 := Provider(40, [])]
    ensures VisitOrder(g, [3, 1], {}) == [3, 1, 2]
    ensures FirstOfEachType(g, [3, 1, 2]) == {1, 3}
  {
    assert [3, 1][1..] == [1] && [2][1..] == [];
    assert VisitOne(g, 3, {}) == [3];
    assert AddTypes(g, {}, [3]) == {30};
    assert VisitOne(g, 2, {30, 10}) == [2];
    assert VisitOrder(g, [2], {30, 10}) == [2];
    assert {30} + {10} == {30, 10};
    assert VisitOne(g, 1, {30}) == [1, 2];
    assert VisitOrder(g, [1], {30}) == [1, 2];
    SharedTypeFirstKept(g, [3, 1, 2]);
  }

  /** In the trace 3, 1, 2 where 3 and 2 share a module type, 3 and 1 come first. */
  lemma SharedTypeFirstKept(g: Graph, s: seq<Id>)
    requires 1 in g && 2 in g && 3 in g && 4 in g && g[1].moduleType == 10 && g[2].moduleType == 30 && g[3].moduleType == 30
    requires s == [3, 1, 2]
    ensures AllIn(g, s) && FirstOfEachType(g, s) == {1, 3}
  {
    assert s[1..] == [1, 2];
    assert FirstOfType(g, s, 30) == Some(3);
    assert FirstOfType(g, s, 10) == Some(1);
    assert 1 in FirstOfEachType(g, s) && 3 in FirstOfEachType(g, s);
  }

  /** With root 1 first, provider 2 records the shared type and leads to 4. */
  lemma SharedTypeSecond(g: Graph)
    requires g == map[1 := Provider(10, [2]), 2 := Provider(30, [4]), 3 := Provider(30, []), 4 := Provider(40, [])]
    ensures VisitOrder(g, [1, 3], {}) == [1, 2, 4, 3]
    ensures 2 in FirstOfEachType(g, [1, 2, 4, 3])
  {
    assert [1, 3][1..] == [3] && [4][1..] == [] && [2][1..] == [] && [3][1..] == [];
    assert {10} + {30} == {10, 30} && {10, 30} + {40} == {10, 30, 40};
    assert VisitOne(g, 4, {10, 30}) == [4];
    assert VisitOrder(g, [4], {10, 30}) == [4];
    assert VisitOne(g, 2, {10}) == [2, 4];
    assert VisitOrder(g, [2], {10}) == [2, 4];
    assert {} + {10} == {10};
    assert VisitOne(g, 1, {}) == [1, 2, 4];
    assert AddTypes(g, {}, [1, 2, 4]) == {10, 30, 40} by {
      assert [1, 2, 4][1..] == [2, 4] && [2, 4][1..] == [4];
    }
    assert VisitOne(g, 3, {10, 30, 40}) == [3];
    assert VisitOrder(g, [3], {10, 30, 40}) == [3];
    SharedTypeSecondKept(g, [1, 2, 4, 3]);
  }

  /** In the trace 1, 2, 4, 3, provider 2 is the first of its module type. */
  lemma SharedTypeSecondKept(g: Graph, s: seq<Id>)
    requires 1 in g && 2 in g && 3 in g && 4 in g && g[1].moduleType == 10 && g[2].moduleType == 30
    requires s == [1, 2, 4, 3]
    ensures AllIn(g, s) && 2 in FirstOfEachType(g, s)
  {
    assert s[1..] == [2, 4, 3];
    assert FirstOfType(g, s, 30) == Some(2);
  }

  /** The array-merge cases of the unit tests. */
  method MergeArraysScenario() returns (merged: array<string>)
    ensures merged[..] == ["b", "c", "d"]
  {
    var none := new string[0];
    var a := new string[] ["a"];
    var r := MergeArrays(a, none);
    assert r == a && r[..] == ["a"];
    r := MergeArrays(none, none);
    assert r == none && r[..] == [];
    var b := new string[] ["b"];
    r := MergeArrays(none, b);
    assert r == b && r[..] == ["b"];
    var bc := new string[] ["b", "c"];
    var d := new string[] ["d"];
    merged := MergeArrays(bc, d);
  }

  /** The list-to-array cases of the unit tests. */
  method ToArrayScenario() returns (a: array<string>)
    ensures a[..] == ["a", "b", "c"]
  {
    var empty := ToArray([]);
    assert empty.Length == 0;
    a := ToArray(["a", "b", "c"]);
  }
}
