# Bootique launcher utilities: dependency resolver and array helpers

This project models `io.bootique.BootiqueUtils` from the Bootique launcher.
The class has three static helpers:

- `moduleProviderDependencies` gathers the module providers to load. It starts
  from a root collection and follows each provider's `dependencies()`
  transitively. It keeps one provider per module class, and the first provider
  met wins. A provider that is already recorded is skipped without calling
  `module()`. A provider whose module class already has a provider is also
  skipped, and its dependencies are never explored. Cycles end because a
  provider is only expanded when its module class is new.
- `mergeArrays` concatenates two `String[]`. When one side is empty it hands
  back the other array itself.
- `toArray` copies a collection of strings into a new array.

## How it is modelled

- A provider is an identity (`Providers.Id`) into a finite graph
  (`Providers.Graph`). Each node carries the class of the module the provider
  produces, as an abstract tag (`ModuleType`), and its dependency list.
- The `HashMap<Class, BQModuleProvider>` accumulator is a
  `map<ModuleType, Id>`.
- The Java helper mutates the accumulator in place and passes it to its own
  recursive calls. In the model, each resolver method takes the accumulator as
  it is on entry and returns it as it is on exit.
- The recursive call at line 46 is modelled by `BootiqueUtils.ResolveInto`, and
  the loop body by `BootiqueUtils.ProcessProvider`, so the two are mutually
  recursive. They terminate because each descent follows the insertion of a
  module type that was not yet a key.
- The resolver methods also return a ghost trace of every provider the `for`
  loops reach, skipped ones included. This trace is pinned to
  `Providers.VisitOrder`, a recursive definition of the depth-first order: the
  roots in order, each expanded into its dependencies right after it, but only
  when its module class is not recorded yet. "First wins" is stated against
  this trace with `Providers.FirstOfType`. The public method's result is then
  exactly `Providers.FirstOfEachType` of the visit order from an empty map.
- The array helpers work on Dafny arrays. `System.arraycopy` is modelled by
  `BootiqueUtils.ArrayCopy`.

## Model

| member | source | states |
|---|---|---|
| BootiqueUtils.ModuleProviderDependencies | bootique/src/main/java/io/bootique/BootiqueUtils.java:22-28 | The result holds at most one provider per module class and covers every root's class. It also covers the classes of the collected providers' dependencies. Every collected provider is reached from a root through collected providers only, and no roots give an empty result. When no two providers share a module class, the result is exactly the set of providers reachable from the roots, with no duplicates. In every case the result is exactly the first provider of each module class in the depth-first visit order of the roots. |
| BootiqueUtils.ResolveInto | bootique/src/main/java/io/bootique/BootiqueUtils.java:30-52 | Entries already in the accumulator are never removed or replaced. Every root's module class ends up recorded. Roots whose classes are all recorded already leave the map unchanged. Every newly recorded provider has had the classes of its dependencies recorded, and was reached from a root through newly recorded providers. The trace of providers met is exactly the depth-first visit order of the roots, given the classes recorded on entry. The new keys are exactly the classes met in it, and each newly recorded provider is the first of its class in it. |
| BootiqueUtils.ProcessProvider | bootique/src/main/java/io/bootique/BootiqueUtils.java:34-48 | A provider that is already a value, or whose class is already a key, leaves the accumulator unchanged and visits none of its dependencies. Otherwise it is recorded under its class, and its dependencies are resolved with the same guarantees as the helper. The trace is the provider followed by the visit of its dependencies, or the provider alone when it is skipped. |
| BootiqueUtils.CollectValues | bootique/src/main/java/io/bootique/BootiqueUtils.java:23-27 | It lists the values of the map, one per key. Every key is listed exactly once, in an unspecified order, and the list holds exactly the map's values. |
| BootiqueUtils.ResolutionListed | bootique/src/main/java/io/bootique/BootiqueUtils.java:22-28 | From the helper's guarantees on a fresh map and the listing of its values, it derives each promise of the public method. |
| BootiqueUtils.ValuesListed | bootique/src/main/java/io/bootique/BootiqueUtils.java:23-27 | The listed values of a fresh resolution have pairwise distinct module classes, and their classes are exactly the map's keys. The classes of their dependencies are recorded. |
| BootiqueUtils.ListedReachable | bootique/src/main/java/io/bootique/BootiqueUtils.java:34-51 | Each listed provider is reachable from a root through listed providers, so an empty root set yields nothing. |
| BootiqueUtils.ResolvedIsReachableSet | bootique/src/main/java/io/bootique/BootiqueUtils.java:30-52 | When module classes are unique per provider, a fresh resolution's values are exactly the providers reachable from the roots. |
| BootiqueUtils.WinnersListed | bootique/src/main/java/io/bootique/BootiqueUtils.java:22-28 | The listed values of a fresh resolution are exactly the first provider of each module class in the visit order of the roots. |
| BootiqueUtils.FirstOfEachTypeKept | bootique/src/main/java/io/bootique/BootiqueUtils.java:36-42 | When each new key holds the first provider of its class in the trace, and the keys are exactly the trace's classes, the values are exactly the first provider of each class in the trace. |
| BootiqueUtils.ResolveAgain | bootique/src/main/java/io/bootique/BootiqueUtils.java:22-28 | Resolving a result once more, with that result as the roots, collects the same providers whenever no two providers share a module class. |
| BootiqueUtils.LoopTurn | bootique/src/main/java/io/bootique/BootiqueUtils.java:34-49 | What the loop body guarantees for `roots[i]` carries every loop invariant from `i` to `i + 1`, including the position in the visit order. |
| BootiqueUtils.RootsStep | bootique/src/main/java/io/bootique/BootiqueUtils.java:34-49 | After the turn for `roots[i]`, the classes of roots `0..i` are all recorded. The map is still the one on entry when all of those classes were recorded on entry. |
| BootiqueUtils.VisitStep | bootique/src/main/java/io/bootique/BootiqueUtils.java:34-49 | Appending the trace of `roots[i]` keeps the trace a prefix of the visit order of all the roots. The recorded classes stay those on entry plus the classes met. |
| BootiqueUtils.ExpandVisit | bootique/src/main/java/io/bootique/BootiqueUtils.java:41-47 | Recording `p` and then visiting its dependencies is exactly the visit of `p`. The keys grow by the classes met on the way. |
| BootiqueUtils.RecordSkip | bootique/src/main/java/io/bootique/BootiqueUtils.java:36-41 | A provider that is already a value, or whose class is already a key, leaves the map as it is. It is met alone, and every invariant of the helper holds for that one-element trace. |
| BootiqueUtils.RecordLeaf | bootique/src/main/java/io/bootique/BootiqueUtils.java:41-45 | Recording a provider without dependencies keeps the helper's invariants: its dependencies are resolved, it is reached from itself, and it is first of its class. Its visit meets only itself, and the keys grow by its class alone. |
| BootiqueUtils.ProcessStep | bootique/src/main/java/io/bootique/BootiqueUtils.java:34-49 | One turn of the helper's loop preserves the invariants relative to the accumulator on entry. Those invariants are: dependencies resolved, reached from the roots, and first of class in the concatenated trace. |
| BootiqueUtils.ExpandStep | bootique/src/main/java/io/bootique/BootiqueUtils.java:41-47 | Recording a provider and then resolving its dependencies yields providers that are reached through that provider, each first of its class in the trace that starts with it. |
| BootiqueUtils.ArrayCopy | bootique/src/main/java/io/bootique/BootiqueUtils.java:64-65 | The destination afterwards is its old prefix, then the copied slice of the source, then its old suffix. |
| BootiqueUtils.MergeArrays | bootique/src/main/java/io/bootique/BootiqueUtils.java:54-68 | The result's contents are the first array followed by the second. If the first is empty, the result is the second array object itself. If only the second is empty, it is the first array object. Otherwise it is a fresh array. |
| BootiqueUtils.ToArray | bootique/src/main/java/io/bootique/BootiqueUtils.java:70-72 | A fresh array of the collection's size holding its elements in order. |
| Providers.FirstOfType | bootique/src/main/java/io/bootique/BootiqueUtils.java:39-42 | Returns nothing exactly when no provider in the sequence has the class. Otherwise it returns a provider of the sequence that has the class, and no provider before that position has it. |
| Providers.VisitOrder | bootique/src/main/java/io/bootique/BootiqueUtils.java:34-49 | The order in which the helper meets providers: the roots in order, each followed by the visit of its dependencies only when its class is not recorded yet. A skipped provider appears alone. The trace is at least as long as the roots and starts with the first root. |
| Providers.VisitOne | bootique/src/main/java/io/bootique/BootiqueUtils.java:36-47 | The visit of one provider: the provider alone when its class is already recorded. Otherwise the provider, then the visit of its dependencies with its class recorded. The trace starts with that provider. |
| Providers.AddTypes | bootique/src/main/java/io/bootique/BootiqueUtils.java:41-42 | The classes recorded after a stretch of the trace: those recorded before, plus the class of each provider in the stretch. It never loses a class recorded before. |
| Providers.FirstOfTypeConcat | bootique/src/main/java/io/bootique/BootiqueUtils.java:34-42 | The first provider of a class in a concatenation comes from the left part whenever the left part has one. |
| Providers.AddTypesUnion | bootique/src/main/java/io/bootique/BootiqueUtils.java:41-42 | The classes the visit order treats as recorded after a stretch of the trace are those recorded before, plus the classes of the providers in that stretch. |
| Providers.ReachableSetClosed | bootique/src/main/java/io/bootique/BootiqueUtils.java:34-46 | A list holding exactly the providers reachable from some roots reaches nothing beyond itself. |
| Providers.AddedGrows | bootique/src/main/java/io/bootique/BootiqueUtils.java:42-46 | Across two successive extensions of the accumulator, providers added in either step count as added overall. |
| Providers.ReachableWeaken | bootique/src/main/java/io/bootique/BootiqueUtils.java:34-46 | Reachability is kept with more roots and more permitted inner nodes. |
| Providers.ReachableNeedsRoot | bootique/src/main/java/io/bootique/BootiqueUtils.java:34 | Nothing is reachable from an empty root collection. |
| Providers.ReachableThroughDependency | bootique/src/main/java/io/bootique/BootiqueUtils.java:44-46 | A provider reachable from `p`'s dependencies is reachable from `p`, with `p` as an extra inner node. |
| Providers.PathCollected | bootique/src/main/java/io/bootique/BootiqueUtils.java:41-46 | Take a consistent accumulator that covers the roots' classes and the classes of its providers' dependencies. When classes are unique per provider, it holds every provider on every dependency path from a root. |
| Scenarios.FanOutScenario | bootique/src/test/java/io/bootique/BootiqueUtilsTest.java:36-54 | Provider 1 depends on 2 and 3. Resolving from 1 yields exactly {1, 2, 3}, three entries. |
| Scenarios.TwoLevelScenario | bootique/src/test/java/io/bootique/BootiqueUtilsTest.java:67-87 | In the chain 1 to 2 to 3, resolving from 1 yields exactly {1, 2, 3}, three entries. |
| Scenarios.CircularScenario | bootique/src/test/java/io/bootique/BootiqueUtilsTest.java:100-121 | In the cycle 1 to 2 to 3 to 1, resolving from 1 terminates and yields exactly {1, 2, 3}, three entries. |
| Scenarios.EmptyRootsScenario | bootique/src/main/java/io/bootique/BootiqueUtils.java:22-28 | An empty root collection yields an empty result. |
| Scenarios.DuplicateTypeScenario | bootique/src/main/java/io/bootique/BootiqueUtils.java:39-47 | Providers 1 and 2 share a module class, and only 2 depends on 3. With roots [1, 2], the map ends as exactly {class of 1 mapped to 1}: 2 is skipped, and 3 is never collected. |
| Scenarios.DuplicateMetFirst | bootique/src/main/java/io/bootique/BootiqueUtils.java:39-47 | In that graph, the visit of roots [1, 2] meets 1 and then 2, and does not expand 2. |
| Scenarios.DependencyOfSkippedNotCollected | bootique/src/main/java/io/bootique/BootiqueUtils.java:41-47 | In that graph, a resolution in which provider 1 holds its class and every new provider was reached through recorded providers holds nothing else. |
| Scenarios.SameTypeRootsScenario | bootique/src/main/java/io/bootique/BootiqueUtils.java:34-42 | Roots 1, 2 and 3 have no dependencies, and 2 and 3 share a module class. The result is exactly {1, 2}: the earlier root wins. |
| Scenarios.LeavesVisitedInOrder | bootique/src/main/java/io/bootique/BootiqueUtils.java:34-42 | In that graph the visit order is 1, 2, 3, and its first provider of each class is 1 or 2. |
| Scenarios.SameTypeDependenciesScenario | bootique/src/main/java/io/bootique/BootiqueUtils.java:41-47 | Provider 1 depends on 2 and then 3, which share a module class. Resolving from 1 yields exactly {1, 2}: the earlier dependency wins. |
| Scenarios.DependenciesVisitedInOrder | bootique/src/main/java/io/bootique/BootiqueUtils.java:41-47 | In that graph the visit order from 1 is 1, 2, 3: the dependencies come right after their provider, in order. |
| Scenarios.ResolveAgainOrderScenario | bootique/src/main/java/io/bootique/BootiqueUtils.java:34-47 | Provider 1 depends on 2, 2 depends on 4, and 2 and 3 share a module class. Roots [3, 1] yield exactly {1, 3}. The same providers as roots in the order [1, 3] collect 2, so they yield a different set. |
| Scenarios.SharedTypeFirst | bootique/src/main/java/io/bootique/BootiqueUtils.java:34-47 | In that graph the visit of roots [3, 1] meets 3, 1 and 2, and 3 and 1 come first of their classes. |
| Scenarios.SharedTypeSecond | bootique/src/main/java/io/bootique/BootiqueUtils.java:34-47 | In that graph the visit of roots [1, 3] meets 1, 2, 4 and 3, and 2 comes first of its class. |
| Scenarios.MergeArraysScenario | bootique/src/test/java/io/bootique/BootiqueUtilsTest.java:28-34 | Merging ["a"] with an empty array gives that same ["a"] array, and two empty arrays give the empty one. An empty array merged with ["b"] gives that same ["b"] array. Merging ["b", "c"] with ["d"] gives ["b", "c", "d"]. |
| Scenarios.ToArrayScenario | bootique/src/test/java/io/bootique/BootiqueUtilsTest.java:22-26 | An empty list gives an empty array, and ["a", "b", "c"] gives ["a", "b", "c"]. |

Notes on the code as written:

- A second provider whose module class is already recorded is skipped whole at
  lines 41-48: its dependencies are not explored, even when they reach
  providers found nowhere else. The model follows the code, and
  `Scenarios.DuplicateTypeScenario` proves the consequence.
- Because the accumulator only ever maps a class to a provider of that class,
  the `containsValue` test at line 36 never changes the outcome. A provider that
  is a value also has its class as a key, so the next test would skip it too.
  The early test only spares a `module()` call. The model keeps it as a
  separate branch of `ProcessProvider`.
- `putAll` at line 46 merges the map into itself, since the recursive call
  returns the very map it was given. It is therefore modelled as continuing
  with what the callee returned.

## Left out

- Guice `Module` objects, the reflective `getClass()` and object equality are
  not modelled. A provider is an identity, and its module class is a tag that
  the graph fixes. Repeated calls to `module()` and `dependencies()` are
  assumed to agree.
- `HashMap` iteration order is not modelled. `CollectValues` picks keys in an
  unspecified order, so the public result is specified as a collection without
  order.
- The Mockito call counts of the unit tests are not modelled: `module()` once
  per provider, `dependencies()` at least once, no other interactions. The
  model does not count calls. It does state which providers are skipped before
  their dependencies are read.
- The private constructor that throws `AssertionError` is not modelled. It is
  never called.
- Exceptions thrown by `module()` or `dependencies()` are not modelled. Neither
  are null collections, null providers or null array elements, which would
  fail with `NullPointerException` in Java.
- ResolveInto: requires an accumulator in which every key is its provider's
  class. This holds for every call the Java code makes, which always starts
  from an empty map.
- ArrayCopy: requires the copied ranges to be in bounds, so the
  `IndexOutOfBoundsException` of `System.arraycopy` is not modelled. Both of
  its callers in `mergeArrays` are always in range.
- ResolveAgain: idempotence is proved only when no two providers share a
  module class. In general it fails, and the order in which `HashMap` lists the
  first result decides the second. `Scenarios.ResolveAgainOrderScenario` shows
  this: roots [3, 1] give {1, 3}, but the same providers listed as [1, 3] also
  collect 2.
- MergeArrays: the length `a1.length + a2.length` at line 63 is an unbounded
  integer here. A sum above the Java `int` range would overflow, and `new
  String[...]` would throw `NegativeArraySizeException`; that failure is not
  modelled.
