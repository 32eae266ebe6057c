# Transformation-node cache and resource-lock registry

A Dafny model of two lazily filled registries of a build engine.

**TransformationNodes** (`transformation_nodes.dfy`) models `DefaultTransformationNodeFactory`.
The factory turns an artifact set and a transformation into transformation nodes.
It flattens the set depth-first: composites are recursed into, single-artifact sets are leaves, and any other kind of set is an illegal-state error.
For each leaf it gets or creates the node for (artifact, step chain).
A one-step chain gives an *initial* node.
A longer chain gives a *chained* node whose predecessor is the node for the chain without its last step.
Every node built, intermediate prefixes included, is cached under its key.

The behaviour is specified by pure functions: `Materialize` for one lookup-or-build, `Flatten` for the visit, and `CollectNodes` for the whole request.
The class `TransformationNodeFactory` holds the cache in a `map` field and its methods are proved equal to those functions.
The lemmas state the cache invariant (`WellFormedCache`), what each call adds and keeps, sharing of prefixes, idempotence and the visit order.

**ResourceLocks** (`resource_locks.dfy`) models `AbstractResourceLockRegistry`.
It holds a map from display name to lock, filled by put-if-absent followed by get, and a map from thread id to that thread's locks.
It answers per-thread queries and whether any registered lock is locked.

Two behaviours of the code worth knowing, which the model keeps:
- An illegal artifact set does not roll back: the leaves visited before it stay cached (`CollectMatchesFlatten`, `TransformationNodeFactory.GetOrCreate`).
- Node creation is a `get` (line 67) followed by a `put` (line 76), not an atomic compute-if-absent; the model does the same, sequentially.

## Model

| member | source | states |
|---|---|---|
| `TransformationNodes.KeyEqualsIff` | subprojects/dependency-management/src/main/java/org/gradle/api/internal/artifacts/transform/DefaultTransformationNodeFactory.java:101-116 | Two keys are equal by `equals` iff their artifact ids are equal and their step lists are equal element by element in order, i.e. iff they are the same map key. |
| `TransformationNodes.StepListEqualsIff` | subprojects/dependency-management/src/main/java/org/gradle/api/internal/artifacts/transform/DefaultTransformationNodeFactory.java:115 | List equality (same size, equal elements in order) holds iff the two step sequences are equal. |
| `TransformationNodes.StoredNodeMatchesKey` | subprojects/dependency-management/src/main/java/org/gradle/api/internal/artifacts/transform/DefaultTransformationNodeFactory.java:69-76 | In a well-formed cache, the node stored under (a, steps) has source artifact a, applies exactly `steps` in order, and has chain depth equal to the number of steps. |
| `TransformationNodes.StoredAncestor` | subprojects/dependency-management/src/main/java/org/gradle/api/internal/artifacts/transform/DefaultTransformationNodeFactory.java:73-74 | In a well-formed cache, every prefix of a stored key is stored too, and walking back (number of steps minus i) predecessors from a stored node reaches the node stored for the prefix of length i. |
| `TransformationNodes.MaterializeStores` | subprojects/dependency-management/src/main/java/org/gradle/api/internal/artifacts/transform/DefaultTransformationNodeFactory.java:66-77 | After getting (a, chain), the result is stored under (a, chain). Entries already present are never overwritten. The only keys added are (a, p) for non-empty prefixes p of the chain. |
| `TransformationNodes.MaterializeShape` | subprojects/dependency-management/src/main/java/org/gradle/api/internal/artifacts/transform/DefaultTransformationNodeFactory.java:67-75 | A hit returns the stored node and leaves the cache unchanged. A miss on a one-step chain builds an initial node on `chain[0]` for a. A miss on a longer chain builds a chained node on the last step whose predecessor is the node cached for the chain minus its last step. |
| `TransformationNodes.InsertKeepsWellFormed` | subprojects/dependency-management/src/main/java/org/gradle/api/internal/artifacts/transform/DefaultTransformationNodeFactory.java:76 | Storing a node that fits its key under a new key keeps the cache invariant. |
| `TransformationNodes.MaterializeWellFormed` | subprojects/dependency-management/src/main/java/org/gradle/api/internal/artifacts/transform/DefaultTransformationNodeFactory.java:65-79 | Getting or creating a node keeps the cache invariant: every stored node fits its key, and a chained node's predecessor is the node stored for the shorter prefix. |
| `TransformationNodes.MaterializeResult` | subprojects/dependency-management/src/main/java/org/gradle/api/internal/artifacts/transform/DefaultTransformationNodeFactory.java:69-76 | From a well-formed cache, the node returned applies exactly the chain to artifact a, with depth equal to the chain's length. Every non-empty prefix of the chain is cached for a afterwards. |
| `TransformationNodes.MaterializeIdempotent` | subprojects/dependency-management/src/main/java/org/gradle/api/internal/artifacts/transform/DefaultTransformationNodeFactory.java:66-78 | A second request for the same (a, chain), with any context, returns the same node and leaves the cache as the first request left it. |
| `TransformationNodes.PrefixNodeShared` | subprojects/dependency-management/src/main/java/org/gradle/api/internal/artifacts/transform/DefaultTransformationNodeFactory.java:67-76 | Once the node for a chain is built, a later request for any longer chain extending it yields a node whose predecessor at that length is that very node, so intermediate prefixes are shared. |
| `TransformationNodes.FlattenAgreesWithLeaves` | subprojects/dependency-management/src/main/java/org/gradle/api/internal/artifacts/transform/DefaultTransformationNodeFactory.java:49-62 | The depth-first visit completes iff the set holds only composites and single-artifact sets. It yields a prefix of the set's leaves in left-to-right order, and all of them when it completes. |
| `TransformationNodes.FlattenAllAgreesWithLeaves` | subprojects/dependency-management/src/main/java/org/gradle/api/internal/artifacts/transform/DefaultTransformationNodeFactory.java:50-53 | The same for the members of a composite, visited in order and stopping at the first illegal set. |
| `TransformationNodes.FlattenNestedExample` | subprojects/dependency-management/src/main/java/org/gradle/api/internal/artifacts/transform/DefaultTransformationNodeFactory.java:49-62 | A composite holding a composite of two single sets, then a single set, yields exactly those three artifacts in depth-first order. |
| `TransformationNodes.CollectMatchesFlatten` | subprojects/dependency-management/src/main/java/org/gradle/api/internal/artifacts/transform/DefaultTransformationNodeFactory.java:40-62 | Collecting yields exactly one node per visited leaf, in visiting order: the node cached for (leaf, chain). It fails exactly when the visit meets an illegal set. Existing entries are kept, and the keys added are (visited leaf, non-empty prefix of the chain) only, including leaves visited before an illegal set. |
| `TransformationNodes.CollectAllMatchesFlatten` | subprojects/dependency-management/src/main/java/org/gradle/api/internal/artifacts/transform/DefaultTransformationNodeFactory.java:50-62 | The same for the members of a composite. |
| `TransformationNodes.CollectAllHits` | subprojects/dependency-management/src/main/java/org/gradle/api/internal/artifacts/transform/DefaultTransformationNodeFactory.java:40-45 | If every visited leaf is already cached for the chain, collecting changes nothing and returns the cached nodes in visiting order. |
| `TransformationNodes.CollectAllMembersHit` | subprojects/dependency-management/src/main/java/org/gradle/api/internal/artifacts/transform/DefaultTransformationNodeFactory.java:50-62 | The same for the members of a composite. |
| `TransformationNodes.CollectIdempotent` | subprojects/dependency-management/src/main/java/org/gradle/api/internal/artifacts/transform/DefaultTransformationNodeFactory.java:37-46 | A second request for the same set and chain, whatever contexts the resolver hands out then, returns the same nodes and the same cache. |
| `TransformationNodes.CollectAllStopped` | subprojects/dependency-management/src/main/java/org/gradle/api/internal/artifacts/transform/DefaultTransformationNodeFactory.java:54-57 | Once the visit has stopped at an illegal set, the members after it change neither the result nor the cache. |
| `TransformationNodes.TransformationNodeFactory.constructor` | subprojects/dependency-management/src/main/java/org/gradle/api/internal/artifacts/transform/DefaultTransformationNodeFactory.java:34 | The factory starts with an empty cache, which satisfies the invariant. |
| `TransformationNodes.TransformationNodeFactory.GetOrCreate` | subprojects/dependency-management/src/main/java/org/gradle/api/internal/artifacts/transform/DefaultTransformationNodeFactory.java:37-47 | Succeeds iff the set is legal. On success it returns one node per leaf of the set, in order, each the cached node for (leaf, steps), applying all the steps to that leaf. Otherwise it fails with an illegal-state error. Existing entries are never overwritten, and only (leaf, prefix) keys are added. The cache and result equal `CollectNodes` of the old cache. |
| `TransformationNodes.TransformationNodeFactory.CollectTransformNodes` | subprojects/dependency-management/src/main/java/org/gradle/api/internal/artifacts/transform/DefaultTransformationNodeFactory.java:49-63 | The recursive visit with its loop over a composite's members is equal to `CollectNodes` on the old cache and keeps the cache invariant. |
| `TransformationNodes.TransformationNodeFactory.GetOrCreateInternal` | subprojects/dependency-management/src/main/java/org/gradle/api/internal/artifacts/transform/DefaultTransformationNodeFactory.java:65-79 | Equal to `Materialize` on the old cache. The node returned is the one stored under (a, chain). A hit returns the stored node and leaves the cache unchanged. The node's steps, artifact and depth match the chain. Every non-empty prefix is cached. Old entries are kept, and only prefixes of the chain are added. |
| `TransformationNodes.RequestTwice` | subprojects/dependency-management/src/main/java/org/gradle/api/internal/artifacts/transform/DefaultTransformationNodeFactory.java:37-47 | Two successive `getOrCreate` calls with the same set and steps return equal results, and the second leaves the cache as the first left it. |
| `ResourceLocks.ResourceLockRegistry.constructor` | subprojects/base-services/src/main/java/org/gradle/internal/resources/AbstractResourceLockRegistry.java:29-35 | Both maps start empty. |
| `ResourceLocks.ResourceLockRegistry.GetOrRegisterResourceLock` | subprojects/base-services/src/main/java/org/gradle/internal/resources/AbstractResourceLockRegistry.java:37-40 | For a new name, the producer's lock is stored and returned. For a known name, the stored lock is returned, the producer's lock is dropped and the map is unchanged. Other names keep their locks, the key set only grows, and the thread map is untouched. |
| `ResourceLocks.ResourceLockRegistry.GetResourceLocks` | subprojects/base-services/src/main/java/org/gradle/internal/resources/AbstractResourceLockRegistry.java:42-46 | Returns exactly the sequence of locks recorded for the given thread, or the empty sequence when there is none, and changes nothing. |
| `ResourceLocks.ResourceLockRegistry.HasOpenLocks` | subprojects/base-services/src/main/java/org/gradle/internal/resources/AbstractResourceLockRegistry.java:48-56 | True iff some registered lock reports itself locked, found by a scan over the registered locks with early return, and changes nothing. |
| `ResourceLocks.RegisterTwice` | subprojects/base-services/src/main/java/org/gradle/internal/resources/AbstractResourceLockRegistry.java:37-40 | Two registrations of one name return the identical lock object, which is the first producer's lock when the name was new. |

## Left out

- Concurrency: the concurrent maps, the synchronized multimap, and the race between the get at line 67 and the put at line 76 of `DefaultTransformationNodeFactory.java`. The model is sequential.
- The current thread: `Thread.currentThread()` becomes an explicit `ThreadId` parameter. Java's `long` is modelled as an unbounded `int`.
- `unpackTransformation` (lines 81-90): the step visitor belongs to `Transformation`, which is not part of this model. The steps it visits, in order, are the `transformationSteps` input of `GetOrCreate`.
- `CompositeResolvedArtifactSet.visitHierarchy` is not part of this model. It is replaced by explicit depth-first recursion over the `ArtifactSet` datatype, members left to right.
- Collaborators: `TransformationNode.initial`/`chained` internals, `DefaultArtifactTransformDependenciesProvider.create`, and `ExtraExecutionGraphDependenciesResolverFactory.create`. They are opaque. The provider and resolver bound into an initial node are one abstract `Context`, given per artifact by `contextOf`. The resolver factory runs once per leaf even on a cache hit; it has no visible effect here beyond the unused context.
- A single-artifact set is reduced to its artifact id: `Single` and `Initial` hold the id, where the source binds the `singleArtifactSet` object itself into an initial node (line 71), so a cached node keeps the first set seen for that id.
- Node identity is structural: nodes are datatype values, so "the same node" means an equal value rather than the same object.
- `ArtifactTransformKey.hashCode`: the map compares keys structurally.
- The text of the illegal-state message is not modelled; the failure is the single error `IllegalState`.
- `TransformationNodes.TransformationNodeFactory.GetOrCreate`: it requires a non-empty step list even for a set with no leaves, where the source would return an empty collection. An empty list makes the source fail on its first leaf, and every transformation has at least one step.
- `ResourceLockProducer` and the coordination service: the producer is represented by the lock it returned, passed in as an argument, because the source always calls it before `putIfAbsent`. A producer that throws is not modelled. The coordination service is only passed to the producer and is left out.
- Lock internals: acquiring and releasing, and the locks' own writes to the thread multimap that they are handed. The registry never writes that map, so the model has no operation that fills it.
- `BuildOperationPluginApplicator.java` is not part of this model: it forwards calls to a build-operation executor and holds no logic of this core.
