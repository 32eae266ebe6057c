/**
 * The memoized construction of transformation nodes: for every artifact of a
 * (possibly nested) artifact set and one ordered chain of transformation
 * steps, a chain of nodes "step k applied to the output of the node for
 * steps 0..k-1" is built once and shared through a cache keyed by
 * (artifact, step prefix).
 *
 * The pure functions below (Materialize, Flatten, CollectNodes) specify what
 * the imperative factory at the end of the module does; the lemmas state the
 * properties of the cache that the factory relies on.
 */
module TransformationNodes {

  /** Identity of one component artifact (compared with equals). */
  type ArtifactId(==)

  /** One atomic transformation step (compared with equals). */
  type Step(==)

  /**
   * What an initial node is bound to besides its step and artifact: the
   * dependencies provider and the execution-graph dependencies resolver.
   * Both come from collaborators outside this model.
   */
  type Context

  /** An artifact set as the hierarchy visitor sees it. */
  datatype ArtifactSet =
    | Composite(members: seq<ArtifactSet>)
    | Single(artifact: ArtifactId)
    | Other   // any other kind of set: not allowed here

  /** The cache key: an artifact and the ordered steps applied to it so far. */
  datatype Key = Key(artifact: ArtifactId, steps: seq<Step>)

  /** A transformation node: the first step on the artifact, or a step after a predecessor. */
  datatype Node =
    | Initial(step: Step, artifact: ArtifactId, context: Context)
    | Chained(step: Step, previous: Node)

  type Cache = map<Key, Node>

  /** The visit met a set that is neither a composite nor a single-artifact set. */
  datatype Error = IllegalState

  datatype Result<T> = Success(value: T) | Failure(error: Error)

  // ---------------------------------------------------------------------------
  // Key equality
  // ---------------------------------------------------------------------------

  /** List equality as java.util.List.equals defines it: same size, equal elements in order. */
  predicate StepListEquals(xs: seq<Step>, ys: seq<Step>)
    decreases |xs|
  {
    if xs == [] || ys == [] then |xs| == |ys|
    else xs[0] == ys[0] && StepListEquals(xs[1..], ys[1..])
  }

  /** ArtifactTransformKey.equals: equal artifact identifiers and equal step lists. */
  predicate KeyEquals(k: Key, other: Key)
  {
    k.artifact == other.artifact && StepListEquals(k.steps, other.steps)
  }

  lemma {:induction false} StepListEqualsIff(xs: seq<Step>, ys: seq<Step>)
    ensures StepListEquals(xs, ys) <==> xs == ys
    decreases |xs|
  {
    if xs != [] && ys != [] {
      StepListEqualsIff(xs[1..], ys[1..]);
      if xs[0] == ys[0] && xs[1..] == ys[1..] {
        assert xs == [xs[0]] + xs[1..] && ys == [ys[0]] + ys[1..];
      }
    }
  }

  /** Keys compared with equals are exactly the keys the map compares structurally. */
  lemma KeyEqualsIff(k: Key, other: Key)
    ensures KeyEquals(k, other) <==> k == other
  {
    StepListEqualsIff(k.steps, other.steps);
  }

  // ---------------------------------------------------------------------------
  // Nodes
  // ---------------------------------------------------------------------------

  /** The number of steps from the source artifact to this node's output. */
  function Depth(n: Node): nat
  {
    match n
    case Initial(_, _, _) => 1
    case Chained(_, p) => Depth(p) + 1
  }

  /** The steps applied, in order, from the source artifact up to this node. */
  function StepsOf(n: Node): seq<Step>
  {
    match n
    case Initial(s, _, _) => [s]
    case Chained(s, p) => StepsOf(p) + [s]
  }

  /** The artifact at the root of the node's chain. */
  function SourceArtifact(n: Node): ArtifactId
  {
    match n
    case Initial(_, a, _) => a
    case Chained(_, p) => SourceArtifact(p)
  }

  /** The j-th predecessor of n (n itself for j = 0); stays at the initial node past the root. */
  function Ancestor(n: Node, j: nat): Node
  {
    if j == 0 then n
    else match n
      case Initial(_, _, _) => n
      case Chained(_, p) => Ancestor(p, j - 1)
  }

  lemma {:induction false} StepsOfLength(n: Node)
    ensures |StepsOf(n)| == Depth(n)
  {
    match n
    case Initial(_, _, _) =>
    case Chained(_, p) => StepsOfLength(p);
  }

  // ---------------------------------------------------------------------------
  // The cache and its invariant
  // ---------------------------------------------------------------------------

  /** The key of the chain one step shorter. */
  function PrefixKey(k: Key): Key
    requires |k.steps| >= 1
  {
    Key(k.artifact, k.steps[..|k.steps| - 1])
  }

  /**
   * A stored node matches its key: its step is the key's last step; a
   * one-step key holds an initial node on the key's artifact; a longer key
   * holds a chained node whose predecessor is the node stored for the
   * prefix one step shorter.
   */
  ghost predicate EntryFits(m: Cache, k: Key)
    requires k in m
  {
    && |k.steps| >= 1
    && m[k].step == k.steps[|k.steps| - 1]
    && if |k.steps| == 1 then
         m[k].Initial? && m[k].artifact == k.artifact
       else
         m[k].Chained? && PrefixKey(k) in m && m[PrefixKey(k)] == m[k].previous
  }

  ghost predicate WellFormedCache(m: Cache)
  {
    forall k {:trigger EntryFits(m, k)} :: k in m ==> EntryFits(m, k)
  }

  /** m' keeps every entry of m as it was. */
  ghost predicate Grows(m: Cache, m': Cache)
  {
    forall k :: k in m ==> k in m' && m'[k] == m[k]
  }

  /** Every stored node represents exactly its key: same artifact, same steps, depth = prefix length. */
  lemma {:induction false} StoredNodeMatchesKey(m: Cache, k: Key)
    requires WellFormedCache(m) && k in m
    ensures StepsOf(m[k]) == k.steps
    ensures SourceArtifact(m[k]) == k.artifact
    ensures Depth(m[k]) == |k.steps|
    decreases |k.steps|
  {
    assert EntryFits(m, k);
    StepsOfLength(m[k]);
    if |k.steps| > 1 {
      var pk := PrefixKey(k);
      StoredNodeMatchesKey(m, pk);
      assert k.steps == pk.steps + [k.steps[|k.steps| - 1]];
    }
  }

  /**
   * Walking back from a stored node reaches, after |k.steps| - i steps, the
   * node stored for the prefix of length i: the chain of a key is made of
   * the nodes of its prefixes.
   */
  lemma {:induction false} StoredAncestor(m: Cache, k: Key, i: nat)
    requires WellFormedCache(m) && k in m
    requires 1 <= i <= |k.steps|
    ensures Key(k.artifact, k.steps[..i]) in m
    ensures Ancestor(m[k], |k.steps| - i) == m[Key(k.artifact, k.steps[..i])]
    decreases |k.steps| - i
  {
    assert EntryFits(m, k);
    if i == |k.steps| {
      assert k.steps[..i] == k.steps;
    } else {
      var pk := PrefixKey(k);
      StoredAncestor(m, pk, i);
      assert pk.steps[..i] == k.steps[..i];
    }
  }

  // ---------------------------------------------------------------------------
  // getOrCreateInternal as a function of the cache
  // ---------------------------------------------------------------------------

  /**
   * The node for (a, chain) and the cache after looking it up or building
   * it: a hit returns the stored node; a miss builds an initial node for a
   * one-step chain, or first materializes the chain without its last step
   * and wraps that node; the new node is stored under its key.
   */
  function Materialize(m: Cache, a: ArtifactId, chain: seq<Step>, context: Context): (Cache, Node)
    requires |chain| >= 1
    decreases |chain|
  {
    var key := Key(a, chain);
    if key in m then (m, m[key])
    else if |chain| == 1 then
      var n := Initial(chain[0], a, context);
      (m[key := n], n)
    else
      var shorter := Materialize(m, a, chain[..|chain| - 1], context);
      var n := Chained(chain[|chain| - 1], shorter.1);
      (shorter.0[key := n], n)
  }

  /**
   * What a call stores: the result under its key; every entry already
   * present is kept as it was; the only keys added are (a, p) for non-empty
   * prefixes p of the chain.
   */
  lemma {:induction false} MaterializeStores(m: Cache, a: ArtifactId, chain: seq<Step>, context: Context)
    requires |chain| >= 1
    ensures var r := Materialize(m, a, chain, context);
      Key(a, chain) in r.0 && r.0[Key(a, chain)] == r.1
    ensures Grows(m, Materialize(m, a, chain, context).0)
    ensures forall k :: k in Materialize(m, a, chain, context).0 && k !in m ==>
      k.artifact == a && 1 <= |k.steps| && k.steps <= chain
    decreases |chain|
  {
    var key := Key(a, chain);
    var r := Materialize(m, a, chain, context);
    if key !in m && |chain| > 1 {
      var shorter := chain[..|chain| - 1];
      MaterializeStores(m, a, shorter, context);
      var m1 := Materialize(m, a, shorter, context).0;
      assert r.0 == m1[key := r.1];
      assert key != Key(a, shorter);
      forall k | k in r.0 && k !in m ensures k.artifact == a && 1 <= |k.steps| && k.steps <= chain {
        if k != key {
          assert k.steps <= shorter;
        }
      }
    }
  }

  /**
   * The node a call returns: on a hit the stored node, with the cache
   * unchanged; on a miss an initial node on the first step for a one-step
   * chain, and otherwise a chained node on the last step whose predecessor
   * is the node now cached for the chain without its last step.
   */
  lemma MaterializeShape(m: Cache, a: ArtifactId, chain: seq<Step>, context: Context)
    requires |chain| >= 1
    ensures Key(a, chain) in m ==> Materialize(m, a, chain, context) == (m, m[Key(a, chain)])
    ensures Key(a, chain) !in m && |chain| == 1 ==>
      Materialize(m, a, chain, context).1 == Initial(chain[0], a, context)
    ensures Key(a, chain) !in m && |chain| > 1 ==>
      var r := Materialize(m, a, chain, context);
      Key(a, chain[..|chain| - 1]) in r.0 && r.1 == Chained(chain[|chain| - 1], r.0[Key(a, chain[..|chain| - 1])])
  {
  }

  /** Storing a node that fits its key, under a key not yet present, keeps the cache well-formed. */
  lemma InsertKeepsWellFormed(m: Cache, key: Key, n: Node)
    requires WellFormedCache(m) && key !in m
    requires EntryFits(m[key := n], key)
    ensures WellFormedCache(m[key := n])
  {
    var m' := m[key := n];
    forall k | k in m' ensures EntryFits(m', k) {
      if k != key {
        assert EntryFits(m, k);
      }
    }
  }

  /** A call keeps the cache well-formed. */
  lemma {:induction false} MaterializeWellFormed(m: Cache, a: ArtifactId, chain: seq<Step>, context: Context)
    requires |chain| >= 1 && WellFormedCache(m)
    ensures WellFormedCache(Materialize(m, a, chain, context).0)
    decreases |chain|
  {
    var key := Key(a, chain);
    var r := Materialize(m, a, chain, context);
    if key !in m {
      if |chain| == 1 {
        InsertKeepsWellFormed(m, key, r.1);
      } else {
        var shorter := chain[..|chain| - 1];
        MaterializeWellFormed(m, a, shorter, context);
        MaterializeStores(m, a, shorter, context);
        var before := Materialize(m, a, shorter, context);
        assert key !in before.0;
        assert PrefixKey(key) == Key(a, shorter);
        assert r == (before.0[key := r.1], r.1);
        InsertKeepsWellFormed(before.0, key, r.1);
      }
    }
  }

  /**
   * From a well-formed cache, the node returned applies exactly the chain
   * to artifact a, its depth is the chain's length, and every non-empty
   * prefix of the chain is cached afterwards.
   */
  lemma MaterializeResult(m: Cache, a: ArtifactId, chain: seq<Step>, context: Context)
    requires |chain| >= 1 && WellFormedCache(m)
    ensures var n := Materialize(m, a, chain, context).1;
      StepsOf(n) == chain && SourceArtifact(n) == a && Depth(n) == |chain|
    ensures forall i :: 1 <= i <= |chain| ==> Key(a, chain[..i]) in Materialize(m, a, chain, context).0
  {
    var key := Key(a, chain);
    var r := Materialize(m, a, chain, context);
    MaterializeStores(m, a, chain, context);
    MaterializeWellFormed(m, a, chain, context);
    StoredNodeMatchesKey(r.0, key);
    forall i | 1 <= i <= |chain| ensures Key(a, chain[..i]) in r.0 {
      StoredAncestor(r.0, key, i);
    }
  }

  /**
   * Asking again for the same artifact and chain (with any context) is a
   * hit: the same node, and the cache is not changed.
   */
  lemma MaterializeIdempotent(m: Cache, a: ArtifactId, chain: seq<Step>, context: Context, later: Context)
    requires |chain| >= 1
    ensures var first := Materialize(m, a, chain, context);
      Materialize(first.0, a, chain, later) == first
  {
  }

  /**
   * Sharing of prefixes: once the node for `chain` is built, a later request
   * for a longer chain that extends it yields a node whose ancestor at that
   * length is the very node built first.
   */
  lemma PrefixNodeShared(m: Cache, a: ArtifactId, chain: seq<Step>, longer: seq<Step>,
                         context: Context, later: Context)
    requires WellFormedCache(m)
    requires 1 <= |chain| && chain <= longer
    ensures var first := Materialize(m, a, chain, context);
      Ancestor(Materialize(first.0, a, longer, later).1, |longer| - |chain|) == first.1
  {
    var first := Materialize(m, a, chain, context);
    MaterializeStores(m, a, chain, context);
    MaterializeWellFormed(m, a, chain, context);
    var second := Materialize(first.0, a, longer, later);
    MaterializeStores(first.0, a, longer, later);
    MaterializeWellFormed(first.0, a, longer, later);
    assert longer[..|chain|] == chain;
    StoredAncestor(second.0, Key(a, longer), |chain|);
  }

  // ---------------------------------------------------------------------------
  // Visiting the artifact-set hierarchy
  // ---------------------------------------------------------------------------

  /** The leaves visited, in order, and whether the visit ended without an illegal set. */
  datatype Visit = Visit(leaves: seq<ArtifactId>, complete: bool)

  /**
   * The depth-first visit of an artifact set: composites are recursed into,
   * single-artifact sets are leaves, and any other set stops the visit.
   */
  function Flatten(s: ArtifactSet): Visit
    decreases s
  {
    match s
    case Single(a) => Visit([a], true)
    case Other => Visit([], false)
    case Composite(members) => FlattenAll(members)
  }

  function FlattenAll(ms: seq<ArtifactSet>): Visit
    decreases ms
  {
    if ms == [] then Visit([], true)
    else
      var v := FlattenAll(ms[..|ms| - 1]);
      if !v.complete then v
      else
        var w := Flatten(ms[|ms| - 1]);
        Visit(v.leaves + w.leaves, w.complete)
  }

  /** Reference definitions: a set is legal when it holds only composites and singles... */
  predicate LegalSet(s: ArtifactSet)
    decreases s
  {
    match s
    case Single(_) => true
    case Other => false
    case Composite(members) => forall i | 0 <= i < |members| :: LegalSet(members[i])
  }

  /** ...and its leaves are all its single-artifact sets, left to right. */
  function Leaves(s: ArtifactSet): seq<ArtifactId>
    decreases s
  {
    match s
    case Single(a) => [a]
    case Other => []
    case Composite(members) => LeavesAll(members)
  }

  function LeavesAll(ms: seq<ArtifactSet>): seq<ArtifactId>
    decreases ms
  {
    if ms == [] then [] else LeavesAll(ms[..|ms| - 1]) + Leaves(ms[|ms| - 1])
  }

  /**
   * The visit completes iff the set is legal; it yields a prefix of the
   * set's leaves, and all of them when it completes.
   */
  lemma {:induction false} FlattenAgreesWithLeaves(s: ArtifactSet)
    ensures Flatten(s).complete <==> LegalSet(s)
    ensures Flatten(s).leaves <= Leaves(s)
    ensures Flatten(s).complete ==> Flatten(s).leaves == Leaves(s)
    decreases s
  {
    match s
    case Single(_) =>
    case Other =>
    case Composite(members) => FlattenAllAgreesWithLeaves(members);
  }

  lemma {:induction false} FlattenAllAgreesWithLeaves(ms: seq<ArtifactSet>)
    ensures FlattenAll(ms).complete <==> forall i | 0 <= i < |ms| :: LegalSet(ms[i])
    ensures FlattenAll(ms).leaves <= LeavesAll(ms)
    ensures FlattenAll(ms).complete ==> FlattenAll(ms).leaves == LeavesAll(ms)
    decreases ms
  {
    if ms != [] {
      var init, last := ms[..|ms| - 1], ms[|ms| - 1];
      FlattenAllAgreesWithLeaves(init);
      FlattenAgreesWithLeaves(last);
      var v := FlattenAll(init);
      if !v.complete {
        var i :| 0 <= i < |init| && !LegalSet(init[i]);
        assert ms[i] == init[i];
      } else {
        var w := Flatten(last);
        assert (forall i | 0 <= i < |ms| :: LegalSet(ms[i])) <==> LegalSet(last) by {
          forall i | 0 <= i < |init| ensures ms[i] == init[i] {}
        }
        assert v.leaves + w.leaves <= v.leaves + Leaves(last);
      }
    }
  }

  /** A nested hierarchy: a composite of two single sets, then a single set at the top level. */
  lemma FlattenNestedExample(x: ArtifactId, y: ArtifactId, z: ArtifactId)
    ensures Flatten(Composite([Composite([Single(x), Single(y)]), Single(z)])) == Visit([x, y, z], true)
  {
    var inner := [Single(x), Single(y)];
    assert inner[..1][..0] == [];
    assert FlattenAll(inner[..1]) == Visit([x], true);
    assert Flatten(Composite(inner)) == FlattenAll(inner) == Visit([x, y], true);
    var outer := [Composite(inner), Single(z)];
    assert outer[..1][..0] == [];
    assert FlattenAll(outer[..1]) == Visit([x, y], true);
    assert [x, y] + [z] == [x, y, z];
    assert Flatten(Composite(outer)) == FlattenAll(outer) == Visit([x, y, z], true);
  }

  // ---------------------------------------------------------------------------
  // collectTransformNodes as a function of the cache
  // ---------------------------------------------------------------------------

  /** The cache after the visit, the nodes collected in visiting order, and whether it completed. */
  datatype Collected = Collected(cache: Cache, nodes: seq<Node>, complete: bool)

  function CollectNodes(m: Cache, s: ArtifactSet, chain: seq<Step>, contextOf: ArtifactId -> Context): Collected
    requires |chain| >= 1
    decreases s
  {
    match s
    case Single(a) =>
      var (m', n) := Materialize(m, a, chain, contextOf(a));
      Collected(m', [n], true)
    case Other => Collected(m, [], false)
    case Composite(members) => CollectAll(m, members, chain, contextOf)
  }

  function CollectAll(m: Cache, ms: seq<ArtifactSet>, chain: seq<Step>, contextOf: ArtifactId -> Context): Collected
    requires |chain| >= 1
    decreases ms
  {
    if ms == [] then Collected(m, [], true)
    else
      var c := CollectAll(m, ms[..|ms| - 1], chain, contextOf);
      if !c.complete then c
      else
        var d := CollectNodes(c.cache, ms[|ms| - 1], chain, contextOf);
        Collected(d.cache, c.nodes + d.nodes, d.complete)
  }

  /**
   * The nodes collected are one per visited leaf, in visiting order, each
   * the node cached for (leaf, chain); the visit completes exactly when
   * Flatten does; entries present before are kept, and the keys added are
   * (leaf, non-empty prefix of the chain) for visited leaves only.
   */
  lemma {:induction false} CollectMatchesFlatten(m: Cache, s: ArtifactSet, chain: seq<Step>, contextOf: ArtifactId -> Context)
    requires |chain| >= 1
    ensures var c, v := CollectNodes(m, s, chain, contextOf), Flatten(s);
      && c.complete == v.complete
      && |c.nodes| == |v.leaves|
      && (forall i | 0 <= i < |c.nodes| :: Key(v.leaves[i], chain) in c.cache && c.cache[Key(v.leaves[i], chain)] == c.nodes[i])
      && Grows(m, c.cache)
      && (forall k :: k in c.cache && k !in m ==> k.artifact in v.leaves && 1 <= |k.steps| && k.steps <= chain)
    decreases s
  {
    match s
    case Single(a) => MaterializeStores(m, a, chain, contextOf(a));
    case Other =>
    case Composite(members) => CollectAllMatchesFlatten(m, members, chain, contextOf);
  }

  lemma {:induction false} CollectAllMatchesFlatten(m: Cache, ms: seq<ArtifactSet>, chain: seq<Step>, contextOf: ArtifactId -> Context)
    requires |chain| >= 1
    ensures var c, v := CollectAll(m, ms, chain, contextOf), FlattenAll(ms);
      && c.complete == v.complete
      && |c.nodes| == |v.leaves|
      && (forall i | 0 <= i < |c.nodes| :: Key(v.leaves[i], chain) in c.cache && c.cache[Key(v.leaves[i], chain)] == c.nodes[i])
      && Grows(m, c.cache)
      && (forall k :: k in c.cache && k !in m ==> k.artifact in v.leaves && 1 <= |k.steps| && k.steps <= chain)
    decreases ms
  {
    if ms != [] {
      var init, last := ms[..|ms| - 1], ms[|ms| - 1];
      CollectAllMatchesFlatten(m, init, chain, contextOf);
      var c0 := CollectAll(m, init, chain, contextOf);
      if c0.complete {
        CollectMatchesFlatten(c0.cache, last, chain, contextOf);
        var d := CollectNodes(c0.cache, last, chain, contextOf);
        var v0, w := FlattenAll(init), Flatten(last);
        var c := Collected(d.cache, c0.nodes + d.nodes, d.complete);
        assert CollectAll(m, ms, chain, contextOf) == c;
        assert FlattenAll(ms).leaves == v0.leaves + w.leaves;
        forall i | 0 <= i < |c.nodes|
          ensures Key((v0.leaves + w.leaves)[i], chain) in c.cache
          ensures c.cache[Key((v0.leaves + w.leaves)[i], chain)] == c.nodes[i]
        {
          if i >= |c0.nodes| {
            assert (v0.leaves + w.leaves)[i] == w.leaves[i - |c0.nodes|];
          } else {
            assert (v0.leaves + w.leaves)[i] == v0.leaves[i];
          }
        }
      }
    }
  }

  /**
   * A visit whose every leaf is already cached for the chain is all hits: it
   * leaves the cache unchanged and returns the cached nodes in visiting order.
   */
  lemma {:induction false} CollectAllHits(m: Cache, s: ArtifactSet, chain: seq<Step>, contextOf: ArtifactId -> Context)
    requires |chain| >= 1
    requires forall a :: a in Flatten(s).leaves ==> Key(a, chain) in m
    ensures var c, v := CollectNodes(m, s, chain, contextOf), Flatten(s);
      && c.cache == m && c.complete == v.complete && |c.nodes| == |v.leaves|
      && (forall i | 0 <= i < |c.nodes| :: c.nodes[i] == m[Key(v.leaves[i], chain)])
    decreases s
  {
    match s
    case Single(a) =>
    case Other =>
    case Composite(members) => CollectAllMembersHit(m, members, chain, contextOf);
  }

  lemma {:induction false} CollectAllMembersHit(m: Cache, ms: seq<ArtifactSet>, chain: seq<Step>, contextOf: ArtifactId -> Context)
    requires |chain| >= 1
    requires forall a :: a in FlattenAll(ms).leaves ==> Key(a, chain) in m
    ensures var c, v := CollectAll(m, ms, chain, contextOf), FlattenAll(ms);
      && c.cache == m && c.complete == v.complete && |c.nodes| == |v.leaves|
      && (forall i | 0 <= i < |c.nodes| :: c.nodes[i] == m[Key(v.leaves[i], chain)])
    decreases ms
  {
    if ms != [] {
      var init, last := ms[..|ms| - 1], ms[|ms| - 1];
      var v0 := FlattenAll(init);
      if v0.complete {
        var w := Flatten(last);
        assert FlattenAll(ms).leaves == v0.leaves + w.leaves;
        CollectAllMembersHit(m, init, chain, contextOf);
        CollectAllHits(m, last, chain, contextOf);
        var c0 := CollectAll(m, init, chain, contextOf);
        var d := CollectNodes(m, last, chain, contextOf);
        forall i | 0 <= i < |c0.nodes| + |d.nodes|
          ensures (c0.nodes + d.nodes)[i] == m[Key((v0.leaves + w.leaves)[i], chain)]
        {
          if i >= |c0.nodes| {
            assert (v0.leaves + w.leaves)[i] == w.leaves[i - |c0.nodes|];
          } else {
            assert (v0.leaves + w.leaves)[i] == v0.leaves[i];
          }
        }
      } else {
        CollectAllMembersHit(m, init, chain, contextOf);
      }
    }
  }

  /**
   * getOrCreate is idempotent: visiting the same set with the same chain a
   * second time (whatever contexts the resolver hands out then) returns the
   * same nodes and leaves the cache as the first visit left it.
   */
  lemma CollectIdempotent(m: Cache, s: ArtifactSet, chain: seq<Step>,
                          contextOf: ArtifactId -> Context, laterContextOf: ArtifactId -> Context)
    requires |chain| >= 1
    ensures var c := CollectNodes(m, s, chain, contextOf);
      CollectNodes(c.cache, s, chain, laterContextOf) == c
  {
    var c := CollectNodes(m, s, chain, contextOf);
    CollectMatchesFlatten(m, s, chain, contextOf);
    var v := Flatten(s);
    forall a | a in v.leaves ensures Key(a, chain) in c.cache {
      var i :| 0 <= i < |v.leaves| && v.leaves[i] == a;
    }
    CollectAllHits(c.cache, s, chain, laterContextOf);
    var c2 := CollectNodes(c.cache, s, chain, laterContextOf);
    assert c2.nodes == c.nodes;
  }

  /** A visit that stopped early stays stopped, however many members follow. */
  lemma {:induction false} CollectAllStopped(m: Cache, ms: seq<ArtifactSet>, i: nat, chain: seq<Step>, contextOf: ArtifactId -> Context)
    requires |chain| >= 1 && i <= |ms|
    requires !CollectAll(m, ms[..i], chain, contextOf).complete
    ensures CollectAll(m, ms, chain, contextOf) == CollectAll(m, ms[..i], chain, contextOf)
    decreases |ms| - i
  {
    if i < |ms| {
      assert ms[..i + 1][..i] == ms[..i];
      CollectAllStopped(m, ms, i + 1, chain, contextOf);
    } else {
      assert ms[..i] == ms;
    }
  }

  // ---------------------------------------------------------------------------
  // The factory
  // ---------------------------------------------------------------------------

  /** DefaultTransformationNodeFactory: the node cache shared by every request of one build. */
  class TransformationNodeFactory {
    var transformations: Cache

    ghost predicate Valid()
      reads this
    {
      WellFormedCache(transformations)
    }

    constructor ()
      ensures Valid() && transformations == map[]
    {
      transformations := map[];
    }

    /**
     * getOrCreate: one node per single-artifact set reachable in
     * `artifactSet`, in visiting order, for the steps the transformation
     * visits (`transformationSteps`); `contextOf` stands for the context the
     * resolver factory hands out for each artifact. An illegal set fails the
     * whole request, after the leaves visited before it have been cached.
     */
    method GetOrCreate(artifactSet: ArtifactSet, transformationSteps: seq<Step>, contextOf: ArtifactId -> Context)
      returns (r: Result<seq<Node>>)
      requires Valid() && |transformationSteps| >= 1
      modifies this
      ensures Valid()
      ensures var c := CollectNodes(old(transformations), artifactSet, transformationSteps, contextOf);
        && transformations == c.cache
        && r == if c.complete then Success(c.nodes) else Failure(IllegalState)
      ensures r.Success? <==> LegalSet(artifactSet)
      ensures r.Success? ==> |r.value| == |Leaves(artifactSet)|
      ensures r.Success? ==> forall i | 0 <= i < |r.value| ::
        && Key(Leaves(artifactSet)[i], transformationSteps) in transformations
        && r.value[i] == transformations[Key(Leaves(artifactSet)[i], transformationSteps)]
        && StepsOf(r.value[i]) == transformationSteps
        && SourceArtifact(r.value[i]) == Leaves(artifactSet)[i]
      ensures Grows(old(transformations), transformations)
      ensures forall k :: k in transformations && k !in old(transformations) ==>
        k.artifact in Leaves(artifactSet) && 1 <= |k.steps| && k.steps <= transformationSteps
    {
      var nodes, complete := CollectTransformNodes(artifactSet, transformationSteps, contextOf);
      r := if complete then Success(nodes) else Failure(IllegalState);
      CollectMatchesFlatten(old(transformations), artifactSet, transformationSteps, contextOf);
      FlattenAgreesWithLeaves(artifactSet);
      var leaves := Flatten(artifactSet).leaves;
      forall k | k in transformations && k !in old(transformations)
        ensures k.artifact in Leaves(artifactSet)
      {
        var i :| 0 <= i < |leaves| && leaves[i] == k.artifact;
        assert Leaves(artifactSet)[i] == k.artifact;
      }
      forall i | 0 <= i < |nodes|
        ensures StepsOf(nodes[i]) == transformationSteps && SourceArtifact(nodes[i]) == leaves[i]
      {
        StoredNodeMatchesKey(transformations, Key(leaves[i], transformationSteps));
      }
    }

    /** collectTransformNodes: the depth-first visit, stopping (complete = false) at an illegal set. */
    method CollectTransformNodes(artifactSet: ArtifactSet, chain: seq<Step>, contextOf: ArtifactId -> Context)
      returns (nodes: seq<Node>, complete: bool)
      requires Valid() && |chain| >= 1
      modifies this
      ensures Valid()
      ensures Collected(transformations, nodes, complete) == CollectNodes(old(transformations), artifactSet, chain, contextOf)
      decreases artifactSet
    {
      match artifactSet
      case Single(a) =>
        var n := GetOrCreateInternal(a, chain, contextOf(a));
        nodes, complete := [n], true;
      case Other =>
        nodes, complete := [], false;
      case Composite(members) =>
        nodes, complete := [], true;
        var i := 0;
        while i < |members| && complete
          invariant 0 <= i <= |members|
          invariant Valid()
          invariant Collected(transformations, nodes, complete) == CollectAll(old(transformations), members[..i], chain, contextOf)
        {
          assert members[..i + 1][..i] == members[..i];
          var more, ok := CollectTransformNodes(members[i], chain, contextOf);
          nodes, complete := nodes + more, ok;
          i := i + 1;
        }
        if complete {
          assert members[..i] == members;
        } else {
          CollectAllStopped(old(transformations), members, i, chain, contextOf);
        }
    }

    /**
     * getOrCreateInternal: the node cached for (a, chain), built and cached
     * (with every missing shorter prefix) when absent. Entries already
     * present are never replaced.
     */
    method GetOrCreateInternal(a: ArtifactId, chain: seq<Step>, context: Context) returns (n: Node)
      requires Valid() && |chain| >= 1
      modifies this
      ensures Valid()
      ensures (transformations, n) == Materialize(old(transformations), a, chain, context)
      ensures Key(a, chain) in transformations && transformations[Key(a, chain)] == n
      ensures Key(a, chain) in old(transformations) ==>
        n == old(transformations)[Key(a, chain)] && transformations == old(transformations)
      ensures StepsOf(n) == chain && SourceArtifact(n) == a && Depth(n) == |chain|
      ensures forall i :: 1 <= i <= |chain| ==> Key(a, chain[..i]) in transformations
      ensures Grows(old(transformations), transformations)
      ensures forall k :: k in transformations && k !in old(transformations) ==>
        k.artifact == a && 1 <= |k.steps| && k.steps <= chain
      decreases |chain|
    {
      ghost var before := transformations;
      MaterializeStores(before, a, chain, context);
      MaterializeShape(before, a, chain, context);
      MaterializeWellFormed(before, a, chain, context);
      MaterializeResult(before, a, chain, context);
      var key := Key(a, chain);
      if key in transformations {
        n := transformations[key];
      } else {
        if |chain| == 1 {
          n := Initial(chain[0], a, context);
        } else {
          var previous := GetOrCreateInternal(a, chain[..|chain| - 1], context);
          n := Chained(chain[|chain| - 1], previous);
        }
        transformations := transformations[key := n];
      }
    }
  }

  /**
   * Asking the factory twice for the same set and transformation returns
   * the same nodes, and the second request changes no cache entry.
   */
  method RequestTwice(factory: TransformationNodeFactory, artifactSet: ArtifactSet, steps: seq<Step>,
                      contextOf: ArtifactId -> Context, laterContextOf: ArtifactId -> Context)
    returns (first: Result<seq<Node>>, second: Result<seq<Node>>)
    requires factory.Valid() && |steps| >= 1
    modifies factory
    ensures factory.Valid()
    ensures first == second
    ensures factory.transformations == CollectNodes(old(factory.transformations), artifactSet, steps, contextOf).cache
  {
    first := factory.GetOrCreate(artifactSet, steps, contextOf);
    ghost var cached := factory.transformations;
    CollectIdempotent(old(factory.transformations), artifactSet, steps, contextOf, laterContextOf);
    second := factory.GetOrCreate(artifactSet, steps, laterContextOf);
    assert factory.transformations == cached;
  }
}
