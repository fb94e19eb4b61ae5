/**
 * The force strategy of src/components/MindMap3D/layoutUtils.ts
 * (`calculateForceLayout`). The visible nodes are collected in pre-order,
 * seeded on circles, and then pushed apart by a fixed number of passes of
 * pairwise repulsion. As in the source, positions and forces are kept in
 * maps keyed by node id and updated in place.
 *
 * The specification functions below fold over the same indices, in the
 * same order, as the loops of the method; the properties the design relies
 * on (the seeding, the forces of a pass cancelling out, the sum of all
 * positions staying put) are proved about them.
 */
module ForceLayout {
  import opened MindMap
  import opened Geometry

  const DefaultIterations: int := 50

  /** Every node of `nodes` has an entry in `M`. */
  predicate Covers(M: map<string, Vec3>, nodes: seq<Node>)
  {
    forall k :: 0 <= k < |nodes| ==> nodes[k].id in M
  }

  // ---------------------------------------------------------------------
  // Collecting the nodes (the inner `collectNodes`)
  // ---------------------------------------------------------------------

  /** Appends the visible nodes of the subtree at `n` to `allNodes`, in pre-order. */
  method CollectNodes(n: Node, expanded: set<string>, allNodes: seq<Node>) returns (r: seq<Node>)
    ensures r == allNodes + Visible(n, expanded)
    decreases n
  {
    r := allNodes + [n];
    if n.id in expanded {
      for i := 0 to |n.children|
        invariant r + VisibleFrom(n, expanded, i) == allNodes + Visible(n, expanded)
      {
        r := CollectNodes(n.children[i], expanded, r);
      }
    }
  }

  // ---------------------------------------------------------------------
  // Seeding
  // ---------------------------------------------------------------------

  /** The starting point of node `i` of `count` collected nodes: on a circle
      of radius 5 + 2 * depth at the angle 2 pi i / count, 3 * depth below
      the origin. */
  function SeedPosition(m: MathLib, i: nat, count: nat, depth: int): Vec3
    requires count > 0
  {
    var angle := (i as real / count as real) * m.pi * 2.0;
    var radius := 5.0 + depth as real * 2.0;
    Vec3(m.cos(angle) * radius, (-(depth as real)) * 3.0, m.sin(angle) * radius)
  }

  /** The positions map after seeding nodes `i..` into `acc`. */
  function Seeds(m: MathLib, nodes: seq<Node>, i: nat, acc: map<string, Vec3>): (r: map<string, Vec3>)
    requires i <= |nodes|
    ensures acc.Keys <= r.Keys
    ensures forall k :: i <= k < |nodes| ==> nodes[k].id in r
    decreases |nodes| - i
  {
    if i == |nodes| then acc
    else Seeds(m, nodes, i + 1, acc[nodes[i].id := SeedPosition(m, i, |nodes|, nodes[i].depth)])
  }

  // ---------------------------------------------------------------------
  // One pass of repulsion
  // ---------------------------------------------------------------------

  /** The distance the repulsion divides by: the Euclidean distance plus 0.1,
      so never below 0.1 and never zero. */
  function Distance(m: MathLib, p1: Vec3, p2: Vec3): (d: real)
    ensures d >= 0.1
  {
    var dx := p2.x - p1.x;
    var dy := p2.y - p1.y;
    var dz := p2.z - p1.z;
    m.sqrt(dx * dx + dy * dy + dz * dz) + 0.1
  }

  /** The push along the line from `p1` to `p2`, of strength
      0.5 / Distance^2; `p2` gains it and `p1` loses it. */
  function PairForce(m: MathLib, p1: Vec3, p2: Vec3): Vec3
  {
    var dist := Distance(m, p1, p2);
    var force := 0.5 / (dist * dist);
    Vec3(((p2.x - p1.x) / dist) * force, ((p2.y - p1.y) / dist) * force, ((p2.z - p1.z) / dist) * force)
  }

  /** The forces map after the pair (i, j) has pushed its two nodes apart. */
  function AddPair(m: MathLib, nodes: seq<Node>, P: map<string, Vec3>, F: map<string, Vec3>, i: nat, j: nat): (r: map<string, Vec3>)
    requires i < |nodes| && j < |nodes| && Covers(P, nodes) && Covers(F, nodes)
    ensures r.Keys == F.Keys
  {
    var a := nodes[i].id;
    var b := nodes[j].id;
    var f := PairForce(m, P[a], P[b]);
    var F1 := F[a := Sub(F[a], f)];
    F1[b := Add(F1[b], f)]
  }

  /** The forces map after the pairs from (i, j) on, in the order of the
      two nested loops (i ascending, then j ascending from i + 1). */
  function Accumulate(m: MathLib, nodes: seq<Node>, P: map<string, Vec3>, F: map<string, Vec3>, i: nat, j: nat): (r: map<string, Vec3>)
    requires Covers(P, nodes) && Covers(F, nodes)
    ensures r.Keys == F.Keys
    decreases |nodes| - i, |nodes| - j
  {
    if i >= |nodes| then F
    else if j >= |nodes| then Accumulate(m, nodes, P, F, i + 1, i + 2)
    else Accumulate(m, nodes, P, AddPair(m, nodes, P, F, i, j), i, j + 1)
  }

  /** The forces map with every node from `i` on reset to zero. */
  function ZeroForces(nodes: seq<Node>, i: nat, acc: map<string, Vec3>): (r: map<string, Vec3>)
    requires i <= |nodes|
    ensures acc.Keys <= r.Keys
    ensures forall k :: i <= k < |nodes| ==> nodes[k].id in r
    ensures (forall id :: id in acc ==> acc[id] == Origin) ==> forall id :: id in r ==> r[id] == Origin
    decreases |nodes| - i
  {
    if i == |nodes| then acc else ZeroForces(nodes, i + 1, acc[nodes[i].id := Origin])
  }

  /** The positions after each node from `k` on has moved by its force. */
  function Apply(P: map<string, Vec3>, F: map<string, Vec3>, nodes: seq<Node>, k: nat): (r: map<string, Vec3>)
    requires k <= |nodes| && Covers(P, nodes) && Covers(F, nodes)
    ensures r.Keys == P.Keys
    decreases |nodes| - k
  {
    if k == |nodes| then P
    else
      var id := nodes[k].id;
      Apply(P[id := Add(P[id], F[id])], F, nodes, k + 1)
  }

  /** The forces of one pass: zero for everyone, then every pair. */
  function PassForces(m: MathLib, nodes: seq<Node>, P: map<string, Vec3>): (r: map<string, Vec3>)
    requires Covers(P, nodes)
    ensures Covers(r, nodes)
  {
    Accumulate(m, nodes, P, ZeroForces(nodes, 0, map[]), 0, 1)
  }

  /** The positions after one pass. */
  function Step(m: MathLib, nodes: seq<Node>, P: map<string, Vec3>): (r: map<string, Vec3>)
    requires Covers(P, nodes)
    ensures r.Keys == P.Keys
  {
    Apply(P, PassForces(m, nodes, P), nodes, 0)
  }

  /** The positions after `iterations` passes (none when it is not positive). */
  function Simulate(m: MathLib, nodes: seq<Node>, P: map<string, Vec3>, iterations: int): (r: map<string, Vec3>)
    requires Covers(P, nodes)
    ensures r.Keys == P.Keys
    decreases iterations
  {
    if iterations <= 0 then P else Simulate(m, nodes, Step(m, nodes, P), iterations - 1)
  }

  /** Each node paired with its entry in `P`, in the order of `nodes`. */
  function Placed(nodes: seq<Node>, P: map<string, Vec3>): seq<Positioned>
    requires Covers(P, nodes)
  {
    seq(|nodes|, k requires 0 <= k < |nodes| => Positioned(nodes[k], P[nodes[k].id]))
  }

  /** What the force layout returns. */
  function ForcePositions(m: MathLib, root: Node, expanded: set<string>, iterations: int): seq<Positioned>
  {
    var nodes := Visible(root, expanded);
    Placed(nodes, Simulate(m, nodes, Seeds(m, nodes, 0, map[]), iterations))
  }

  // ---------------------------------------------------------------------
  // The layout
  // ---------------------------------------------------------------------

  /** A forces map with a zero entry for every node. */
  method ResetForces(nodes: seq<Node>) returns (forces: map<string, Vec3>)
    ensures forces == ZeroForces(nodes, 0, map[])
  {
    forces := map[];
    for k := 0 to |nodes|
      invariant ZeroForces(nodes, k, forces) == ZeroForces(nodes, 0, map[])
    {
      forces := forces[nodes[k].id := Origin];
    }
  }

  /** The pairs (i, j) for j from `from` on: each pushes its two nodes apart. */
  method RepulseRow(m: MathLib, nodes: seq<Node>, positions: map<string, Vec3>, forces: map<string, Vec3>, i: nat, from: nat)
    returns (out: map<string, Vec3>)
    requires i < from <= |nodes| && Covers(positions, nodes) && Covers(forces, nodes)
    ensures Covers(out, nodes)
    ensures Accumulate(m, nodes, positions, out, i, |nodes|) == Accumulate(m, nodes, positions, forces, i, from)
  {
    out := forces;
    for j := from to |nodes|
      invariant Covers(out, nodes)
      invariant Accumulate(m, nodes, positions, out, i, j) == Accumulate(m, nodes, positions, forces, i, from)
    {
      var a := nodes[i].id;
      var b := nodes[j].id;
      var f := PairForce(m, positions[a], positions[b]);
      out := out[a := Sub(out[a], f)];
      out := out[b := Add(out[b], f)];
    }
  }

  /** Every pair (i, j) with i < j, in loop order. */
  method Repulse(m: MathLib, nodes: seq<Node>, positions: map<string, Vec3>, forces: map<string, Vec3>)
    returns (out: map<string, Vec3>)
    requires Covers(positions, nodes) && Covers(forces, nodes)
    ensures out == Accumulate(m, nodes, positions, forces, 0, 1)
  {
    out := forces;
    for i := 0 to |nodes|
      invariant Covers(out, nodes)
      invariant Accumulate(m, nodes, positions, out, i, i + 1) == Accumulate(m, nodes, positions, forces, 0, 1)
    {
      out := RepulseRow(m, nodes, positions, out, i, i + 1);
    }
  }

  /** Moves every node by its accumulated force. */
  method ApplyForces(positions: map<string, Vec3>, forces: map<string, Vec3>, nodes: seq<Node>) returns (next: map<string, Vec3>)
    requires Covers(positions, nodes) && Covers(forces, nodes)
    ensures next == Apply(positions, forces, nodes, 0)
  {
    next := positions;
    for k := 0 to |nodes|
      invariant Covers(next, nodes)
      invariant Apply(next, forces, nodes, k) == Apply(positions, forces, nodes, 0)
    {
      var id := nodes[k].id;
      next := next[id := Add(next[id], forces[id])];
    }
  }

  /** One pass of the simulation over the positions map. */
  method SimulationStep(m: MathLib, nodes: seq<Node>, positions: map<string, Vec3>) returns (next: map<string, Vec3>)
    requires Covers(positions, nodes)
    ensures next == Step(m, nodes, positions)
  {
    var forces := ResetForces(nodes);
    forces := Repulse(m, nodes, positions, forces);
    next := ApplyForces(positions, forces, nodes);
  }

  /** The force layout of the tree at `root`. */
  method CalculateForceLayout(m: MathLib, root: Node, expanded: set<string>, iterations: int) returns (r: seq<Positioned>)
    ensures r == ForcePositions(m, root, expanded, iterations)
  {
    var allNodes := CollectNodes(root, expanded, []);
    assert allNodes == Visible(root, expanded);
    var n := |allNodes|;
    var positions: map<string, Vec3> := map[];
    for i := 0 to n
      invariant Seeds(m, allNodes, i, positions) == Seeds(m, allNodes, 0, map[])
    {
      positions := positions[allNodes[i].id := SeedPosition(m, i, n, allNodes[i].depth)];
    }
    ghost var seeded := positions;
    assert seeded == Seeds(m, allNodes, 0, map[]);
    var iter := 0;
    while iter < iterations
      invariant Covers(positions, allNodes)
      invariant Simulate(m, allNodes, positions, iterations - iter) == Simulate(m, allNodes, seeded, iterations)
      decreases iterations - iter
    {
      positions := SimulationStep(m, allNodes, positions);
      iter := iter + 1;
    }
    r := seq(n, k requires 0 <= k < n => Positioned(allNodes[k], positions[allNodes[k].id]));
    assert positions == Simulate(m, allNodes, seeded, iterations);
    assert r == Placed(allNodes, positions);
  }

  // ---------------------------------------------------------------------
  // Properties
  // ---------------------------------------------------------------------

  /** The sum of the entries of `M` for the nodes of `nodes`, one per node. */
  function SumAt(M: map<string, Vec3>, nodes: seq<Node>): Vec3
    requires Covers(M, nodes)
  {
    if |nodes| == 0 then Origin else Add(M[nodes[0].id], SumAt(M, nodes[1..]))
  }

  /** The sum of the positions of a layout's output (n times its centroid). */
  function Total(ps: seq<Positioned>): Vec3
  {
    if |ps| == 0 then Origin else Add(ps[0].position, Total(ps[1..]))
  }

  /** The force layout shows exactly the visible nodes, in pre-order. */
  lemma ForceLayoutNodes(m: MathLib, root: Node, expanded: set<string>, iterations: int)
    ensures Nodes(ForcePositions(m, root, expanded, iterations)) == Visible(root, expanded)
  {
  }

  lemma {:induction false} SeedsAt(m: MathLib, nodes: seq<Node>, i: nat, acc: map<string, Vec3>, k: nat)
    requires i <= |nodes| && k < |nodes| && DistinctIds(nodes)
    requires k < i ==> nodes[k].id in acc
    ensures Seeds(m, nodes, i, acc)[nodes[k].id] ==
            if k >= i then SeedPosition(m, k, |nodes|, nodes[k].depth) else acc[nodes[k].id]
    decreases |nodes| - i
  {
    if i < |nodes| {
      SeedsAt(m, nodes, i + 1, acc[nodes[i].id := SeedPosition(m, i, |nodes|, nodes[i].depth)], k);
    }
  }

  /** Without iterations every node keeps its seed: node k of n sits at
      `SeedPosition(k, n, depth)`. */
  lemma ForceWithoutIterations(m: MathLib, root: Node, expanded: set<string>, iterations: int, k: nat)
    requires iterations <= 0
    requires DistinctIds(Visible(root, expanded)) && k < |Visible(root, expanded)|
    ensures var nodes := Visible(root, expanded);
            ForcePositions(m, root, expanded, iterations)[k] ==
            Positioned(nodes[k], SeedPosition(m, k, |nodes|, nodes[k].depth))
  {
    var nodes := Visible(root, expanded);
    SeedsAt(m, nodes, 0, map[], k);
  }

  /** The pair (i, j) adds equal and opposite vectors to the forces of its
      two nodes and leaves every other entry alone. */
  lemma PairEqualAndOpposite(m: MathLib, nodes: seq<Node>, P: map<string, Vec3>, F: map<string, Vec3>, i: nat, j: nat)
    requires i < |nodes| && j < |nodes| && Covers(P, nodes) && Covers(F, nodes)
    requires nodes[i].id != nodes[j].id
    ensures var r := AddPair(m, nodes, P, F, i, j);
            var a := nodes[i].id;
            var b := nodes[j].id;
            Add(Sub(r[a], F[a]), Sub(r[b], F[b])) == Origin &&
            Sub(r[b], F[b]) == PairForce(m, P[a], P[b]) &&
            forall id :: id in F && id != a && id != b ==> r[id] == F[id]
  {
  }

  lemma {:induction false} SumAtOther(M: map<string, Vec3>, nodes: seq<Node>, key: string, v: Vec3)
    requires Covers(M, nodes)
    requires forall k :: 0 <= k < |nodes| ==> nodes[k].id != key
    ensures SumAt(M[key := v], nodes) == SumAt(M, nodes)
    decreases |nodes|
  {
    if |nodes| > 0 {
      SumAtOther(M, nodes[1..], key, v);
    }
  }

  /** Changing the entry of one node changes the sum by the difference. */
  lemma {:induction false} SumAtUpdate(M: map<string, Vec3>, nodes: seq<Node>, a: nat, v: Vec3)
    requires Covers(M, nodes) && DistinctIds(nodes) && a < |nodes|
    ensures SumAt(M[nodes[a].id := v], nodes) == Add(Sub(SumAt(M, nodes), M[nodes[a].id]), v)
    decreases |nodes|
  {
    var key := nodes[a].id;
    if a == 0 {
      SumAtOther(M, nodes[1..], key, v);
    } else {
      SumAtUpdate(M, nodes[1..], a - 1, v);
    }
  }

  /** One pair leaves the sum of the forces unchanged. */
  lemma AddPairKeepsSum(m: MathLib, nodes: seq<Node>, P: map<string, Vec3>, F: map<string, Vec3>, i: nat, j: nat)
    requires i < |nodes| && j < |nodes| && Covers(P, nodes) && Covers(F, nodes) && DistinctIds(nodes)
    ensures SumAt(AddPair(m, nodes, P, F, i, j), nodes) == SumAt(F, nodes)
  {
    var a := nodes[i].id;
    var b := nodes[j].id;
    var f := PairForce(m, P[a], P[b]);
    var F1 := F[a := Sub(F[a], f)];
    SumAtUpdate(F, nodes, i, Sub(F[a], f));
    SumAtUpdate(F1, nodes, j, Add(F1[b], f));
  }

  lemma {:induction false} AccumulateKeepsSum(m: MathLib, nodes: seq<Node>, P: map<string, Vec3>, F: map<string, Vec3>, i: nat, j: nat)
    requires Covers(P, nodes) && Covers(F, nodes) && DistinctIds(nodes)
    ensures SumAt(Accumulate(m, nodes, P, F, i, j), nodes) == SumAt(F, nodes)
    decreases |nodes| - i, |nodes| - j
  {
    if i >= |nodes| {
    } else if j >= |nodes| {
      AccumulateKeepsSum(m, nodes, P, F, i + 1, i + 2);
    } else {
      AddPairKeepsSum(m, nodes, P, F, i, j);
      AccumulateKeepsSum(m, nodes, P, AddPair(m, nodes, P, F, i, j), i, j + 1);
    }
  }

  lemma {:induction false} ZeroSum(M: map<string, Vec3>, nodes: seq<Node>)
    requires Covers(M, nodes)
    requires forall id :: id in M ==> M[id] == Origin
    ensures SumAt(M, nodes) == Origin
    decreases |nodes|
  {
    if |nodes| > 0 {
      ZeroSum(M, nodes[1..]);
    }
  }

  /** The forces of one pass add up to zero. */
  lemma PassForcesCancel(m: MathLib, nodes: seq<Node>, P: map<string, Vec3>)
    requires Covers(P, nodes) && DistinctIds(nodes)
    ensures SumAt(PassForces(m, nodes, P), nodes) == Origin
  {
    var Z := ZeroForces(nodes, 0, map[]);
    ZeroSum(Z, nodes);
    AccumulateKeepsSum(m, nodes, P, Z, 0, 1);
  }

  lemma {:induction false} ApplyAddsForces(Q: map<string, Vec3>, F: map<string, Vec3>, nodes: seq<Node>, k: nat)
    requires k <= |nodes| && Covers(Q, nodes) && Covers(F, nodes) && DistinctIds(nodes)
    ensures Covers(F, nodes[k..])
    ensures SumAt(Apply(Q, F, nodes, k), nodes) == Add(SumAt(Q, nodes), SumAt(F, nodes[k..]))
    decreases |nodes| - k
  {
    if k == |nodes| {
      assert nodes[k..] == [];
    } else {
      var id := nodes[k].id;
      var Q' := Q[id := Add(Q[id], F[id])];
      SumAtUpdate(Q, nodes, k, Add(Q[id], F[id]));
      ApplyAddsForces(Q', F, nodes, k + 1);
      assert nodes[k..][1..] == nodes[k + 1..];
    }
  }

  /** One pass leaves the sum of all positions, and so their centroid, where it was. */
  lemma StepKeepsSum(m: MathLib, nodes: seq<Node>, P: map<string, Vec3>)
    requires Covers(P, nodes) && DistinctIds(nodes)
    ensures SumAt(Step(m, nodes, P), nodes) == SumAt(P, nodes)
  {
    PassForcesCancel(m, nodes, P);
    ApplyAddsForces(P, PassForces(m, nodes, P), nodes, 0);
    assert nodes[0..] == nodes;
  }

  lemma {:induction false} SimulateKeepsSum(m: MathLib, nodes: seq<Node>, P: map<string, Vec3>, iterations: int)
    requires Covers(P, nodes) && DistinctIds(nodes)
    ensures SumAt(Simulate(m, nodes, P, iterations), nodes) == SumAt(P, nodes)
    decreases iterations
  {
    if iterations > 0 {
      StepKeepsSum(m, nodes, P);
      SimulateKeepsSum(m, nodes, Step(m, nodes, P), iterations - 1);
    }
  }

  lemma {:induction false} TotalPlaced(nodes: seq<Node>, P: map<string, Vec3>)
    requires Covers(P, nodes)
    ensures Total(Placed(nodes, P)) == SumAt(P, nodes)
    decreases |nodes|
  {
    if |nodes| > 0 {
      TotalPlaced(nodes[1..], P);
      assert Placed(nodes, P)[1..] == Placed(nodes[1..], P);
    }
  }

  /** However many passes run, the positions of the force layout add up to
      the same vector as the seeds: the centroid does not move. */
  lemma ForceKeepsCentroid(m: MathLib, root: Node, expanded: set<string>, iterations: int)
    requires DistinctIds(Visible(root, expanded))
    ensures Total(ForcePositions(m, root, expanded, iterations)) == Total(ForcePositions(m, root, expanded, 0))
  {
    var nodes := Visible(root, expanded);
    var S := Seeds(m, nodes, 0, map[]);
    SimulateKeepsSum(m, nodes, S, iterations);
    TotalPlaced(nodes, Simulate(m, nodes, S, iterations));
    TotalPlaced(nodes, S);
  }
}
