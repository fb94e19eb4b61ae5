/**
 * Coordinates and the shared output record of the layouts
 * (`NodePosition` in src/components/MindMap3D/layoutUtils.ts).
 * Coordinates are exact reals; the trigonometric functions, the square
 * root and pi of the host's Math library are parameters, because nothing
 * here may assume more of them than that a square root is never negative.
 */
module Geometry {
  import opened MindMap

  /** A point or a displacement in 3D: the source's `[x, y, z]` triples. */
  datatype Vec3 = Vec3(x: real, y: real, z: real)

  const Origin := Vec3(0.0, 0.0, 0.0)

  function Add(a: Vec3, b: Vec3): Vec3
  {
    Vec3(a.x + b.x, a.y + b.y, a.z + b.z)
  }

  function Sub(a: Vec3, b: Vec3): Vec3
  {
    Vec3(a.x - b.x, a.y - b.y, a.z - b.z)
  }

  /** A real function that never returns a negative value. */
  type NonNegativeFn = f: real -> real | forall x :: 0.0 <= f(x)
    witness (x: real) => 0.0

  /** What the layouts use of the host's Math library. */
  datatype MathLib = MathLib(pi: real, cos: real -> real, sin: real -> real, sqrt: NonNegativeFn)

  /** A node together with the position a layout gave it. */
  datatype Positioned = Positioned(node: Node, position: Vec3)

  /** The nodes of a layout's output, in output order. */
  function Nodes(ps: seq<Positioned>): seq<Node>
  {
    seq(|ps|, k requires 0 <= k < |ps| => ps[k].node)
  }

  lemma NodesConcat(a: seq<Positioned>, b: seq<Positioned>)
    ensures Nodes(a + b) == Nodes(a) + Nodes(b)
  {
    assert forall k :: 0 <= k < |a| + |b| ==> Nodes(a + b)[k] == (Nodes(a) + Nodes(b))[k];
  }
}
