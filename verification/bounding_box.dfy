/**
 * `getBoundingBox` of src/components/MindMap3D/layoutUtils.ts: the smallest
 * and largest coordinate on each axis over a list of positioned nodes.
 */
module BoundingBox {
  import opened Geometry

  datatype Box = Box(minX: real, maxX: real, minY: real, maxY: real, minZ: real, maxZ: real)

  /** `Math.min` over a non-empty list: a lower bound that is one of the values. */
  function Min(xs: seq<real>): (r: real)
    requires |xs| > 0
    ensures forall k :: 0 <= k < |xs| ==> r <= xs[k]
    ensures exists k :: 0 <= k < |xs| && xs[k] == r
  {
    if |xs| == 1 then xs[0]
    else
      var rest := Min(xs[1..]);
      assert forall k :: 1 <= k < |xs| ==> xs[k] == xs[1..][k - 1];
      if xs[0] <= rest then xs[0] else rest
  }

  /** `Math.max` over a non-empty list: an upper bound that is one of the values. */
  function Max(xs: seq<real>): (r: real)
    requires |xs| > 0
    ensures forall k :: 0 <= k < |xs| ==> xs[k] <= r
    ensures exists k :: 0 <= k < |xs| && xs[k] == r
  {
    if |xs| == 1 then xs[0]
    else
      var rest := Max(xs[1..]);
      assert forall k :: 1 <= k < |xs| ==> xs[k] == xs[1..][k - 1];
      if xs[0] >= rest then xs[0] else rest
  }

  function Xs(ps: seq<Positioned>): seq<real>
  {
    seq(|ps|, k requires 0 <= k < |ps| => ps[k].position.x)
  }

  function Ys(ps: seq<Positioned>): seq<real>
  {
    seq(|ps|, k requires 0 <= k < |ps| => ps[k].position.y)
  }

  function Zs(ps: seq<Positioned>): seq<real>
  {
    seq(|ps|, k requires 0 <= k < |ps| => ps[k].position.z)
  }

  /** The bounding box of a non-empty list: on each axis every coordinate
      lies between the two bounds, and each bound is some entry's coordinate. */
  function GetBoundingBox(ps: seq<Positioned>): (b: Box)
    requires |ps| > 0
    ensures forall k :: 0 <= k < |ps| ==>
              b.minX <= ps[k].position.x <= b.maxX &&
              b.minY <= ps[k].position.y <= b.maxY &&
              b.minZ <= ps[k].position.z <= b.maxZ
    ensures exists k :: 0 <= k < |ps| && ps[k].position.x == b.minX
    ensures exists k :: 0 <= k < |ps| && ps[k].position.x == b.maxX
    ensures exists k :: 0 <= k < |ps| && ps[k].position.y == b.minY
    ensures exists k :: 0 <= k < |ps| && ps[k].position.y == b.maxY
    ensures exists k :: 0 <= k < |ps| && ps[k].position.z == b.minZ
    ensures exists k :: 0 <= k < |ps| && ps[k].position.z == b.maxZ
  {
    var xs, ys, zs := Xs(ps), Ys(ps), Zs(ps);
    assert forall k :: 0 <= k < |ps| ==> xs[k] == ps[k].position.x && ys[k] == ps[k].position.y && zs[k] == ps[k].position.z;
    Box(Min(xs), Max(xs), Min(ys), Max(ys), Min(zs), Max(zs))
  }
}
