/**
 * The radial strategy of src/components/MindMap3D/layoutUtils.ts
 * (`calculateRadialLayout`): each expanded node spreads its children over a
 * full turn around itself, at a radius that shrinks by 0.85 per level, with
 * alternate siblings dropped one unit lower.
 */
module RadialLayout {
  import opened MindMap
  import opened Geometry

  const DefaultRadius: real := 6.0
  const RadiusShrink: real := 0.85

  /** The angle of child `i` of `count` when the parent's angle is `angle`. */
  function RadialChildAngle(m: MathLib, angle: real, count: nat, i: nat): real
    requires count > 0
  {
    var angleStep := (m.pi * 2.0) / count as real;
    angle + angleStep * i as real
  }

  /** Where child `i` of `count` goes around a parent at `position`. */
  function RadialChildPosition(m: MathLib, position: Vec3, angle: real, radius: real, count: nat, i: nat): Vec3
    requires count > 0
  {
    var childAngle := RadialChildAngle(m, angle, count, i);
    Vec3(position.x + m.cos(childAngle) * radius,
         position.y - 3.0 - (i % 2) as real,
         position.z + m.sin(childAngle) * radius)
  }

  /** The radial layout of the subtree at `node`, placed at `position`. */
  function CalculateRadialLayout(m: MathLib, node: Node, expanded: set<string>, position: Vec3, angle: real, radius: real): (r: seq<Positioned>)
    ensures |r| >= 1 && r[0] == Positioned(node, position)
    decreases node, 1
  {
    [Positioned(node, position)] +
    if node.id in expanded then RadialChildren(m, node, expanded, position, angle, radius, 0) else []
  }

  /** The layouts of the children of `node` from index `i` on. */
  function RadialChildren(m: MathLib, node: Node, expanded: set<string>, position: Vec3, angle: real, radius: real, i: nat): seq<Positioned>
    requires i <= |node.children|
    decreases node, 0, |node.children| - i, 1
  {
    if i == |node.children| then []
    else RadialChild(m, node, expanded, position, angle, radius, i) + RadialChildren(m, node, expanded, position, angle, radius, i + 1)
  }

  /** The layout of child `i` of `node`: placed by `RadialChildPosition`,
      turned to its own angle, with the radius shrunk for the next level. */
  function RadialChild(m: MathLib, node: Node, expanded: set<string>, position: Vec3, angle: real, radius: real, i: nat): seq<Positioned>
    requires i < |node.children|
    decreases node, 0, |node.children| - i, 0
  {
    var count := |node.children|;
    CalculateRadialLayout(m, node.children[i], expanded,
                          RadialChildPosition(m, position, angle, radius, count, i),
                          RadialChildAngle(m, angle, count, i), radius * RadiusShrink)
  }

  /** The radial layout shows exactly the visible nodes, in pre-order. */
  lemma {:induction false} RadialLayoutNodes(m: MathLib, node: Node, expanded: set<string>, position: Vec3, angle: real, radius: real)
    ensures Nodes(CalculateRadialLayout(m, node, expanded, position, angle, radius)) == Visible(node, expanded)
    decreases node, 1
  {
    var head := [Positioned(node, position)];
    assert Nodes(head) == [node];
    if node.id in expanded {
      RadialChildrenNodes(m, node, expanded, position, angle, radius, 0);
      NodesConcat(head, RadialChildren(m, node, expanded, position, angle, radius, 0));
    } else {
      assert CalculateRadialLayout(m, node, expanded, position, angle, radius) == head;
    }
  }

  lemma {:induction false} RadialChildrenNodes(m: MathLib, node: Node, expanded: set<string>, position: Vec3, angle: real, radius: real, i: nat)
    requires i <= |node.children|
    ensures Nodes(RadialChildren(m, node, expanded, position, angle, radius, i)) == VisibleFrom(node, expanded, i)
    decreases node, 0, |node.children| - i, 1
  {
    if i < |node.children| {
      var count := |node.children|;
      var p := RadialChildPosition(m, position, angle, radius, count, i);
      var a := RadialChildAngle(m, angle, count, i);
      RadialLayoutNodes(m, node.children[i], expanded, p, a, radius * RadiusShrink);
      RadialChildrenNodes(m, node, expanded, position, angle, radius, i + 1);
      NodesConcat(RadialChild(m, node, expanded, position, angle, radius, i),
                  RadialChildren(m, node, expanded, position, angle, radius, i + 1));
    }
  }

  /** A collapsed node, or one without children, yields its own entry only. */
  lemma {:induction false} RadialLayoutCollapsed(m: MathLib, node: Node, expanded: set<string>, position: Vec3, angle: real, radius: real)
    requires node.id !in expanded || node.children == []
    ensures CalculateRadialLayout(m, node, expanded, position, angle, radius) == [Positioned(node, position)]
  {
    if node.id in expanded {
      assert RadialChildren(m, node, expanded, position, angle, radius, 0) == [];
    }
  }

  /** The children's layouts from index `i` on are the tail of the layout. */
  lemma {:induction false} RadialSuffix(m: MathLib, node: Node, expanded: set<string>, position: Vec3, angle: real, radius: real, i: nat)
    requires node.id in expanded && i <= |node.children|
    ensures var r := CalculateRadialLayout(m, node, expanded, position, angle, radius);
            var rest := RadialChildren(m, node, expanded, position, angle, radius, i);
            |rest| < |r| && r[|r| - |rest|..] == rest
  {
    var r := CalculateRadialLayout(m, node, expanded, position, angle, radius);
    if i > 0 {
      RadialSuffix(m, node, expanded, position, angle, radius, i - 1);
      var first := RadialChild(m, node, expanded, position, angle, radius, i - 1);
      var prev := RadialChildren(m, node, expanded, position, angle, radius, i - 1);
      assert prev == first + RadialChildren(m, node, expanded, position, angle, radius, i);
      assert prev[|first|..] == RadialChildren(m, node, expanded, position, angle, radius, i);
    } else {
      assert r == [r[0]] + RadialChildren(m, node, expanded, position, angle, radius, 0);
    }
  }

  /** Child `i` of an expanded node: its whole layout sits in the parent's
      output at the child's pre-order index, starting with the child itself
      at `RadialChildPosition`. */
  lemma {:induction false} RadialChildSlice(m: MathLib, node: Node, expanded: set<string>, position: Vec3, angle: real, radius: real, i: nat)
    requires node.id in expanded && i < |node.children|
    ensures var r := CalculateRadialLayout(m, node, expanded, position, angle, radius);
            var k := ChildIndex(node, expanded, i);
            var sub := RadialChild(m, node, expanded, position, angle, radius, i);
            1 <= k && k + |sub| <= |r| && r[k .. k + |sub|] == sub &&
            r[k] == Positioned(node.children[i], RadialChildPosition(m, position, angle, radius, |node.children|, i))
  {
    var r := CalculateRadialLayout(m, node, expanded, position, angle, radius);
    var sub := RadialChild(m, node, expanded, position, angle, radius, i);
    var rest := RadialChildren(m, node, expanded, position, angle, radius, i);
    RadialSuffix(m, node, expanded, position, angle, radius, i);
    RadialLayoutNodes(m, node, expanded, position, angle, radius);
    RadialChildrenNodes(m, node, expanded, position, angle, radius, i);
    assert |r| == |Visible(node, expanded)|;
    assert |rest| == |VisibleFrom(node, expanded, i)|;
    assert rest == sub + RadialChildren(m, node, expanded, position, angle, radius, i + 1);
    assert r[|r| - |rest|..][..|sub|] == sub;
  }

  /** How child `i` is placed: 3 below the parent at an even index and 4
      below at an odd one (around it at `radius`, see
      `RadialChildPosition`); its own children are laid out around it at
      0.85 times the radius, starting from its angle. */
  lemma {:induction false} RadialChildPlacement(m: MathLib, node: Node, expanded: set<string>, position: Vec3, angle: real, radius: real, i: nat)
    requires i < |node.children|
    ensures var count := |node.children|;
            RadialChild(m, node, expanded, position, angle, radius, i) ==
            CalculateRadialLayout(m, node.children[i], expanded,
                                  RadialChildPosition(m, position, angle, radius, count, i),
                                  RadialChildAngle(m, angle, count, i), 0.85 * radius)
    ensures var p := RadialChildPosition(m, position, angle, radius, |node.children|, i);
            p.y == (if i % 2 == 0 then position.y - 3.0 else position.y - 4.0)
  {
    assert radius * RadiusShrink == 0.85 * radius;
  }
}
