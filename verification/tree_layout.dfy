/**
 * The tree strategy of src/components/MindMap3D/layoutUtils.ts
 * (`calculateTreeLayout`): each expanded node spreads its children evenly,
 * left to right, over a horizontal span, one level down and one step back.
 */
module TreeLayout {
  import opened MindMap
  import opened Geometry

  const DefaultLevelWidth: real := 12.0

  /** The span the children of a node share: the level width, widened to
      3 per child when they would not fit (`Math.max`). */
  function TreeSpan(levelWidth: real, count: nat): real
  {
    if levelWidth >= 3.0 * count as real then levelWidth else 3.0 * count as real
  }

  /** Where child `i` of `count` goes when the children share `totalWidth`. */
  function TreeChildPosition(position: Vec3, totalWidth: real, count: nat, i: nat): Vec3
  {
    var spacing := totalWidth / (count as real + 1.0);
    Vec3(position.x - totalWidth / 2.0 + spacing * (i as real + 1.0), position.y - 4.0, position.z - 2.0)
  }

  /** The tree layout of the subtree at `node`, placed at `position`. */
  function CalculateTreeLayout(node: Node, expanded: set<string>, position: Vec3, levelWidth: real): (r: seq<Positioned>)
    ensures |r| >= 1 && r[0] == Positioned(node, position)
    decreases node, 1
  {
    [Positioned(node, position)] +
    if node.id in expanded then TreeChildren(node, expanded, position, TreeSpan(levelWidth, |node.children|), 0)
    else []
  }

  /** The layouts of the children of `node` from index `i` on, when they share `totalWidth`. */
  function TreeChildren(node: Node, expanded: set<string>, position: Vec3, totalWidth: real, i: nat): seq<Positioned>
    requires i <= |node.children|
    decreases node, 0, |node.children| - i, 1
  {
    if i == |node.children| then []
    else TreeChild(node, expanded, position, totalWidth, i) + TreeChildren(node, expanded, position, totalWidth, i + 1)
  }

  /** The layout of child `i` of `node`: placed by `TreeChildPosition` and
      given an equal share of the span as its own level width. */
  function TreeChild(node: Node, expanded: set<string>, position: Vec3, totalWidth: real, i: nat): seq<Positioned>
    requires i < |node.children|
    decreases node, 0, |node.children| - i, 0
  {
    var count := |node.children|;
    CalculateTreeLayout(node.children[i], expanded, TreeChildPosition(position, totalWidth, count, i), totalWidth / count as real)
  }

  /** The tree layout shows exactly the visible nodes, in pre-order. */
  lemma {:induction false} TreeLayoutNodes(node: Node, expanded: set<string>, position: Vec3, levelWidth: real)
    ensures Nodes(CalculateTreeLayout(node, expanded, position, levelWidth)) == Visible(node, expanded)
    decreases node, 1
  {
    var head := [Positioned(node, position)];
    assert Nodes(head) == [node];
    if node.id in expanded {
      var rest := TreeChildren(node, expanded, position, TreeSpan(levelWidth, |node.children|), 0);
      TreeChildrenNodes(node, expanded, position, TreeSpan(levelWidth, |node.children|), 0);
      NodesConcat(head, rest);
    } else {
      assert CalculateTreeLayout(node, expanded, position, levelWidth) == head;
    }
  }

  lemma {:induction false} TreeChildrenNodes(node: Node, expanded: set<string>, position: Vec3, totalWidth: real, i: nat)
    requires i <= |node.children|
    ensures Nodes(TreeChildren(node, expanded, position, totalWidth, i)) == VisibleFrom(node, expanded, i)
    decreases node, 0, |node.children| - i, 1
  {
    if i < |node.children| {
      var count := |node.children|;
      var first := TreeChild(node, expanded, position, totalWidth, i);
      TreeLayoutNodes(node.children[i], expanded, TreeChildPosition(position, totalWidth, count, i), totalWidth / count as real);
      TreeChildrenNodes(node, expanded, position, totalWidth, i + 1);
      NodesConcat(first, TreeChildren(node, expanded, position, totalWidth, i + 1));
    }
  }

  /** A collapsed node, or one without children, yields its own entry only. */
  lemma {:induction false} TreeLayoutCollapsed(node: Node, expanded: set<string>, position: Vec3, levelWidth: real)
    requires node.id !in expanded || node.children == []
    ensures CalculateTreeLayout(node, expanded, position, levelWidth) == [Positioned(node, position)]
  {
    if node.id in expanded {
      assert TreeChildren(node, expanded, position, TreeSpan(levelWidth, |node.children|), 0) == [];
    }
  }

  /** The children's layouts from index `i` on are the tail of the layout. */
  lemma {:induction false} TreeSuffix(node: Node, expanded: set<string>, position: Vec3, levelWidth: real, i: nat)
    requires node.id in expanded && i <= |node.children|
    ensures var r := CalculateTreeLayout(node, expanded, position, levelWidth);
            var rest := TreeChildren(node, expanded, position, TreeSpan(levelWidth, |node.children|), i);
            |rest| < |r| && r[|r| - |rest|..] == rest
  {
    var r := CalculateTreeLayout(node, expanded, position, levelWidth);
    var W := TreeSpan(levelWidth, |node.children|);
    if i > 0 {
      TreeSuffix(node, expanded, position, levelWidth, i - 1);
      var first := TreeChild(node, expanded, position, W, i - 1);
      var prev := TreeChildren(node, expanded, position, W, i - 1);
      assert prev == first + TreeChildren(node, expanded, position, W, i);
      assert prev[|first|..] == TreeChildren(node, expanded, position, W, i);
    } else {
      assert r == [r[0]] + TreeChildren(node, expanded, position, W, 0);
    }
  }

  /** Child `i` of an expanded node: its whole layout sits in the parent's
      output at the child's pre-order index, starting with the child itself
      at `TreeChildPosition`. */
  lemma {:induction false} TreeChildSlice(node: Node, expanded: set<string>, position: Vec3, levelWidth: real, i: nat)
    requires node.id in expanded && i < |node.children|
    ensures var r := CalculateTreeLayout(node, expanded, position, levelWidth);
            var W := TreeSpan(levelWidth, |node.children|);
            var k := ChildIndex(node, expanded, i);
            var sub := TreeChild(node, expanded, position, W, i);
            1 <= k && k + |sub| <= |r| && r[k .. k + |sub|] == sub &&
            r[k] == Positioned(node.children[i], TreeChildPosition(position, W, |node.children|, i))
  {
    var r := CalculateTreeLayout(node, expanded, position, levelWidth);
    var W := TreeSpan(levelWidth, |node.children|);
    var sub := TreeChild(node, expanded, position, W, i);
    var rest := TreeChildren(node, expanded, position, W, i);
    TreeSuffix(node, expanded, position, levelWidth, i);
    TreeLayoutNodes(node, expanded, position, levelWidth);
    TreeChildrenNodes(node, expanded, position, W, i);
    assert |r| == |Visible(node, expanded)|;
    assert |rest| == |VisibleFrom(node, expanded, i)|;
    assert rest == sub + TreeChildren(node, expanded, position, W, i + 1);
    assert r[|r| - |rest|..][..|sub|] == sub;
  }

  /** How child `i` of `count` is placed: 4 below and 2 behind its parent,
      laid out in turn with an equal share `W / count` of the span `W` the
      siblings share as its own level width. */
  lemma {:induction false} TreeChildPlacement(node: Node, expanded: set<string>, position: Vec3, totalWidth: real, i: nat)
    requires i < |node.children|
    ensures var count := |node.children|;
            var p := TreeChildPosition(position, totalWidth, count, i);
            TreeChild(node, expanded, position, totalWidth, i) ==
              CalculateTreeLayout(node.children[i], expanded, p, totalWidth / count as real) &&
            p.y == position.y - 4.0 && p.z == position.z - 2.0
  {
  }

  /** The span the children share is at least the level width and at least
      3 per child, and it is always one of the two. */
  lemma TreeSpanBounds(levelWidth: real, count: nat)
    ensures TreeSpan(levelWidth, count) >= levelWidth
    ensures TreeSpan(levelWidth, count) >= 3.0 * count as real
    ensures TreeSpan(levelWidth, count) == levelWidth || TreeSpan(levelWidth, count) == 3.0 * count as real
  {
  }

  /** Siblings are placed strictly left to right in their given order. */
  lemma {:induction false} TreeChildrenLeftToRight(position: Vec3, levelWidth: real, count: nat, i: nat, j: nat)
    requires i < j < count
    ensures var W := TreeSpan(levelWidth, count);
            TreeChildPosition(position, W, count, i).x < TreeChildPosition(position, W, count, j).x
  {
    var W := TreeSpan(levelWidth, count);
    var spacing := W / (count as real + 1.0);
    assert W >= 3.0 * count as real > 0.0;
    assert spacing > 0.0;
    assert spacing * (i as real + 1.0) < spacing * (j as real + 1.0) by {
      assert spacing * (j as real + 1.0) - spacing * (i as real + 1.0) == spacing * (j as real - i as real);
    }
  }

  /** Every child lies strictly inside the span centred on the parent. */
  lemma {:induction false} TreeChildrenWithinSpan(position: Vec3, levelWidth: real, count: nat, i: nat)
    requires i < count
    ensures var W := TreeSpan(levelWidth, count);
            var x := TreeChildPosition(position, W, count, i).x;
            position.x - W / 2.0 < x < position.x + W / 2.0
  {
    var W := TreeSpan(levelWidth, count);
    var c := count as real + 1.0;
    var spacing := W / c;
    assert W > 0.0;
    assert spacing * c == W;
    assert 0.0 < spacing * (i as real + 1.0) by {
      assert spacing > 0.0;
    }
    assert spacing * (i as real + 1.0) < spacing * c by {
      assert spacing * c - spacing * (i as real + 1.0) == spacing * (c - (i as real + 1.0));
      assert spacing > 0.0 && c - (i as real + 1.0) > 0.0;
    }
  }

  /** The first and the last child sit symmetrically about the parent. */
  lemma {:induction false} TreeChildrenSymmetric(position: Vec3, levelWidth: real, count: nat)
    requires count > 0
    ensures var W := TreeSpan(levelWidth, count);
            TreeChildPosition(position, W, count, 0).x - position.x ==
            position.x - TreeChildPosition(position, W, count, count - 1).x
  {
    var W := TreeSpan(levelWidth, count);
    var c := count as real + 1.0;
    var spacing := W / c;
    assert spacing * c == W;
    assert spacing * 1.0 + spacing * ((count - 1) as real + 1.0) == spacing * c;
  }

  /** The default call: the root is placed at the origin. */
  lemma TreeLayoutRootAtOrigin(root: Node, expanded: set<string>)
    ensures CalculateTreeLayout(root, expanded, Origin, DefaultLevelWidth)[0] == Positioned(root, Vec3(0.0, 0.0, 0.0))
  {
  }
}
