/**
 * The layout logic of src/components/MindMap3D/MindMapViewer.tsx: the
 * viewer's own radial placement (`calculatePositions`), the parent-to-child
 * line segments it derives from the placed nodes (`connections` and its
 * inner `addConnections`), the expand/collapse toggle on the set of
 * expanded ids (`handleNodeClick`) and the set the viewer starts with.
 * The expansion set, read from React state by the source, is a parameter.
 */
module MindMapViewer {
  import opened MindMap
  import opened Geometry

  datatype Option<T> = None | Some(value: T)

  const ViewerRadius: real := 4.0
  const ViewerShrink: real := 0.7

  // ---------------------------------------------------------------------
  // Expansion state
  // ---------------------------------------------------------------------

  /** The viewer starts with only the root expanded. */
  function InitialExpanded(root: Node): set<string>
  {
    {root.id}
  }

  lemma {:induction false} InitialChildren(root: Node, i: nat)
    requires i <= |root.children|
    requires forall j :: 0 <= j < |root.children| ==> root.children[j].id != root.id
    ensures VisibleFrom(root, InitialExpanded(root), i) == root.children[i..]
    decreases |root.children| - i
  {
    if i < |root.children| {
      InitialChildren(root, i + 1);
      CollapsedShowsOnlyItself(root.children[i], InitialExpanded(root));
      assert root.children[i..] == [root.children[i]] + root.children[i + 1..];
    }
  }

  /** With the initial set, the viewer shows the root and its direct
      children, and nothing deeper (when no child shares the root's id). */
  lemma InitiallyVisible(root: Node)
    requires forall j :: 0 <= j < |root.children| ==> root.children[j].id != root.id
    ensures Visible(root, InitialExpanded(root)) == [root] + root.children
  {
    InitialChildren(root, 0);
    assert root.children[0..] == root.children;
  }

  /** A click on the node with id `id`: the new set, built as a copy of the
      old one, holds `id` exactly when the old one did not, and agrees with
      it on every other id. */
  function Toggle(expanded: set<string>, id: string): (r: set<string>)
    ensures id in r <==> id !in expanded
    ensures forall other :: other != id ==> (other in r <==> other in expanded)
  {
    if id in expanded then expanded - {id} else expanded + {id}
  }

  /** Two clicks on the same node restore the set. */
  lemma ToggleTwice(expanded: set<string>, id: string)
    ensures Toggle(Toggle(expanded, id), id) == expanded
  {
  }

  // ---------------------------------------------------------------------
  // Placement (`calculatePositions`)
  // ---------------------------------------------------------------------

  function ViewerChildAngle(m: MathLib, angle: real, count: nat, i: nat): real
    requires count > 0
  {
    var angleStep := (m.pi * 2.0) / count as real;
    angle + angleStep * i as real
  }

  /** Where child `i` of `count` goes: `radius` away from the parent along
      its angle, 2 below the parent. */
  function ViewerChildPosition(m: MathLib, position: Vec3, angle: real, radius: real, count: nat, i: nat): Vec3
    requires count > 0
  {
    var childAngle := ViewerChildAngle(m, angle, count, i);
    Vec3(position.x + m.cos(childAngle) * radius, position.y - 2.0, position.z + m.sin(childAngle) * radius)
  }

  /** The viewer's placement of the subtree at `node`. */
  function CalculatePositions(m: MathLib, node: Node, expanded: set<string>, position: Vec3, angle: real, radius: real): (r: seq<Positioned>)
    ensures |r| >= 1 && r[0] == Positioned(node, position)
    decreases node, 1
  {
    [Positioned(node, position)] +
    if node.id in expanded then PositionsChildren(m, node, expanded, position, angle, radius, 0) else []
  }

  function PositionsChildren(m: MathLib, node: Node, expanded: set<string>, position: Vec3, angle: real, radius: real, i: nat): seq<Positioned>
    requires i <= |node.children|
    decreases node, 0, |node.children| - i, 1
  {
    if i == |node.children| then []
    else PositionsChild(m, node, expanded, position, angle, radius, i) + PositionsChildren(m, node, expanded, position, angle, radius, i + 1)
  }

  /** The placement of child `i`: at `ViewerChildPosition`, turned to its
      own angle, with its children at 0.7 times the radius. */
  function PositionsChild(m: MathLib, node: Node, expanded: set<string>, position: Vec3, angle: real, radius: real, i: nat): seq<Positioned>
    requires i < |node.children|
    decreases node, 0, |node.children| - i, 0
  {
    var count := |node.children|;
    CalculatePositions(m, node.children[i], expanded,
                       ViewerChildPosition(m, position, angle, radius, count, i),
                       ViewerChildAngle(m, angle, count, i), radius * ViewerShrink)
  }

  /** What the viewer places: the whole tree from the origin, radius 4. */
  function ViewerPositions(m: MathLib, root: Node, expanded: set<string>): seq<Positioned>
  {
    CalculatePositions(m, root, expanded, Origin, 0.0, ViewerRadius)
  }

  /** The viewer places exactly the visible nodes, in the layouts' pre-order. */
  lemma {:induction false} PositionsNodes(m: MathLib, node: Node, expanded: set<string>, position: Vec3, angle: real, radius: real)
    ensures Nodes(CalculatePositions(m, node, expanded, position, angle, radius)) == Visible(node, expanded)
    decreases node, 1
  {
    var head := [Positioned(node, position)];
    assert Nodes(head) == [node];
    if node.id in expanded {
      PositionsChildrenNodes(m, node, expanded, position, angle, radius, 0);
      NodesConcat(head, PositionsChildren(m, node, expanded, position, angle, radius, 0));
    } else {
      assert CalculatePositions(m, node, expanded, position, angle, radius) == head;
    }
  }

  lemma {:induction false} PositionsChildrenNodes(m: MathLib, node: Node, expanded: set<string>, position: Vec3, angle: real, radius: real, i: nat)
    requires i <= |node.children|
    ensures Nodes(PositionsChildren(m, node, expanded, position, angle, radius, i)) == VisibleFrom(node, expanded, i)
    decreases node, 0, |node.children| - i, 1
  {
    if i < |node.children| {
      var count := |node.children|;
      PositionsNodes(m, node.children[i], expanded, ViewerChildPosition(m, position, angle, radius, count, i),
                     ViewerChildAngle(m, angle, count, i), radius * ViewerShrink);
      PositionsChildrenNodes(m, node, expanded, position, angle, radius, i + 1);
      NodesConcat(PositionsChild(m, node, expanded, position, angle, radius, i),
                  PositionsChildren(m, node, expanded, position, angle, radius, i + 1));
    }
  }

  /** A collapsed node, or one without children, is placed alone. */
  lemma {:induction false} PositionsCollapsed(m: MathLib, node: Node, expanded: set<string>, position: Vec3, angle: real, radius: real)
    requires node.id !in expanded || node.children == []
    ensures CalculatePositions(m, node, expanded, position, angle, radius) == [Positioned(node, position)]
  {
    if node.id in expanded {
      assert PositionsChildren(m, node, expanded, position, angle, radius, 0) == [];
    }
  }

  /** The children's placements from index `i` on are the tail of the output. */
  lemma {:induction false} PositionsSuffix(m: MathLib, node: Node, expanded: set<string>, position: Vec3, angle: real, radius: real, i: nat)
    requires node.id in expanded && i <= |node.children|
    ensures var r := CalculatePositions(m, node, expanded, position, angle, radius);
            var rest := PositionsChildren(m, node, expanded, position, angle, radius, i);
            |rest| < |r| && r[|r| - |rest|..] == rest
  {
    var r := CalculatePositions(m, node, expanded, position, angle, radius);
    if i > 0 {
      PositionsSuffix(m, node, expanded, position, angle, radius, i - 1);
      var first := PositionsChild(m, node, expanded, position, angle, radius, i - 1);
      var prev := PositionsChildren(m, node, expanded, position, angle, radius, i - 1);
      assert prev == first + PositionsChildren(m, node, expanded, position, angle, radius, i);
      assert prev[|first|..] == PositionsChildren(m, node, expanded, position, angle, radius, i);
    } else {
      assert r == [r[0]] + PositionsChildren(m, node, expanded, position, angle, radius, 0);
    }
  }

  /** Child `i` of an expanded node: its whole placement sits in the
      parent's output at the child's pre-order index, starting with the
      child itself at `ViewerChildPosition`. */
  lemma {:induction false} PositionsChildSlice(m: MathLib, node: Node, expanded: set<string>, position: Vec3, angle: real, radius: real, i: nat)
    requires node.id in expanded && i < |node.children|
    ensures var r := CalculatePositions(m, node, expanded, position, angle, radius);
            var k := ChildIndex(node, expanded, i);
            var sub := PositionsChild(m, node, expanded, position, angle, radius, i);
            1 <= k && k + |sub| <= |r| && r[k .. k + |sub|] == sub &&
            r[k] == Positioned(node.children[i], ViewerChildPosition(m, position, angle, radius, |node.children|, i))
  {
    var r := CalculatePositions(m, node, expanded, position, angle, radius);
    var sub := PositionsChild(m, node, expanded, position, angle, radius, i);
    var rest := PositionsChildren(m, node, expanded, position, angle, radius, i);
    PositionsSuffix(m, node, expanded, position, angle, radius, i);
    PositionsNodes(m, node, expanded, position, angle, radius);
    PositionsChildrenNodes(m, node, expanded, position, angle, radius, i);
    assert |r| == |Visible(node, expanded)|;
    assert |rest| == |VisibleFrom(node, expanded, i)|;
    assert rest == sub + PositionsChildren(m, node, expanded, position, angle, radius, i + 1);
    assert r[|r| - |rest|..][..|sub|] == sub;
  }

  /** How child `i` is placed: 2 below its parent, with its own children
      placed around it at 0.7 times the radius, from its angle. */
  lemma {:induction false} PositionsChildPlacement(m: MathLib, node: Node, expanded: set<string>, position: Vec3, angle: real, radius: real, i: nat)
    requires i < |node.children|
    ensures var count := |node.children|;
            var p := ViewerChildPosition(m, position, angle, radius, count, i);
            PositionsChild(m, node, expanded, position, angle, radius, i) ==
              CalculatePositions(m, node.children[i], expanded, p, ViewerChildAngle(m, angle, count, i), 0.7 * radius) &&
            p.y == position.y - 2.0
  {
    assert radius * ViewerShrink == 0.7 * radius;
  }

  // ---------------------------------------------------------------------
  // Connections (`connections`, `addConnections`)
  // ---------------------------------------------------------------------

  /** A line from a parent's position to a child's position. */
  datatype Segment = Segment(start: Vec3, end: Vec3)

  /** Some entry of `ps` is for a node with id `id`. */
  predicate HasId(ps: seq<Positioned>, id: string)
  {
    exists k :: 0 <= k < |ps| && ps[k].node.id == id
  }

  /** `Array.prototype.find` by id: the first entry whose node has id `id`. */
  function Find(ps: seq<Positioned>, id: string): (r: Option<Positioned>)
    ensures r.None? <==> !HasId(ps, id)
    ensures r.Some? ==> exists k :: 0 <= k < |ps| && ps[k] == r.value && r.value.node.id == id &&
                                    forall j :: 0 <= j < k ==> ps[j].node.id != id
  {
    if |ps| == 0 then None
    else if ps[0].node.id == id then Some(ps[0])
    else
      var r := Find(ps[1..], id);
      assert forall k :: 1 <= k < |ps| ==> ps[k] == ps[1..][k - 1];
      r
  }

  /** The segments the walk emits below `n`, whose own position is
      `parentPos`: nothing unless `n` is expanded. */
  function NodeConnections(ps: seq<Positioned>, expanded: set<string>, n: Node, parentPos: Vec3): seq<Segment>
    decreases n, 1
  {
    if n.id in expanded then ChildConnections(ps, expanded, n, parentPos, 0) else []
  }

  /** The segments for the children of `n` from index `i` on. A child is
      looked up in `ps` by id; when found, one segment runs from the
      parent's position to the found position, followed by the child's own
      segments; when not found, neither the child nor its subtree adds any. */
  function ChildConnections(ps: seq<Positioned>, expanded: set<string>, n: Node, parentPos: Vec3, i: nat): seq<Segment>
    requires i <= |n.children|
    decreases n, 0, |n.children| - i
  {
    if i == |n.children| then []
    else
      var child := n.children[i];
      (match Find(ps, child.id)
       case None => []
       case Some(found) => [Segment(parentPos, found.position)] + NodeConnections(ps, expanded, child, found.position))
      + ChildConnections(ps, expanded, n, parentPos, i + 1)
  }

  /** All segments: the walk starts at the root's entry in `ps`, if any. */
  function ConnectionsOf(ps: seq<Positioned>, expanded: set<string>, root: Node): seq<Segment>
  {
    match Find(ps, root.id)
    case None => []
    case Some(found) => NodeConnections(ps, expanded, root, found.position)
  }

  /** `addConnections`: appends the segments below `n` to `lines`. */
  method AddConnections(ps: seq<Positioned>, expanded: set<string>, n: Node, parentPos: Vec3, lines: seq<Segment>)
    returns (out: seq<Segment>)
    ensures out == lines + NodeConnections(ps, expanded, n, parentPos)
    decreases n
  {
    out := lines;
    if n.id !in expanded {
      return;
    }
    for i := 0 to |n.children|
      invariant out + ChildConnections(ps, expanded, n, parentPos, i) == lines + NodeConnections(ps, expanded, n, parentPos)
    {
      var child := n.children[i];
      var childNodeData := Find(ps, child.id);
      if childNodeData.Some? {
        out := out + [Segment(parentPos, childNodeData.value.position)];
        out := AddConnections(ps, expanded, child, childNodeData.value.position, out);
      }
    }
  }

  /** `connections`: the segments for the placed nodes `ps`. */
  method Connections(ps: seq<Positioned>, expanded: set<string>, root: Node) returns (lines: seq<Segment>)
    ensures lines == ConnectionsOf(ps, expanded, root)
  {
    lines := [];
    var rootNodeData := Find(ps, root.id);
    if rootNodeData.Some? {
      lines := AddConnections(ps, expanded, root, rootNodeData.value.position, lines);
    }
  }

  /** With every shown node present in `ps`, the walk below `n` emits one
      segment per shown node other than `n`. */
  lemma {:induction false} ConnectionCount(ps: seq<Positioned>, expanded: set<string>, n: Node, parentPos: Vec3)
    requires forall v :: v in Visible(n, expanded) ==> HasId(ps, v.id)
    ensures |NodeConnections(ps, expanded, n, parentPos)| == |Visible(n, expanded)| - 1
    decreases n, 1
  {
    if n.id in expanded {
      ChildConnectionCount(ps, expanded, n, parentPos, 0);
    }
  }

  lemma {:induction false} ChildConnectionCount(ps: seq<Positioned>, expanded: set<string>, n: Node, parentPos: Vec3, i: nat)
    requires i <= |n.children|
    requires forall v :: v in VisibleFrom(n, expanded, i) ==> HasId(ps, v.id)
    ensures |ChildConnections(ps, expanded, n, parentPos, i)| == |VisibleFrom(n, expanded, i)|
    decreases n, 0, |n.children| - i
  {
    if i < |n.children| {
      var child := n.children[i];
      assert VisibleFrom(n, expanded, i) == Visible(child, expanded) + VisibleFrom(n, expanded, i + 1);
      assert child in Visible(child, expanded);
      var found := Find(ps, child.id);
      ConnectionCount(ps, expanded, child, found.value.position);
      ChildConnectionCount(ps, expanded, n, parentPos, i + 1);
    }
  }

  /** A child that is not among the placed nodes adds no segment, and
      nothing of its subtree is walked. */
  lemma MissingChildSkipped(ps: seq<Positioned>, expanded: set<string>, n: Node, parentPos: Vec3, i: nat)
    requires i < |n.children| && !HasId(ps, n.children[i].id)
    ensures ChildConnections(ps, expanded, n, parentPos, i) == ChildConnections(ps, expanded, n, parentPos, i + 1)
  {
  }

  /** Whatever `ps` holds, the walk below `n` emits at most one segment per
      shown node other than `n`. */
  lemma {:induction false} ConnectionsAtMost(ps: seq<Positioned>, expanded: set<string>, n: Node, parentPos: Vec3)
    ensures |NodeConnections(ps, expanded, n, parentPos)| <= |Visible(n, expanded)| - 1
    decreases n, 1
  {
    if n.id in expanded {
      ChildConnectionsAtMost(ps, expanded, n, parentPos, 0);
    }
  }

  lemma {:induction false} ChildConnectionsAtMost(ps: seq<Positioned>, expanded: set<string>, n: Node, parentPos: Vec3, i: nat)
    requires i <= |n.children|
    ensures |ChildConnections(ps, expanded, n, parentPos, i)| <= |VisibleFrom(n, expanded, i)|
    decreases n, 0, |n.children| - i
  {
    if i < |n.children| {
      var child := n.children[i];
      assert VisibleFrom(n, expanded, i) == Visible(child, expanded) + VisibleFrom(n, expanded, i + 1);
      ChildConnectionsAtMost(ps, expanded, n, parentPos, i + 1);
      match Find(ps, child.id)
      case None =>
      case Some(found) =>
        ConnectionsAtMost(ps, expanded, child, found.position);
    }
  }

  /** The viewer draws exactly one line fewer than it places nodes. */
  lemma ViewerConnectionCount(m: MathLib, root: Node, expanded: set<string>)
    ensures |ConnectionsOf(ViewerPositions(m, root, expanded), expanded, root)| == |ViewerPositions(m, root, expanded)| - 1
  {
    var ps := ViewerPositions(m, root, expanded);
    PositionsNodes(m, root, expanded, Origin, 0.0, ViewerRadius);
    assert HasId(ps, root.id) by {
      assert ps[0].node.id == root.id;
    }
    forall v | v in Visible(root, expanded)
      ensures HasId(ps, v.id)
    {
      var k :| 0 <= k < |Visible(root, expanded)| && Visible(root, expanded)[k] == v;
      assert Nodes(ps)[k] == ps[k].node;
    }
    ConnectionCount(ps, expanded, root, Find(ps, root.id).value.position);
  }

  // ---------------------------------------------------------------------
  // The reference: the edges of the placement itself
  // ---------------------------------------------------------------------

  /** The parent-to-child edges of the viewer's placement, read off the
      placement recursion directly: one per child of an expanded node, from
      the parent's position to the child's position, in pre-order. */
  function Edges(m: MathLib, n: Node, expanded: set<string>, position: Vec3, angle: real, radius: real): seq<Segment>
    decreases n, 1
  {
    if n.id in expanded then ChildEdges(m, n, expanded, position, angle, radius, 0) else []
  }

  function ChildEdges(m: MathLib, n: Node, expanded: set<string>, position: Vec3, angle: real, radius: real, i: nat): seq<Segment>
    requires i <= |n.children|
    decreases n, 0, |n.children| - i
  {
    if i == |n.children| then []
    else
      var count := |n.children|;
      var p := ViewerChildPosition(m, position, angle, radius, count, i);
      [Segment(position, p)] + Edges(m, n.children[i], expanded, p, ViewerChildAngle(m, angle, count, i), radius * ViewerShrink)
      + ChildEdges(m, n, expanded, position, angle, radius, i + 1)
  }

  /** With distinct ids, the lookup finds an entry's own node. */
  lemma FindUnique(ps: seq<Positioned>, e: Positioned)
    requires e in ps && DistinctIds(Nodes(ps))
    ensures Find(ps, e.node.id) == Some(e)
  {
    var k :| 0 <= k < |ps| && ps[k] == e;
    assert HasId(ps, e.node.id);
    var r := Find(ps, e.node.id);
    var j :| 0 <= j < |ps| && ps[j] == r.value && r.value.node.id == e.node.id &&
             forall i :: 0 <= i < j ==> ps[i].node.id != e.node.id;
    assert Nodes(ps)[j] == ps[j].node && Nodes(ps)[k] == ps[k].node;
  }

  lemma {:induction false} ConnectionsMatchEdges(ps: seq<Positioned>, m: MathLib, n: Node, expanded: set<string>, position: Vec3, angle: real, radius: real)
    requires DistinctIds(Nodes(ps))
    requires forall e :: e in CalculatePositions(m, n, expanded, position, angle, radius) ==> e in ps
    ensures NodeConnections(ps, expanded, n, position) == Edges(m, n, expanded, position, angle, radius)
    decreases n, 1
  {
    if n.id in expanded {
      ChildConnectionsMatchEdges(ps, m, n, expanded, position, angle, radius, 0);
    }
  }

  lemma {:induction false} ChildConnectionsMatchEdges(ps: seq<Positioned>, m: MathLib, n: Node, expanded: set<string>, position: Vec3, angle: real, radius: real, i: nat)
    requires i <= |n.children| && DistinctIds(Nodes(ps))
    requires forall e :: e in PositionsChildren(m, n, expanded, position, angle, radius, i) ==> e in ps
    ensures ChildConnections(ps, expanded, n, position, i) == ChildEdges(m, n, expanded, position, angle, radius, i)
    decreases n, 0, |n.children| - i
  {
    if i < |n.children| {
      var count := |n.children|;
      var child := n.children[i];
      var p := ViewerChildPosition(m, position, angle, radius, count, i);
      var a := ViewerChildAngle(m, angle, count, i);
      var sub := CalculatePositions(m, child, expanded, p, a, radius * ViewerShrink);
      assert PositionsChildren(m, n, expanded, position, angle, radius, i) ==
             sub + PositionsChildren(m, n, expanded, position, angle, radius, i + 1);
      assert sub[0] == Positioned(child, p);
      FindUnique(ps, Positioned(child, p));
      ConnectionsMatchEdges(ps, m, child, expanded, p, a, radius * ViewerShrink);
      ChildConnectionsMatchEdges(ps, m, n, expanded, position, angle, radius, i + 1);
    }
  }

  /** With distinct ids, every line the viewer derives by looking nodes up
      runs from a parent's placed position to its child's placed position,
      and there is one per child of an expanded node, in pre-order. */
  lemma ViewerConnectionsFollowLayout(m: MathLib, root: Node, expanded: set<string>)
    requires DistinctIds(Visible(root, expanded))
    ensures ConnectionsOf(ViewerPositions(m, root, expanded), expanded, root) ==
            Edges(m, root, expanded, Origin, 0.0, ViewerRadius)
  {
    var ps := ViewerPositions(m, root, expanded);
    PositionsNodes(m, root, expanded, Origin, 0.0, ViewerRadius);
    FindUnique(ps, ps[0]);
    ConnectionsMatchEdges(ps, m, root, expanded, Origin, 0.0, ViewerRadius);
  }
}
