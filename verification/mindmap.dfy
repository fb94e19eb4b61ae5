/**
 * The mind-map tree (src/types/mindmap.ts) and the walk every layout shares:
 * a node is shown, and its children are walked only when its id is in the
 * expansion set.
 */
module MindMap {

  /** One node of the mind map (`caption` is the source's `label`, a Dafny
      keyword). A missing `children` list is the empty sequence. The
      optional description, colour, stored position and the `expanded`
      flag are never read by the layouts and are not modelled. */
  datatype Node = Node(id: string, caption: string, depth: int, children: seq<Node>)

  /** The nodes shown for the subtree at `n`, in the order every layout
      emits them: `n` first, then, only when `n` is expanded, the shown nodes
      of each child in turn (a pre-order walk through expanded nodes). */
  function Visible(n: Node, expanded: set<string>): (r: seq<Node>)
    ensures |r| >= 1 && r[0] == n
    decreases n, 1
  {
    [n] + if n.id in expanded then VisibleFrom(n, expanded, 0) else []
  }

  /** The shown nodes of the children of `n` from index `i` on. */
  function VisibleFrom(n: Node, expanded: set<string>, i: nat): seq<Node>
    requires i <= |n.children|
    decreases n, 0, |n.children| - i
  {
    if i == |n.children| then []
    else Visible(n.children[i], expanded) + VisibleFrom(n, expanded, i + 1)
  }

  /** Where the subtree of child `i` of an expanded node starts in `Visible(n)`:
      after `n` itself and the shown subtrees of the earlier siblings. */
  function ChildIndex(n: Node, expanded: set<string>, i: nat): int
    requires i <= |n.children|
  {
    |Visible(n, expanded)| - |VisibleFrom(n, expanded, i)|
  }

  /** No two nodes of `nodes` share an id. Nothing in the source checks it;
      the id-keyed map of the force layout and the id lookups of the viewer
      behave as the tree prescribes only when it holds. */
  predicate DistinctIds(nodes: seq<Node>)
  {
    forall a, b :: 0 <= a < b < |nodes| ==> nodes[a].id != nodes[b].id
  }

  /** A collapsed node, or one without children, is shown alone. */
  lemma {:induction false} CollapsedShowsOnlyItself(n: Node, expanded: set<string>)
    requires n.id !in expanded || n.children == []
    ensures Visible(n, expanded) == [n]
  {
    if n.id in expanded {
      assert VisibleFrom(n, expanded, 0) == [];
    }
  }

  /** Membership in the shown children from index `i` on. */
  lemma {:induction false} VisibleFromMembers(n: Node, expanded: set<string>, i: nat, v: Node)
    requires i <= |n.children|
    ensures v in VisibleFrom(n, expanded, i) <==>
            exists j :: i <= j < |n.children| && v in Visible(n.children[j], expanded)
    decreases |n.children| - i
  {
    if i < |n.children| {
      VisibleFromMembers(n, expanded, i + 1, v);
      if v in Visible(n.children[i], expanded) {
        assert i <= i < |n.children| && v in Visible(n.children[i], expanded);
      }
      if exists j :: i <= j < |n.children| && v in Visible(n.children[j], expanded) {
        var j :| i <= j < |n.children| && v in Visible(n.children[j], expanded);
        if j > i {
          assert i + 1 <= j < |n.children| && v in Visible(n.children[j], expanded);
        }
      }
    }
  }

  /** A node is shown exactly when it is the root of the subtree, or the
      root is expanded and the node is shown in one of the children's
      subtrees: a node behind a collapsed ancestor never appears. */
  lemma {:induction false} VisibleMembers(n: Node, expanded: set<string>, v: Node)
    ensures v in Visible(n, expanded) <==>
            v == n ||
            (n.id in expanded && exists j :: 0 <= j < |n.children| && v in Visible(n.children[j], expanded))
  {
    VisibleFromMembers(n, expanded, 0, v);
  }

  /** The shown children from index `i` on are the tail of `Visible(n)`. */
  lemma {:induction false} VisibleSuffix(n: Node, expanded: set<string>, i: nat)
    requires n.id in expanded && i <= |n.children|
    ensures 1 <= ChildIndex(n, expanded, i) <= |Visible(n, expanded)|
    ensures Visible(n, expanded)[ChildIndex(n, expanded, i)..] == VisibleFrom(n, expanded, i)
  {
    if i > 0 {
      VisibleSuffix(n, expanded, i - 1);
      var tail := VisibleFrom(n, expanded, i - 1);
      assert tail == Visible(n.children[i - 1], expanded) + VisibleFrom(n, expanded, i);
      assert tail[|Visible(n.children[i - 1], expanded)|..] == VisibleFrom(n, expanded, i);
    }
  }

  /** The shown subtree of child `i` of an expanded node is the slice of
      `Visible(n)` that starts at `ChildIndex(n, expanded, i)`. */
  lemma {:induction false} VisibleChildSlice(n: Node, expanded: set<string>, i: nat)
    requires n.id in expanded && i < |n.children|
    ensures var k := ChildIndex(n, expanded, i);
            var sub := Visible(n.children[i], expanded);
            1 <= k && k + |sub| <= |Visible(n, expanded)| &&
            Visible(n, expanded)[k .. k + |sub|] == sub &&
            Visible(n, expanded)[k] == n.children[i]
  {
    VisibleSuffix(n, expanded, i);
    var k := ChildIndex(n, expanded, i);
    var sub := Visible(n.children[i], expanded);
    assert VisibleFrom(n, expanded, i) == sub + VisibleFrom(n, expanded, i + 1);
    assert Visible(n, expanded)[k..][..|sub|] == sub;
  }
}
