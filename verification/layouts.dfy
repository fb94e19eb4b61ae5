/**
 * What the three strategies of src/components/MindMap3D/layoutUtils.ts and
 * the viewer's own placement have in common: they differ only in where
 * they put the nodes, never in which nodes they show or in what order.
 */
module LayoutAgreement {
  import opened MindMap
  import opened Geometry
  import TreeLayout
  import RadialLayout
  import ForceLayout
  import MindMapViewer

  /** With their default arguments, the tree, radial and force layouts and
      the viewer's placement all list the visible nodes of the tree, in
      the same pre-order, each with one entry per node. */
  lemma LayoutsAgree(m: MathLib, root: Node, expanded: set<string>, iterations: int)
    ensures var shown := Visible(root, expanded);
            Nodes(TreeLayout.CalculateTreeLayout(root, expanded, Origin, TreeLayout.DefaultLevelWidth)) == shown &&
            Nodes(RadialLayout.CalculateRadialLayout(m, root, expanded, Origin, 0.0, RadialLayout.DefaultRadius)) == shown &&
            Nodes(ForceLayout.ForcePositions(m, root, expanded, iterations)) == shown &&
            Nodes(MindMapViewer.ViewerPositions(m, root, expanded)) == shown
  {
    TreeLayout.TreeLayoutNodes(root, expanded, Origin, TreeLayout.DefaultLevelWidth);
    RadialLayout.RadialLayoutNodes(m, root, expanded, Origin, 0.0, RadialLayout.DefaultRadius);
    ForceLayout.ForceLayoutNodes(m, root, expanded, iterations);
    MindMapViewer.PositionsNodes(m, root, expanded, Origin, 0.0, MindMapViewer.ViewerRadius);
  }

  /** In particular the strategies agree position by position on which
      node each entry is for. */
  lemma {:induction false} LayoutsAgreeAt(m: MathLib, root: Node, expanded: set<string>, k: nat)
    requires k < |Visible(root, expanded)|
    ensures var tree := TreeLayout.CalculateTreeLayout(root, expanded, Origin, TreeLayout.DefaultLevelWidth);
            var radial := RadialLayout.CalculateRadialLayout(m, root, expanded, Origin, 0.0, RadialLayout.DefaultRadius);
            var force := ForceLayout.ForcePositions(m, root, expanded, ForceLayout.DefaultIterations);
            k < |tree| && k < |radial| && k < |force| &&
            tree[k].node == radial[k].node == force[k].node == Visible(root, expanded)[k]
  {
    LayoutsAgree(m, root, expanded, ForceLayout.DefaultIterations);
    var tree := TreeLayout.CalculateTreeLayout(root, expanded, Origin, TreeLayout.DefaultLevelWidth);
    var radial := RadialLayout.CalculateRadialLayout(m, root, expanded, Origin, 0.0, RadialLayout.DefaultRadius);
    var force := ForceLayout.ForcePositions(m, root, expanded, ForceLayout.DefaultIterations);
    assert Nodes(tree)[k] == tree[k].node;
    assert Nodes(radial)[k] == radial[k].node;
    assert Nodes(force)[k] == force[k].node;
  }
}
