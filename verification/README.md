# Mind-map layout, modelled in Dafny

This project models the layout core of a 3D mind-map viewer. A mind map is a tree of nodes. A set of expanded ids says which nodes show their children. The core decides three things:

- which nodes are visible;
- in what order they are listed;
- where each one is placed in space.

It does this with three interchangeable strategies (tree, radial, force) and with the viewer's own radial placement. The viewer also derives the parent-to-child line segments it draws and toggles the expansion set when a node is clicked.

Modules:

- `MindMap` (`mindmap.dfy`): the node record and the walk every layout shares. `Visible` is the pre-order list of nodes reachable through expanded ancestors.
- `Geometry` (`geometry.dfy`): real 3D vectors and the positioned-node record. `MathLib` carries pi, cos, sin and sqrt as parameters. Nothing is assumed about them except that sqrt is never negative.
- `TreeLayout`, `RadialLayout` (`tree_layout.dfy`, `radial_layout.dfy`): the two recursive strategies, as pure recursive functions.
- `ForceLayout` (`force_layout.dfy`): the force strategy as methods with loops. The methods are proved against folds that specify them. The centroid and seeding properties are proved about those folds.
- `BoundingBox` (`bounding_box.dfy`): the per-axis minimum and maximum of a non-empty list.
- `MindMapViewer` (`viewer.dfy`): covers these parts of the viewer:
  - its placement;
  - the connection walk, as a recursive method that appends to a list;
  - the reference edges of the placement;
  - the toggle;
  - the initial expansion set.
- `LayoutAgreement` (`layouts.dfy`): all strategies show the same nodes in the same order.

Where the design description and the code differ, the model follows the code:

- Connection lookup: the code finds a child's position with a linear `find` that returns the first match. The model does the same. The design asks for an id index instead.
- Toggle: `handleNodeClick` only toggles the set and calls the optional callback. The design also has it set a focused node and a camera target. That code is not in the viewer, so it is not modelled.
- Depth filter: the depth cutoff the design mentions has no code in the layout or viewer files. It is not modelled.

Ids are not checked for uniqueness anywhere in the source. Lemmas that need unique ids say so with `DistinctIds`. Without that precondition, the model keeps the source's behaviour:

- the force layout's maps keep the last seed written for an id;
- the viewer's lookup returns the first entry with that id.

## Model

| member | source | states |
|---|---|---|
| MindMap.Visible | src/components/MindMap3D/layoutUtils.ts:92-99 | the shown nodes of a subtree start with its root; children are walked only through an expanded node |
| MindMap.CollapsedShowsOnlyItself | src/components/MindMap3D/layoutUtils.ts:19-21 | a node that is collapsed or has no children is shown alone |
| MindMap.VisibleMembers | src/components/MindMap3D/layoutUtils.ts:95-97 | a node is shown iff it is the root, or the root is expanded and it is shown under some child, so nothing behind a collapsed ancestor appears |
| MindMap.VisibleSuffix | src/components/MindMap3D/layoutUtils.ts:27-40 | the shown subtrees of the children from index i on form the tail of the parent's list |
| MindMap.VisibleChildSlice | src/components/MindMap3D/layoutUtils.ts:27-40 | each child's shown subtree sits contiguously in the parent's list at `ChildIndex`, starting with the child |
| TreeLayout.CalculateTreeLayout | src/components/MindMap3D/layoutUtils.ts:11-17 | the first entry is the input node at the given position |
| TreeLayout.TreeLayoutRootAtOrigin | src/components/MindMap3D/layoutUtils.ts:14-17 | with the default arguments the root is placed at (0, 0, 0) |
| TreeLayout.TreeLayoutNodes | src/components/MindMap3D/layoutUtils.ts:17-42 | the nodes of the tree layout are exactly `Visible`, in pre-order |
| TreeLayout.TreeLayoutCollapsed | src/components/MindMap3D/layoutUtils.ts:19-21 | a collapsed or childless node yields exactly one entry |
| TreeLayout.TreeChildSlice | src/components/MindMap3D/layoutUtils.ts:27-39 | child i's whole layout is the slice of the output at its pre-order index, and begins with the child at `TreeChildPosition` |
| TreeLayout.TreeChildPlacement | src/components/MindMap3D/layoutUtils.ts:28-37 | a child sits 4 below and 2 behind its parent and is laid out with level width W / childCount |
| TreeLayout.TreeSpanBounds | src/components/MindMap3D/layoutUtils.ts:24 | the shared span W is max(levelWidth, 3 * childCount) |
| TreeLayout.TreeChildrenLeftToRight | src/components/MindMap3D/layoutUtils.ts:24-28 | sibling x coordinates strictly increase with the sibling index |
| TreeLayout.TreeChildrenWithinSpan | src/components/MindMap3D/layoutUtils.ts:24-28 | every child's x lies strictly inside (px - W/2, px + W/2) |
| TreeLayout.TreeChildrenSymmetric | src/components/MindMap3D/layoutUtils.ts:24-28 | the first and last child are symmetric about the parent's x |
| RadialLayout.CalculateRadialLayout | src/components/MindMap3D/layoutUtils.ts:46-54 | the first entry is the input node at the given position |
| RadialLayout.RadialLayoutNodes | src/components/MindMap3D/layoutUtils.ts:54-82 | the nodes of the radial layout are exactly `Visible`, in pre-order |
| RadialLayout.RadialLayoutCollapsed | src/components/MindMap3D/layoutUtils.ts:56-58 | a collapsed or childless node yields exactly one entry |
| RadialLayout.RadialChildSlice | src/components/MindMap3D/layoutUtils.ts:64-79 | child i's whole layout is the slice of the output at its pre-order index, and begins with the child at `RadialChildPosition` |
| RadialLayout.RadialChildPlacement | src/components/MindMap3D/layoutUtils.ts:60-77 | a child's y is the parent's minus 3 at an even index and minus 4 at an odd one; its subtree is laid out from its angle at 0.85 times the radius |
| ForceLayout.CollectNodes | src/components/MindMap3D/layoutUtils.ts:92-99 | appending the collected nodes of a subtree adds exactly its `Visible` list |
| ForceLayout.Distance | src/components/MindMap3D/layoutUtils.ts:129-132 | the divisor of the repulsion is at least 0.1, so it is never zero |
| ForceLayout.ResetForces | src/components/MindMap3D/layoutUtils.ts:115-119 | builds the all-zero forces map of `ZeroForces` |
| ForceLayout.RepulseRow | src/components/MindMap3D/layoutUtils.ts:123-143 | the inner loop over j applies the pairs (i, j) as `Accumulate` specifies |
| ForceLayout.Repulse | src/components/MindMap3D/layoutUtils.ts:122-144 | the nested loops apply every pair i < j in loop order, as `Accumulate` specifies |
| ForceLayout.ApplyForces | src/components/MindMap3D/layoutUtils.ts:147-153 | each node's position moves by its force, as `Apply` specifies |
| ForceLayout.SimulationStep | src/components/MindMap3D/layoutUtils.ts:115-153 | one pass equals `Step`: reset, repel, apply |
| ForceLayout.CalculateForceLayout | src/components/MindMap3D/layoutUtils.ts:86-160 | returns `ForcePositions`: the visible nodes in collection order, each at its position after the given number of passes |
| ForceLayout.ForceLayoutNodes | src/components/MindMap3D/layoutUtils.ts:156-159 | the force output has one entry per collected node, in collection order, so its nodes are `Visible` |
| ForceLayout.ForceWithoutIterations | src/components/MindMap3D/layoutUtils.ts:103-114 | with no iterations node k of n keeps its seed: angle 2*pi*k/n, radius 5 + 2*depth, y = -3*depth |
| ForceLayout.PairEqualAndOpposite | src/components/MindMap3D/layoutUtils.ts:134-142 | one pair adds equal and opposite vectors to its two nodes' forces and leaves all other forces alone |
| ForceLayout.AddPairKeepsSum | src/components/MindMap3D/layoutUtils.ts:139-142 | one pair leaves the sum of all forces unchanged |
| ForceLayout.AccumulateKeepsSum | src/components/MindMap3D/layoutUtils.ts:122-144 | all pairs together leave the sum of all forces unchanged |
| ForceLayout.PassForcesCancel | src/components/MindMap3D/layoutUtils.ts:115-144 | the forces of one pass add up to zero |
| ForceLayout.StepKeepsSum | src/components/MindMap3D/layoutUtils.ts:115-153 | one pass leaves the sum of all positions unchanged |
| ForceLayout.SimulateKeepsSum | src/components/MindMap3D/layoutUtils.ts:114-154 | any number of passes leaves the sum of all positions unchanged |
| ForceLayout.ForceKeepsCentroid | src/components/MindMap3D/layoutUtils.ts:114-159 | the output's positions add up to the same vector as the seeds, so the centroid never moves |
| BoundingBox.Min | src/components/MindMap3D/layoutUtils.ts:169 | the minimum is below every value and is one of them |
| BoundingBox.Max | src/components/MindMap3D/layoutUtils.ts:170 | the maximum is above every value and is one of them |
| BoundingBox.GetBoundingBox | src/components/MindMap3D/layoutUtils.ts:163-175 | on each axis every coordinate lies between the bounds, and each bound is attained by some entry |
| MindMapViewer.InitiallyVisible | src/components/MindMap3D/MindMapViewer.tsx:14 | the initial set `{root.id}` shows the root and its direct children and nothing deeper |
| MindMapViewer.Toggle | src/components/MindMap3D/MindMapViewer.tsx:83-91 | the clicked id's membership flips and every other id's membership is unchanged |
| MindMapViewer.ToggleTwice | src/components/MindMap3D/MindMapViewer.tsx:84-89 | toggling the same id twice restores the set |
| MindMapViewer.CalculatePositions | src/components/MindMap3D/MindMapViewer.tsx:17-25 | the first entry is the input node at the given position |
| MindMapViewer.PositionsNodes | src/components/MindMap3D/MindMapViewer.tsx:23-50 | the viewer places exactly `Visible`, in the layouts' pre-order |
| MindMapViewer.PositionsCollapsed | src/components/MindMap3D/MindMapViewer.tsx:27-29 | a collapsed or childless node is placed alone |
| MindMapViewer.PositionsChildSlice | src/components/MindMap3D/MindMapViewer.tsx:34-48 | child i's whole placement is the slice of the output at its pre-order index, and begins with the child at `ViewerChildPosition` |
| MindMapViewer.PositionsChildPlacement | src/components/MindMap3D/MindMapViewer.tsx:35-46 | a child sits 2 below its parent, and its subtree is placed from its angle at 0.7 times the radius |
| MindMapViewer.Find | src/components/MindMap3D/MindMapViewer.tsx:66 | the lookup finds nothing iff no entry has the id, and otherwise returns the first entry with that id |
| MindMapViewer.FindUnique | src/components/MindMap3D/MindMapViewer.tsx:66 | with distinct ids the lookup returns the entry of that very node |
| MindMapViewer.AddConnections | src/components/MindMap3D/MindMapViewer.tsx:62-72 | the walk appends exactly the segments `NodeConnections` specifies: none below a collapsed node, one per child found |
| MindMapViewer.Connections | src/components/MindMap3D/MindMapViewer.tsx:59-80 | the segments start at the root's entry, and there are none when the root is missing |
| MindMapViewer.MissingChildSkipped | src/components/MindMap3D/MindMapViewer.tsx:66-71 | a child missing from the placed list adds no segment, and its subtree is not walked |
| MindMapViewer.ConnectionsAtMost | src/components/MindMap3D/MindMapViewer.tsx:62-72 | whatever the placed list holds, there is at most one segment per shown node other than the root |
| MindMapViewer.ConnectionCount | src/components/MindMap3D/MindMapViewer.tsx:62-72 | when every shown node is in the placed list, there is exactly one segment per shown node other than the root |
| MindMapViewer.ViewerConnectionCount | src/components/MindMap3D/MindMapViewer.tsx:53-80 | the viewer draws exactly one segment fewer than it places nodes |
| MindMapViewer.ConnectionsMatchEdges | src/components/MindMap3D/MindMapViewer.tsx:62-72 | with distinct ids, the lookup walk emits the placement's own parent-to-child edges |
| MindMapViewer.ViewerConnectionsFollowLayout | src/components/MindMap3D/MindMapViewer.tsx:59-80 | with distinct ids, each segment runs from a parent's placed position to its child's placed position, one per child of an expanded node, in pre-order |
| LayoutAgreement.LayoutsAgree | src/components/MindMap3D/layoutUtils.ts:11-160 | the tree, radial and force layouts and the viewer's placement list the same nodes in the same order |
| LayoutAgreement.LayoutsAgreeAt | src/components/MindMap3D/layoutUtils.ts:11-160 | at every index, the tree, radial and force outputs are for the same node |

## Left out

- Floating point: coordinates are exact reals. IEEE rounding, trigonometric identities and any convergence of the force simulation are not modelled.
- `Math.PI`, `Math.cos`, `Math.sin`, `Math.sqrt`: these are fields of a `MathLib` parameter. The only fact assumed is that sqrt is never negative.
- BoundingBox.GetBoundingBox: requires a non-empty list. On an empty list the source returns infinite bounds, which reals cannot express.
- Optional `children`: a missing list is modelled as the empty sequence. Both stop the walk the same way in the source.
- Node fields: `description`, `color`, the stored `position` and the `expanded` flag (src/types/mindmap.ts:4-9) are not read by the layout code and are not modelled. `label` is named `caption`, because `label` is a Dafny keyword.
- RadialLayout.CalculateRadialLayout: drops `levelOffset`. The source increments it on each recursive call but never reads it.
- ForceLayout.CalculateForceLayout: the source's `Map` of mutable triples is updated in place. Here the positions and forces are immutable map values that the loops reassign, with the same read and write order. Array aliasing is not modelled beyond that order.
- Force layout arguments: the pass count is an `int`, and any non-positive count runs no pass, as the JS `for` loop does. Fractional counts are not modelled.
- MindMapViewer.Toggle: the new set is a fresh value, so the old set is never modified. React's scheduling of the functional update is not modelled.
- `onNodeClick` callback: it is outside code, called after the toggle, and is not modelled.
- React state: `useState` and `useMemo` are not modelled. The expansion set is passed in as a parameter.
- Rendering: the JSX of the viewer (src/components/MindMap3D/MindMapViewer.tsx:95-140) is not modelled.
- Other files: Node3D, ConnectionLine, the UI control files, the upload dialog, the server function and the sample data are not part of this model.
- MindMapViewer.Find: only the result of the linear scan is modelled, not its cost.
