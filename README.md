# 3D node-graph editor: state and interaction core in Dafny

This project models the state and interaction core of a small 3D node-graph
editor. Users place typed nodes (Parent, Child, Sub-process) in a 3D scene,
connect them with undirected links, and work in one of three interaction
modes: connection, move and camera. The model covers these parts:

- **Connection store** (`Connections`, from `src/hooks/useConnections.js`). An ordered list of
  links with no self-loops, no two links joining the same unordered pair, and distinct ids.
  It also holds a drag-to-connect slot and a three-way click-to-connect toggle.
- **Node store** (`Nodes`, from `src/hooks/useNodes.js`). An ordered list of typed nodes.
  It supports:
  - appending a node with the generated label "{TypeName} {k}";
  - deleting by id, which drops the selection when the selected node goes;
  - field updates in place;
  - lookup by id;
  - a dragged-node slot.
- **Node type table** (`NodeTypes`, from `src/utils/nodeTypes.js`): the three type keys and
  the presentation fields copied into new nodes.
- **Scene controller** (`Scene`, from `src/hooks/use3DScene.js`):
  - the mode cycle connection → move → camera → connection;
  - the auto-rotate flag;
  - the camera position, set from a fixed preset table.
- **Placement** (`Placement`, from `src/utils/3dHelpers.js`):
  - the camera preset table;
  - the grid and ring slot arithmetic for each node type;
  - the two bounded retry loops: ten collision-adjust rounds, and a hundred random attempts
    followed by a fallback.
- **Gestures** (`Gestures`, from `src/components/Scene3D.js`):
  - which callbacks a node's pointer-down and pointer-up issue in each mode;
  - the scene's local `isDragging`/`dragStartNode` machine;
  - the canvas pointer-up;
  - the rule for when the orbit controls are enabled.
- **Coordinator** (`App`, from `src/App.js`). An `Editor` holding the stores, with these operations:
  - the cascade delete;
  - clear-all;
  - the keyboard shortcuts, where Escape prefers cancelling a drag to clearing the pending click;
  - the node and canvas pointer gestures as the scene wires them.

  It also defines referential integrity: every link endpoint, the pending click-to-connect,
  the start of a connection drag and the node being moved all name existing nodes.

Each store is a class whose fields are the hook's state variables and whose methods are its
handlers. Every store and editor method states its whole new state, and the invariant the
store keeps is its `Valid()`. Filters, maps and lookups over the lists are recursive functions, specified by
membership and order. The lemmas beside them prove what the handlers promise.

Random draws are not computed. `Placement.Draws` is the sequence of values `Math.random()`
would return during one call, passed in as a parameter. Cosine and sine of the ring angles come
from a parameter `Placement.Circle`. Fresh node and connection ids are parameters that the
caller guarantees are unused. This replaces the generators, which read the clock and random
numbers.

The mode toggle cycles through three modes, so three toggles return to connection mode.
The auto-rotate toggle flips the flag in every mode, not only in camera mode.

## Model

| member | source | states |
|---|---|---|
| NodeTypes.ParseKind | src/utils/nodeTypes.js:1-26 | a key names a table entry exactly when it is PARENT, CHILD or SUBPROCESS; any other key has no entry |
| Placement.CameraPreset | src/utils/3dHelpers.js:137-146 | the preset table has an entry exactly for its eight names |
| Placement.PresetTable | src/utils/3dHelpers.js:135-146 | eight distinct preset names; `default` and `isometric` both equal the default position (15,15,15); `top` is (0,30,0) |
| Placement.PresetOrDefault | src/hooks/use3DScene.js:34-37 | choosing a preset gives the table entry for a known name and the default entry for any other name |
| Placement.ChildSlot | src/utils/3dHelpers.js:55-60 | a child's grid slot has x in {−15, −5, 5, 15}, y = 0 and z ≥ −15 |
| Placement.ChildSlotsDistinct | src/utils/3dHelpers.js:57-58 | different child counts get different grid slots |
| Placement.ParentRing | src/utils/3dHelpers.js:49-54 | parent ring ⌊(k−1)/6⌋: radius at least 12, height at least 8 |
| Placement.SubprocessRing | src/utils/3dHelpers.js:61-66 | sub-process ring ⌊(k−1)/5⌋: radius at least 10, height at most −8 |
| Placement.RingsGrowOutward | src/utils/3dHelpers.js:49-66 | later parents sit on wider, higher rings; later sub-processes on wider, lower rings |
| Placement.BaseLevels | src/utils/3dHelpers.js:48-82 | before jitter, parents are at height ≥ 8, children at 0 and sub-processes at ≤ −8 |
| Placement.IsCrowded | src/utils/3dHelpers.js:93-107 | the distance scan reports a clash exactly when some existing position is closer than 6 |
| Placement.Settle | src/utils/3dHelpers.js:90-111 | the collision-adjust loop keeps a position that is already clear, and it never changes the height |
| Placement.SettleOutcome | src/utils/3dHelpers.js:90-113 | the adjust loop ends at a position clear of all others, or after ten rounds of nudges |
| Placement.TypeBasedPosition | src/utils/3dHelpers.js:46-114 | fails exactly for an unknown type; otherwise returns the jittered slot after the collision-adjust loop |
| Placement.PlacedLevels | src/utils/3dHelpers.js:46-113 | with draws in [0,1), parents end at height ≥ 6, children in [−2,2) and sub-processes below −6 |
| Placement.RandomFrom | src/utils/3dHelpers.js:8-43 | a random position is the candidate of some attempt from the current one up to the hundredth, or the fallback |
| Placement.RandomPosition | src/utils/3dHelpers.js:3-44 | the attempt loop returns what the specification of the 100-attempt search returns |
| Placement.RandomOutcome | src/utils/3dHelpers.js:8-43 | a random position is clear of every existing one at distance 6, or it is the fallback |
| Placement.CandidateInCube | src/utils/3dHelpers.js:9-13 | each attempt lies within half the range of the origin on every axis |
| Placement.FallbackInCube | src/utils/3dHelpers.js:39-43 | the fallback lies within half the range plus one on every axis |
| Placement.RandomInCube | src/utils/3dHelpers.js:3-44 | every random position lies within half the range plus one on every axis |
| Connections.FindJoining | src/hooks/useConnections.js:10-14 | finds a connection joining the pair in either orientation exactly when one exists |
| Connections.NewConnection | src/hooks/useConnections.js:9-24 | refuses exactly a self-loop or a pair already joined either way; otherwise the new link is {id, from, to} |
| Connections.AfterAdd | src/hooks/useConnections.js:9-28 | adding keeps the old list as a prefix; it appends exactly {id, from, to} unless that is a self-loop or the pair is already joined either way, and then it changes nothing |
| Connections.AddKeepsWellFormed | src/hooks/useConnections.js:20-27 | adding with a fresh id keeps no self-loops, no duplicate pairs and distinct ids |
| Connections.AddedPairRejectedBothWays | src/hooks/useConnections.js:10-18 | once a–b is added, adding a–b or b–a again is refused |
| Connections.WithoutId | src/hooks/useConnections.js:30-32 | deleting by id keeps exactly the connections with another id |
| Connections.WithoutIdKeepsOrder | src/hooks/useConnections.js:30-32 | deleting by id keeps the survivors in their original order |
| Connections.WithoutIdKeepsWellFormed | src/hooks/useConnections.js:30-32 | deleting by id keeps the store's invariant |
| Connections.WithoutNode | src/hooks/useConnections.js:34-38 | deleting by node keeps exactly the connections not touching it |
| Connections.WithoutNodeKeepsOrder | src/hooks/useConnections.js:34-38 | deleting by node keeps the survivors in their original order |
| Connections.WithoutNodeUntouched | src/hooks/useConnections.js:34-38 | deleting a node no connection touches changes nothing |
| Connections.WithoutNodeKeepsWellFormed | src/hooks/useConnections.js:34-38 | deleting by node keeps the store's invariant |
| Connections.ClickOutcome | src/hooks/useConnections.js:69-85 | a click pends the clicked node exactly when none was pending, and tries the link from the pending node to the clicked one exactly when another node was pending |
| Connections.ClickSequences | src/hooks/useConnections.js:69-85 | clicking a node twice returns to no pending node and no link; clicking a then b tries a–b |
| Connections.ConnectionStore.constructor | src/hooks/useConnections.js:5-7 | empty list, no drag, nothing pending |
| Connections.ConnectionStore.AddConnection | src/hooks/useConnections.js:9-28 | returns the new link or none; appends exactly it and keeps the invariant; drag and pending unchanged |
| Connections.ConnectionStore.DeleteConnection | src/hooks/useConnections.js:30-32 | removes only the connections with that id |
| Connections.ConnectionStore.DeleteConnectionsByNode | src/hooks/useConnections.js:34-38 | no connection touches the node afterwards; the others stay in order |
| Connections.ConnectionStore.ClearAllConnections | src/hooks/useConnections.js:40-43 | empties the list and the drag slot but keeps the pending click |
| Connections.ConnectionStore.StartDragConnection | src/hooks/useConnections.js:45-50 | the drag slot holds the start node and the pointer position |
| Connections.ConnectionStore.UpdateDragConnection | src/hooks/useConnections.js:52-56 | does nothing with no drag; otherwise changes only the drag's current position |
| Connections.ConnectionStore.CompleteDragConnection | src/hooks/useConnections.js:58-63 | always clears the drag; adds a link from the drag's start only when there is a drag from another node |
| Connections.ConnectionStore.CancelDragConnection | src/hooks/useConnections.js:65-67 | always clears the drag and nothing else |
| Connections.ConnectionStore.SelectNodeForConnection | src/hooks/useConnections.js:69-85 | three-way toggle: pend the node, un-pend it, or try the link and clear the slot whether or not it was added |
| Connections.ConnectionStore.ClearConnectionSelection | src/hooks/useConnections.js:87-89 | clears the pending click and nothing else |
| Nodes.Positions | src/hooks/useNodes.js:11 | the positions list has one entry per node, in order, each that node's position |
| Nodes.CountOfKind | src/hooks/useNodes.js:12 | the count of a type is zero exactly when no node has that type |
| Nodes.CountOfKindAppend | src/hooks/useNodes.js:12 | appending a node raises the count of its own type by one and no other count |
| Nodes.DecimalRoundTrip | src/hooks/useNodes.js:29 | the printed count reads back as the count |
| Nodes.DefaultLabelParts | src/hooks/useNodes.js:29 | a label is the type's name, a space and the count in decimal |
| Nodes.DefaultLabelsDistinct | src/hooks/useNodes.js:29 | two nodes of one type with different counts get different labels |
| Nodes.FindNode | src/hooks/useNodes.js:89-91 | returns the first node with the id, or none exactly when no node has it |
| Nodes.WithoutNodeId | src/hooks/useNodes.js:65-66 | deleting keeps exactly the nodes with another id |
| Nodes.WithoutNodeIdKeepsOrder | src/hooks/useNodes.js:65-66 | deleting keeps the other nodes in their original order |
| Nodes.WithoutNodeIdKeepsDistinct | src/hooks/useNodes.js:65-66 | deleting keeps ids distinct |
| Nodes.WithoutNodeIdIds | src/hooks/useNodes.js:65-66 | the ids left are the old ones without the deleted id |
| Nodes.Relabeled | src/hooks/useNodes.js:72-76 | relabelling changes only the label of nodes with that id; length and order are kept |
| Nodes.Moved | src/hooks/useNodes.js:78-82 | moving changes only the position of nodes with that id; length and order are kept |
| Nodes.UpdatesKeepIds | src/hooks/useNodes.js:72-82 | relabelling and moving keep the set of ids and their distinctness |
| Nodes.NodeStore.constructor | src/hooks/useNodes.js:6-8 | no nodes, no selection, no dragged node |
| Nodes.NodeStore.AddNode | src/hooks/useNodes.js:10-63 | fails with no change exactly for an unknown type; otherwise appends one node with the fresh id, the type, label "{TypeName} {count+1}", the table's presentation fields and the type-based position |
| Nodes.NodeStore.DeleteNode | src/hooks/useNodes.js:65-70 | no node has the id afterwards, others kept in order; the selection is cleared exactly when it had the id |
| Nodes.NodeStore.UpdateNodeLabel | src/hooks/useNodes.js:72-76 | only the matching nodes' labels change; ids, selection and dragged node are kept |
| Nodes.NodeStore.UpdateNodePosition | src/hooks/useNodes.js:78-82 | only the matching nodes' positions change; ids, selection and dragged node are kept |
| Nodes.NodeStore.MoveNode | src/hooks/useNodes.js:101-103 | the same change as updating the position |
| Nodes.NodeStore.ClearAllNodes | src/hooks/useNodes.js:84-87 | empties the list and the selection and keeps the dragged node |
| Nodes.NodeStore.GetNodeById | src/hooks/useNodes.js:89-91 | a node with the id when there is one, none otherwise; it never fails |
| Nodes.NodeStore.SetSelectedNode | src/hooks/useNodes.js:7 | sets only the selection |
| Nodes.NodeStore.StartNodeDrag | src/hooks/useNodes.js:93-95 | sets the dragged node and leaves the list and the selection alone |
| Nodes.NodeStore.StopNodeDrag | src/hooks/useNodes.js:97-99 | clears the dragged node and leaves the list and the selection alone |
| Scene.NextMode | src/hooks/use3DScene.js:17-23 | a toggle always changes the mode |
| Scene.ToggleCycle | src/hooks/use3DScene.js:17-23 | three toggles return to the start, two do not, and the cycle visits all three modes |
| Scene.SceneController.constructor | src/hooks/use3DScene.js:11-13 | starts in connection mode at the default camera position with auto-rotate on |
| Scene.SceneController.ToggleMode | src/hooks/use3DScene.js:17-23 | advances the mode and changes neither the camera position nor auto-rotate |
| Scene.SceneController.ResetCamera | src/hooks/use3DScene.js:25-32 | sets the camera position to the default (15,15,15) and nothing else |
| Scene.SceneController.SetCameraPreset | src/hooks/use3DScene.js:34-45 | the table entry for a known name, the default entry otherwise; mode and auto-rotate are kept |
| Scene.SceneController.ToggleAutoRotate | src/hooks/use3DScene.js:65-67 | flips only the auto-rotate flag |
| Scene.SceneController.EnableConnectionMode | src/hooks/use3DScene.js:69-71 | connection mode whatever the mode was |
| Scene.SceneController.EnableMoveMode | src/hooks/use3DScene.js:73-75 | move mode whatever the mode was |
| Scene.SceneController.EnableCameraMode | src/hooks/use3DScene.js:77-79 | camera mode whatever the mode was |
| Scene.ToggleRoundTrips | src/hooks/use3DScene.js:17-67 | three mode toggles and two auto-rotate toggles restore the whole controller state |
| Gestures.PointerDownRequests | src/components/Scene3D.js:26-45 | every callback a press issues is about the pressed node, and there is at least one |
| Gestures.PointerUpRequests | src/components/Scene3D.js:47-54 | a release issues at most one callback, about the released node |
| Gestures.PointerDownRouting | src/components/Scene3D.js:35-44 | in connection mode a press only selects for connection; in other modes it selects the node, and starts a move exactly in move mode |
| Gestures.PointerUpRouting | src/components/Scene3D.js:47-54 | a release completes a drag exactly in connection mode with a handler, stops a move exactly in move mode, and does nothing in camera mode |
| Gestures.OrbitEnabled | src/components/Scene3D.js:470 | orbiting is on only in camera mode, never while a node is being dragged, and always in camera mode with no dragged node |
| Gestures.OrbitExcludesNodeGestures | src/components/Scene3D.js:470 | orbit is on exactly in camera mode with no dragged node; then node presses and releases never connect or move |
| Gestures.CompletesDragOnlyElsewhere | src/components/Scene3D.js:375 | releasing on the drag's own start node, outside connection mode or with no drag never completes a drag |
| Gestures.DragState.constructor | src/components/Scene3D.js:363-364 | not dragging and no start node |
| Gestures.DragState.HandleNodePointerDown | src/components/Scene3D.js:366-372 | only connection mode starts a drag, both locally and in the connection store |
| Gestures.DragState.HandleNodePointerUp | src/components/Scene3D.js:374-380 | completes the drag only under the guard; always resets the local drag state |
| Gestures.DragState.HandleCanvasPointerUp | src/components/Scene3D.js:386-395 | cancels any connection drag and stops any node drag |
| App.CascadeKeepsLinked | src/App.js:63-66 | the corrected cascade delete, which also drops every slot naming the node, keeps every reference pointing at an existing node |
| App.AsWrittenDeleteKeepsLinked | src/App.js:63-66 | the cascade delete as written keeps referential integrity exactly when neither the pending click, the connection drag nor the node move names the deleted node |
| App.AsWrittenDeleteDangles | src/App.js:63-66 | the cascade delete as written leaves any slot naming the deleted node naming it still |
| App.AddNodeKeepsLinked | src/App.js:59-61 | adding a node keeps referential integrity |
| App.ClickKeepsLinked | src/hooks/useConnections.js:69-85 | a click on an existing node keeps referential integrity in all three branches |
| App.KeyCommands | src/App.js:97-146 | each key press issues at most one command |
| App.EscapeKey | src/App.js:99-105 | Escape cancels a drag if there is one, otherwise clears the pending click, and never does both |
| App.DeleteKey | src/App.js:143-145 | Delete removes a node exactly when one is selected, and then that node; only Escape depends on the drag and the pending click |
| App.KeyBindings | src/App.js:107-140 | space toggles the mode, r/R resets, +/= and -/_ zoom to 5 and 50, t/f/b choose top/front/bird, 1/2/3 add PARENT/CHILD/SUBPROCESS |
| App.Editor.constructor | src/App.js:14-56 | fresh stores in their initial states, with referential integrity |
| App.Editor.HandleAddNode | src/App.js:59-61 | the node store's add, with its label, presentation fields and type-based position, keeping referential integrity |
| App.Editor.HandleDeleteNode | src/App.js:63-66 | as written: the node and its connections go but every slot is kept; integrity is kept exactly when no slot names the node |
| App.Editor.RemoveNodeCascade | src/App.js:63-66 | the corrected cascade also drops the pending click, a drag from the node and a move of it, and keeps referential integrity |
| App.Editor.HandleClearAll | src/App.js:90-93 | as written: nodes, selection, connections and drag are emptied, but the pending click and dragged node are kept; integrity holds afterwards exactly when neither was set |
| App.Editor.ClearAll | src/App.js:90-93 | the corrected clear-all also drops the pending click and the dragged node, so the empty editor refers to no node |
| App.Editor.Execute | src/App.js:97-146 | each keyboard command makes exactly its own store change; Delete is the as-written delete, and integrity is kept by every command except a Delete of a node a slot names, which breaks it |
| App.Editor.HandleKeyPress | src/App.js:97-146 | carries out the key's command in the current state; keys without a binding change nothing; integrity is broken exactly by Delete of a selected node that a slot names |
| App.Editor.Dispatch | src/components/Scene3D.js:440-454 | each node callback reaches the store handler it is wired to, with the whole new state of both stores and the drag state |
| App.Editor.NodePointerDown | src/components/Scene3D.js:26-45 | connection mode toggles the pending click; other modes select the node, and move mode also starts its drag |
| App.Editor.NodePointerUp | src/components/Scene3D.js:47-54 | connection mode resets the local drag and completes the store's drag under the guard; move mode stops the node drag; camera mode changes nothing |
| App.Editor.CanvasPointerUp | src/components/Scene3D.js:386-395 | no connection drag and no node drag remain; the local drag state is reset when a connection drag was under way; lists and selections are kept |
| App.DanglingAfterDelete | src/App.js:63-66 | pend a, delete a, add b and click b: a link to the deleted a is stored |
| App.DanglingAfterClearAll | src/App.js:90-93 | pend a, clear all, add b and click b: a link to the removed a is stored |

## Left out

- Rendering is not modelled: meshes, animations, lights, the background, link curves (`createCurvedLine`), light positions, cursors and the panels.
- `zoomTo` and `focusOnPoint` only move the external orbit-controls object. A zoom key therefore changes no modelled state. The same holds for the controls calls inside `resetCamera` and `setCameraPreset`.
- The browser I/O is left out: the window key listener, `preventDefault` on the space key, and the `DragHelper` pointer-to-plane raycasting. A node move is an input command (`MoveNode`).
- Numbers are reals, not IEEE doubles. `Math.random()` values are the parameter `Draws`, and cosine/sine are the parameter `Circle`. Floating-point rounding is not modelled.
- Id generation reads the clock and random numbers. Fresh ids are parameters that are required to be unused.
- Console logging is left out. So are the duplicate-id and overlapping-position checks in `addNode`, which only log.
- React semantics are left out. Each handler is one atomic transition on the current state, so stale closures and batched state updates are not modelled.
- Nodes.NodeStore.AddNode: a key such as `constructor` that JavaScript finds on every object's prototype is treated as an unknown type.
- Placement.CameraPreset: a key such as `constructor` that JavaScript finds on every object's prototype is treated as an unknown name.
- Connections.ConnectionStore.StartDragConnection takes the position explicitly. The source's default of [0,0,0] is not modelled.
- Gestures.DragState.HandleNodePointerDown is modelled, but no editor gesture calls it. This matches the source: the scene hands it to each node as `onStartDrag`, which the node never calls. As a result `isDragging` stays false, and a node release in connection mode only resets the local drag state.
- The other App handlers pass their arguments straight to a store (edit label, select node, delete connection, start or complete a drag). They are modelled by the store methods they call.

## Findings

| source | as written | input that shows it | evidently intended | confidence | as-written member | corrected member |
|---|---|---|---|---|---|---|
| src/App.js:63-66 | deleting a node removes its connections and the node but keeps a click-to-connect pending on it | in connection mode add node a and click it, delete a, add node b and click it: link a–b is stored although a no longer exists, and the list panel hides it so it cannot be deleted | the pending click, a connection drag from the node and a move of it are dropped with the node, so no reference to it survives | high; not executed | App.DanglingAfterDelete | App.Editor.RemoveNodeCascade |
| src/App.js:90-93 | clear-all empties nodes and connections but keeps a click-to-connect pending | in connection mode add node a and click it, clear all, add node b and click it: link a–b is stored although a no longer exists | clear-all also drops the pending click and the dragged node, so the empty editor refers to no node | high; not executed | App.DanglingAfterClearAll | App.Editor.ClearAll |

The editor's handlers, the keyboard commands included, keep the code as written;
`App.Editor.RemoveNodeCascade` and `App.Editor.ClearAll` are the corrected operations, proved
to keep referential integrity where the as-written ones break it.
