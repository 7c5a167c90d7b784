/** The coordinator of src/App.js: it owns the node store, the connection
    store, the scene controller and the scene's local drag state, and runs
    the cascade delete, clear-all, the keyboard shortcuts and the node and
    canvas pointer gestures on them. */
module App {
  import opened Common
  import opened Scene
  import NodeTypes
  import Placement
  import Connections
  import Nodes
  import Gestures

  // ---------------------------------------------------------------------
  // Referential integrity

  /** Every connection endpoint, the node pending a click-to-connect, the
      start of a connection drag and the node being moved are ids of nodes
      that exist. */
  predicate Linked(ns: seq<Nodes.Node>, cs: seq<Connections.Connection>,
                   pending: Option<string>, drag: Option<Connections.DragConnection>,
                   dragged: Option<string>)
  {
    && (forall c :: c in cs ==> c.fromNodeId in Nodes.Ids(ns) && c.toNodeId in Nodes.Ids(ns))
    && (pending.Some? ==> pending.value in Nodes.Ids(ns))
    && (drag.Some? ==> drag.value.fromNodeId in Nodes.Ids(ns))
    && (dragged.Some? ==> dragged.value in Nodes.Ids(ns))
  }

  /** Whether one of the three single-node slots names nodeId. */
  predicate NamedInSlots(pending: Option<string>, drag: Option<Connections.DragConnection>,
                         dragged: Option<string>, nodeId: string)
  {
    pending == Some(nodeId) || (drag.Some? && drag.value.fromNodeId == nodeId) || dragged == Some(nodeId)
  }

  /** A pending slot with the removed node dropped. */
  function Forget(pending: Option<string>, nodeId: string): (r: Option<string>)
    ensures r.Some? ==> r.value != nodeId && r == pending
    ensures pending.Some? && pending.value != nodeId ==> r == pending
  {
    if pending == Some(nodeId) then None else pending
  }

  /** A connection drag with one from the removed node dropped. */
  function ForgetDrag(drag: Option<Connections.DragConnection>, nodeId: string): (r: Option<Connections.DragConnection>)
    ensures r.Some? ==> r.value.fromNodeId != nodeId && r == drag
    ensures drag.Some? && drag.value.fromNodeId != nodeId ==> r == drag
  {
    if drag.Some? && drag.value.fromNodeId == nodeId then None else drag
  }

  /** Removing a node together with its connections and every slot that
      names it keeps every reference pointing at an existing node. */
  lemma CascadeKeepsLinked(ns: seq<Nodes.Node>, cs: seq<Connections.Connection>,
                           pending: Option<string>, drag: Option<Connections.DragConnection>,
                           dragged: Option<string>, nodeId: string)
    requires Linked(ns, cs, pending, drag, dragged)
    ensures Linked(Nodes.WithoutNodeId(ns, nodeId), Connections.WithoutNode(cs, nodeId),
                   Forget(pending, nodeId), ForgetDrag(drag, nodeId), Forget(dragged, nodeId))
  {
    Nodes.WithoutNodeIdIds(ns, nodeId);
  }

  /** handleDeleteNode as written removes the node and its connections but
      no slot: the references stay valid exactly when no slot names the
      node. */
  lemma AsWrittenDeleteKeepsLinked(ns: seq<Nodes.Node>, cs: seq<Connections.Connection>,
                                   pending: Option<string>, drag: Option<Connections.DragConnection>,
                                   dragged: Option<string>, nodeId: string)
    requires Linked(ns, cs, pending, drag, dragged)
    ensures Linked(Nodes.WithoutNodeId(ns, nodeId), Connections.WithoutNode(cs, nodeId), pending, drag, dragged)
            <==> !NamedInSlots(pending, drag, dragged, nodeId)
  {
    if !NamedInSlots(pending, drag, dragged, nodeId) {
      CascadeKeepsLinked(ns, cs, pending, drag, dragged, nodeId);
    } else {
      AsWrittenDeleteDangles(ns, cs, pending, drag, dragged, nodeId);
    }
  }

  /** handleDeleteNode as written: when a slot names the deleted node, it
      still names it afterwards. */
  lemma AsWrittenDeleteDangles(ns: seq<Nodes.Node>, cs: seq<Connections.Connection>,
                               pending: Option<string>, drag: Option<Connections.DragConnection>,
                               dragged: Option<string>, nodeId: string)
    requires NamedInSlots(pending, drag, dragged, nodeId)
    ensures !Linked(Nodes.WithoutNodeId(ns, nodeId), Connections.WithoutNode(cs, nodeId), pending, drag, dragged)
  {
    Nodes.WithoutNodeIdIds(ns, nodeId);
  }

  /** Appending a node keeps every reference valid. */
  lemma AddNodeKeepsLinked(ns: seq<Nodes.Node>, cs: seq<Connections.Connection>,
                           pending: Option<string>, drag: Option<Connections.DragConnection>,
                           dragged: Option<string>, n: Nodes.Node)
    requires Linked(ns, cs, pending, drag, dragged)
    ensures Linked(ns + [n], cs, pending, drag, dragged)
  {
    Nodes.IdsAppend(ns, n);
  }

  /** Adding a connection between two existing nodes keeps every reference
      valid. */
  lemma AddLinkKeepsLinked(ns: seq<Nodes.Node>, cs: seq<Connections.Connection>,
                           pending: Option<string>, drag: Option<Connections.DragConnection>,
                           dragged: Option<string>, a: string, b: string, id: string)
    requires Linked(ns, cs, pending, drag, dragged)
    requires a in Nodes.Ids(ns) && b in Nodes.Ids(ns)
    ensures Linked(ns, Connections.AfterAdd(cs, a, b, id), pending, drag, dragged)
  {
    var r := Connections.NewConnection(cs, a, b, id);
    if r.Some? {
      forall c | c in cs + [r.value] ensures c.fromNodeId in Nodes.Ids(ns) && c.toNodeId in Nodes.Ids(ns) {
        if c !in cs {
          assert c == r.value;
        }
      }
    }
  }

  /** A click on an existing node keeps every reference valid, whichever of
      the three toggle branches it takes. */
  lemma ClickKeepsLinked(ns: seq<Nodes.Node>, cs: seq<Connections.Connection>,
                         pending: Option<string>, drag: Option<Connections.DragConnection>,
                         dragged: Option<string>, clicked: string, id: string)
    requires Linked(ns, cs, pending, drag, dragged)
    requires clicked in Nodes.Ids(ns)
    ensures var o := Connections.ClickOutcome(pending, clicked);
      Linked(ns, if o.attempt.Some? then Connections.AfterAdd(cs, o.attempt.value.0, o.attempt.value.1, id) else cs,
             o.pending, drag, dragged)
  {
    var o := Connections.ClickOutcome(pending, clicked);
    if o.attempt.Some? {
      AddLinkKeepsLinked(ns, cs, None, drag, dragged, pending.value, clicked, id);
    }
  }

  // ---------------------------------------------------------------------
  // Keyboard shortcuts

  /** What a key press asks for. */
  datatype Command =
    | CancelDrag
    | ClearPending
    | ToggleMode
    | ResetCamera
    | ZoomTo(distance: int)
    | SetPreset(presetName: string)
    | AddNode(nodeType: string)
    | DeleteNode(nodeId: string)

  /** The id of the selected node, if one is selected. */
  function SelectedId(selected: Option<Nodes.Node>): (r: Option<string>)
    ensures r.Some? <==> selected.Some?
    ensures r.Some? ==> r.value == selected.value.id
  {
    if selected.Some? then Some(selected.value.id) else None
  }

  /** The independent tests of handleKeyPress, in order, each contributing
      the command it issues. */
  function KeyCommands(key: string, dragActive: bool, pendingSet: bool, selected: Option<string>): (r: seq<Command>)
    ensures |r| <= 1
  {
    (if key == "Escape" then (if dragActive then [CancelDrag] else if pendingSet then [ClearPending] else []) else [])
    + (if key == " " then [ToggleMode] else [])
    + (if key == "r" || key == "R" then [ResetCamera] else [])
    + (if key == "+" || key == "=" then [ZoomTo(5)] else [])
    + (if key == "-" || key == "_" then [ZoomTo(50)] else [])
    + (if key == "t" || key == "T" then [SetPreset("top")] else [])
    + (if key == "f" || key == "F" then [SetPreset("front")] else [])
    + (if key == "b" || key == "B" then [SetPreset("bird")] else [])
    + (if key == "1" then [AddNode("PARENT")] else [])
    + (if key == "2" then [AddNode("CHILD")] else [])
    + (if key == "3" then [AddNode("SUBPROCESS")] else [])
    + (if key == "Delete" && selected.Some? then [DeleteNode(selected.value)] else [])
  }

  /** Escape cancels a drag in preference to clearing the pending click, and
      never does both; with neither active it does nothing. */
  lemma EscapeKey(dragActive: bool, pendingSet: bool, selected: Option<string>)
    ensures dragActive ==> KeyCommands("Escape", dragActive, pendingSet, selected) == [CancelDrag]
    ensures !dragActive && pendingSet ==> KeyCommands("Escape", dragActive, pendingSet, selected) == [ClearPending]
    ensures !dragActive && !pendingSet ==> KeyCommands("Escape", dragActive, pendingSet, selected) == []
    ensures !(CancelDrag in KeyCommands("Escape", dragActive, pendingSet, selected) &&
              ClearPending in KeyCommands("Escape", dragActive, pendingSet, selected))
  {
  }

  /** Delete removes a node exactly when one is selected, and then that one;
      no other key removes a node, and only Escape looks at the drag and the
      pending click. */
  lemma DeleteKey(key: string, dragActive: bool, pendingSet: bool, selected: Option<string>, nodeId: string)
    ensures DeleteNode(nodeId) in KeyCommands(key, dragActive, pendingSet, selected) <==>
      key == "Delete" && selected == Some(nodeId)
    ensures key == "Delete" && selected.None? ==> KeyCommands(key, dragActive, pendingSet, selected) == []
    ensures key != "Escape" ==> KeyCommands(key, dragActive, pendingSet, selected) == KeyCommands(key, false, false, selected)
  {
  }

  /** The remaining bindings, in both letter cases where the source
      accepts both. */
  lemma KeyBindings(key: string, dragActive: bool, pendingSet: bool, selected: Option<string>)
    ensures key == " " ==> KeyCommands(key, dragActive, pendingSet, selected) == [ToggleMode]
    ensures key in {"r", "R"} ==> KeyCommands(key, dragActive, pendingSet, selected) == [ResetCamera]
    ensures key in {"+", "="} ==> KeyCommands(key, dragActive, pendingSet, selected) == [ZoomTo(5)]
    ensures key in {"-", "_"} ==> KeyCommands(key, dragActive, pendingSet, selected) == [ZoomTo(50)]
    ensures key in {"t", "T"} ==> KeyCommands(key, dragActive, pendingSet, selected) == [SetPreset("top")]
    ensures key in {"f", "F"} ==> KeyCommands(key, dragActive, pendingSet, selected) == [SetPreset("front")]
    ensures key in {"b", "B"} ==> KeyCommands(key, dragActive, pendingSet, selected) == [SetPreset("bird")]
    ensures key == "1" ==> KeyCommands(key, dragActive, pendingSet, selected) == [AddNode("PARENT")]
    ensures key == "2" ==> KeyCommands(key, dragActive, pendingSet, selected) == [AddNode("CHILD")]
    ensures key == "3" ==> KeyCommands(key, dragActive, pendingSet, selected) == [AddNode("SUBPROCESS")]
  {
  }

  // ---------------------------------------------------------------------
  // The editor

  class Editor {
    const nodes: Nodes.NodeStore
    const links: Connections.ConnectionStore
    const scene: SceneController
    const drag: Gestures.DragState

    ghost predicate Valid()
      reads this, nodes, links, drag
    {
      nodes.Valid() && links.Valid() && drag.Valid()
    }

    /** Every connection and every single-node slot names an existing node. */
    ghost predicate Integrity()
      reads this, nodes, links
    {
      Linked(nodes.nodes, links.connections, links.selectedForConnection, links.dragConnection, nodes.draggedNode)
    }

    /** The pending click, the connection drag or the node move names nodeId. */
    ghost predicate SlotsName(nodeId: string)
      reads this, nodes, links
    {
      NamedInSlots(links.selectedForConnection, links.dragConnection, nodes.draggedNode, nodeId)
    }

    constructor ()
      ensures Valid() && Integrity()
      ensures fresh(nodes) && fresh(links) && fresh(scene) && fresh(drag)
      ensures nodes.nodes == [] && nodes.selectedNode == None && nodes.draggedNode == None
      ensures links.connections == [] && links.dragConnection == None && links.selectedForConnection == None
      ensures scene.mode == ConnectionMode && scene.cameraPosition == Placement.CameraDefaultPosition() && scene.autoRotate
      ensures !drag.isDragging && drag.dragStartNode == None
    {
      nodes := new Nodes.NodeStore();
      links := new Connections.ConnectionStore();
      scene := new SceneController();
      drag := new Gestures.DragState();
    }

    /** The state handleDeleteNode as written leaves. */
    twostate predicate Deleted(nodeId: string)
      reads this, nodes, links
    {
      && nodes.nodes == Nodes.WithoutNodeId(old(nodes.nodes), nodeId)
      && nodes.selectedNode == (if old(nodes.selectedNode).Some? && old(nodes.selectedNode).value.id == nodeId then None else old(nodes.selectedNode))
      && nodes.draggedNode == old(nodes.draggedNode)
      && links.connections == Connections.WithoutNode(old(links.connections), nodeId)
      && links.selectedForConnection == old(links.selectedForConnection)
      && links.dragConnection == old(links.dragConnection)
    }

    /** The state a corrected cascade delete of nodeId leaves. */
    twostate predicate Cascaded(nodeId: string)
      reads this, nodes, links
    {
      && nodes.nodes == Nodes.WithoutNodeId(old(nodes.nodes), nodeId)
      && nodes.selectedNode == (if old(nodes.selectedNode).Some? && old(nodes.selectedNode).value.id == nodeId then None else old(nodes.selectedNode))
      && nodes.draggedNode == Forget(old(nodes.draggedNode), nodeId)
      && links.connections == Connections.WithoutNode(old(links.connections), nodeId)
      && links.selectedForConnection == Forget(old(links.selectedForConnection), nodeId)
      && links.dragConnection == ForgetDrag(old(links.dragConnection), nodeId)
    }

    /** The state a node of type nodeType appended as added leaves, or no
        change when the type is unknown. */
    twostate predicate Appended(nodeType: string, freshId: string, circle: Placement.Circle, rand: Placement.Draws,
                                new added: Option<Nodes.Node>)
      reads this, nodes
    {
      && (added.None? <==> NodeTypes.ParseKind(nodeType).None?)
      && (added.None? ==> nodes.nodes == old(nodes.nodes))
      && (added.Some? ==>
            var kind := NodeTypes.ParseKind(nodeType).value;
            var typeCount := Nodes.CountOfKind(old(nodes.nodes), kind) + 1;
            && nodes.nodes == old(nodes.nodes) + [added.value]
            && added.value.id == freshId && added.value.kind == kind
            && added.value.labelText == Nodes.DefaultLabel(kind, typeCount)
            && added.value.look == NodeTypes.Entry(kind).look
            && added.value.position == Placement.PlaceByType(kind, typeCount, Nodes.Positions(old(nodes.nodes)), circle, rand))
      && nodes.selectedNode == old(nodes.selectedNode) && nodes.draggedNode == old(nodes.draggedNode)
    }

    method HandleAddNode(nodeType: string, freshId: string, circle: Placement.Circle, rand: Placement.Draws)
      returns (r: Option<Nodes.Node>)
      requires Valid() && freshId !in Nodes.Ids(nodes.nodes)
      modifies nodes
      ensures Valid()
      ensures old(Integrity()) ==> Integrity()
      ensures Appended(nodeType, freshId, circle, rand, r)
    {
      ghost var before := nodes.nodes;
      ghost var ok := Integrity();
      r := nodes.AddNode(nodeType, freshId, circle, rand);
      if r.Some? && ok {
        AddNodeKeepsLinked(before, links.connections, links.selectedForConnection, links.dragConnection, nodes.draggedNode, r.value);
      }
    }

    /** handleDeleteNode as written: the node's connections, then the node.
        A slot naming the node survives it and then dangles (see
        DanglingAfterDelete); with no slot naming it, integrity is kept. */
    method HandleDeleteNode(nodeId: string)
      requires Valid()
      modifies nodes, links
      ensures Valid()
      ensures Deleted(nodeId)
      ensures nodeId !in Nodes.Ids(nodes.nodes)
      ensures forall c :: c in links.connections ==> !Connections.Touches(c, nodeId)
      ensures old(Integrity()) && !old(SlotsName(nodeId)) ==> Integrity()
      ensures old(SlotsName(nodeId)) ==> !Integrity()
    {
      ghost var ok := Integrity();
      ghost var named := SlotsName(nodeId);
      if ok {
        AsWrittenDeleteKeepsLinked(nodes.nodes, links.connections, links.selectedForConnection, links.dragConnection, nodes.draggedNode, nodeId);
      }
      if named {
        AsWrittenDeleteDangles(nodes.nodes, links.connections, links.selectedForConnection, links.dragConnection, nodes.draggedNode, nodeId);
      }
      links.DeleteConnectionsByNode(nodeId);
      nodes.DeleteNode(nodeId);
    }

    /** The cascade delete as intended: it also drops a click-to-connect
        pending on the node, a connection drag from it and a move of it, so
        that no reference to the node survives. */
    method RemoveNodeCascade(nodeId: string)
      requires Valid()
      modifies nodes, links
      ensures Valid()
      ensures Cascaded(nodeId)
      ensures nodeId !in Nodes.Ids(nodes.nodes)
      ensures forall c :: c in links.connections ==> !Connections.Touches(c, nodeId)
      ensures !SlotsName(nodeId)
      ensures old(Integrity()) ==> Integrity()
    {
      ghost var before := Integrity();
      if before {
        CascadeKeepsLinked(nodes.nodes, links.connections, links.selectedForConnection, links.dragConnection, nodes.draggedNode, nodeId);
      }
      links.DeleteConnectionsByNode(nodeId);
      nodes.DeleteNode(nodeId);
      if links.selectedForConnection == Some(nodeId) {
        links.ClearConnectionSelection();
      }
      if links.dragConnection.Some? && links.dragConnection.value.fromNodeId == nodeId {
        links.CancelDragConnection();
      }
      if nodes.draggedNode == Some(nodeId) {
        nodes.StopNodeDrag();
      }
    }

    /** handleClearAll as written: nodes and selection, then connections and
        the connection drag. The pending click-to-connect and the node move
        survive it (see DanglingAfterClearAll). */
    method HandleClearAll()
      requires Valid()
      modifies nodes, links
      ensures Valid()
      ensures nodes.nodes == [] && nodes.selectedNode == None
      ensures links.connections == [] && links.dragConnection == None
      ensures links.selectedForConnection == old(links.selectedForConnection)
      ensures nodes.draggedNode == old(nodes.draggedNode)
      ensures Integrity() <==> old(links.selectedForConnection).None? && old(nodes.draggedNode).None?
    {
      nodes.ClearAllNodes();
      links.ClearAllConnections();
    }

    /** Clear-all as intended: the pending click-to-connect and the node
        move go too, so the empty editor refers to no node. */
    method ClearAll()
      requires Valid()
      modifies nodes, links
      ensures Valid() && Integrity()
      ensures nodes.nodes == [] && nodes.selectedNode == None && nodes.draggedNode == None
      ensures links.connections == [] && links.dragConnection == None && links.selectedForConnection == None
    {
      HandleClearAll();
      links.ClearConnectionSelection();
      nodes.StopNodeDrag();
    }

    /** The state change a command makes; added is the node an AddNode
        command appended, if any. Delete is handleDeleteNode as written. */
    twostate predicate Performed(cmd: Command, freshId: string, circle: Placement.Circle, rand: Placement.Draws,
                                 new added: Option<Nodes.Node>)
      reads this, nodes, links, scene
    {
      match cmd
      case CancelDrag =>
        && links.dragConnection == None
        && links.connections == old(links.connections) && links.selectedForConnection == old(links.selectedForConnection)
        && unchanged(nodes, scene)
      case ClearPending =>
        && links.selectedForConnection == None
        && links.connections == old(links.connections) && links.dragConnection == old(links.dragConnection)
        && unchanged(nodes, scene)
      case ToggleMode =>
        && scene.mode == NextMode(old(scene.mode))
        && scene.cameraPosition == old(scene.cameraPosition) && scene.autoRotate == old(scene.autoRotate)
        && unchanged(nodes, links)
      case ResetCamera =>
        && scene.cameraPosition == Placement.CameraDefaultPosition()
        && scene.mode == old(scene.mode) && scene.autoRotate == old(scene.autoRotate)
        && unchanged(nodes, links)
      case ZoomTo(_) =>
        unchanged(nodes, links, scene)
      case SetPreset(presetName) =>
        && scene.cameraPosition == Placement.PresetOrDefault(presetName)
        && scene.mode == old(scene.mode) && scene.autoRotate == old(scene.autoRotate)
        && unchanged(nodes, links)
      case AddNode(nodeType) =>
        Appended(nodeType, freshId, circle, rand, added) && unchanged(links, scene)
      case DeleteNode(nodeId) =>
        Deleted(nodeId) && unchanged(scene)
    }

    /** Carries out one keyboard command. Every command but a Delete of a
        node some slot names keeps integrity; that one breaks it. */
    method Execute(cmd: Command, freshId: string, circle: Placement.Circle, rand: Placement.Draws)
      returns (added: Option<Nodes.Node>)
      requires Valid() && freshId !in Nodes.Ids(nodes.nodes)
      modifies nodes, links, scene
      ensures Valid()
      ensures Performed(cmd, freshId, circle, rand, added)
      ensures old(Integrity()) && !(cmd.DeleteNode? && old(SlotsName(cmd.nodeId))) ==> Integrity()
      ensures cmd.DeleteNode? && old(SlotsName(cmd.nodeId)) ==> !Integrity()
    {
      added := None;
      match cmd
      case CancelDrag =>
        links.CancelDragConnection();
      case ClearPending =>
        links.ClearConnectionSelection();
      case ToggleMode =>
        scene.ToggleMode();
      case ResetCamera =>
        scene.ResetCamera();
      case ZoomTo(_) =>
      case SetPreset(presetName) =>
        scene.SetCameraPreset(presetName);
      case AddNode(nodeType) =>
        added := HandleAddNode(nodeType, freshId, circle, rand);
      case DeleteNode(nodeId) =>
        HandleDeleteNode(nodeId);
    }

    /** handleKeyPress: the command the key asks for in the current state,
        carried out; keys without a binding change nothing. */
    method HandleKeyPress(key: string, freshId: string, circle: Placement.Circle, rand: Placement.Draws)
      returns (cmds: seq<Command>, added: Option<Nodes.Node>)
      requires Valid() && freshId !in Nodes.Ids(nodes.nodes)
      modifies nodes, links, scene
      ensures Valid()
      ensures cmds == KeyCommands(key, old(links.dragConnection).Some?, old(links.selectedForConnection).Some?, SelectedId(old(nodes.selectedNode)))
      ensures cmds == [] ==> unchanged(nodes, links, scene)
      ensures cmds != [] ==> Performed(cmds[0], freshId, circle, rand, added)
      ensures old(Integrity()) && !(key == "Delete" && old(nodes.selectedNode).Some? && old(SlotsName(nodes.selectedNode.value.id))) ==> Integrity()
      ensures key == "Delete" && old(nodes.selectedNode).Some? && old(SlotsName(nodes.selectedNode.value.id)) ==> !Integrity()
    {
      cmds := KeyCommands(key, links.dragConnection.Some?, links.selectedForConnection.Some?, SelectedId(nodes.selectedNode));
      added := None;
      if cmds != [] {
        added := Execute(cmds[0], freshId, circle, rand);
      }
    }

    // -------------------------------------------------------------------
    // Pointer gestures

    /** The state a pointer-up on nodeId leaves through handleNodePointerUp:
        the local drag state is reset, and when the guard holds the store's
        drag is completed, adding the connection from its start node. */
    twostate predicate ReleasedOn(nodeId: string, freshId: string)
      reads this, nodes, links, drag, scene
    {
      && !drag.isDragging && drag.dragStartNode == None
      && links.selectedForConnection == old(links.selectedForConnection)
      && (if Gestures.CompletesDrag(old(drag.isDragging), old(drag.dragStartNode), nodeId, scene.mode) then
            && links.dragConnection == None
            && links.connections ==
                 (if old(links.dragConnection).Some? && old(links.dragConnection).value.fromNodeId != nodeId
                  then Connections.AfterAdd(old(links.connections), old(links.dragConnection).value.fromNodeId, nodeId, freshId)
                  else old(links.connections))
          else
            links.connections == old(links.connections) && links.dragConnection == old(links.dragConnection))
      && unchanged(nodes)
    }

    /** Carries out one callback of a node, as the scene wires it. */
    method Dispatch(q: Gestures.Request, freshId: string)
      requires Valid() && freshId !in Connections.Ids(links.connections)
      requires q.SelectForConnection? || q.StartMove? || q.CompleteDrag? ==> q.nodeId in Nodes.Ids(nodes.nodes)
      modifies nodes, links, drag
      ensures Valid()
      ensures old(Integrity()) ==> Integrity()
      ensures q.SelectForConnection? ==>
        && links.selectedForConnection == Connections.ClickOutcome(old(links.selectedForConnection), q.nodeId).pending
        && (var o := Connections.ClickOutcome(old(links.selectedForConnection), q.nodeId);
            links.connections == if o.attempt.Some? then Connections.AfterAdd(old(links.connections), o.attempt.value.0, o.attempt.value.1, freshId) else old(links.connections))
        && links.dragConnection == old(links.dragConnection)
        && unchanged(nodes, drag)
      ensures q.SelectNode? ==>
        nodes.selectedNode == Some(q.node) && nodes.nodes == old(nodes.nodes) && nodes.draggedNode == old(nodes.draggedNode) && unchanged(links, drag)
      ensures q.StartMove? ==>
        nodes.draggedNode == Some(q.nodeId) && nodes.nodes == old(nodes.nodes) && nodes.selectedNode == old(nodes.selectedNode) && unchanged(links, drag)
      ensures q.StopMove? ==>
        nodes.draggedNode == None && nodes.nodes == old(nodes.nodes) && nodes.selectedNode == old(nodes.selectedNode) && unchanged(links, drag)
      ensures q.CompleteDrag? ==> ReleasedOn(q.nodeId, freshId)
    {
      ghost var ok := Integrity();
      match q
      case SelectForConnection(nodeId) =>
        if ok {
          ClickKeepsLinked(nodes.nodes, links.connections, links.selectedForConnection, links.dragConnection, nodes.draggedNode, nodeId, freshId);
        }
        links.SelectNodeForConnection(nodeId, freshId);
      case SelectNode(node) =>
        nodes.SetSelectedNode(Some(node));
      case StartMove(nodeId) =>
        nodes.StartNodeDrag(nodeId);
      case StopMove =>
        nodes.StopNodeDrag();
      case CompleteDrag(nodeId) =>
        if ok && links.dragConnection.Some? {
          AddLinkKeepsLinked(nodes.nodes, links.connections, links.selectedForConnection, None, nodes.draggedNode,
                             links.dragConnection.value.fromNodeId, nodeId, freshId);
        }
        drag.HandleNodePointerUp(nodeId, scene.mode, links, freshId);
    }

    /** A pointer-down on a rendered node: its callbacks, carried out in
        order. */
    method NodePointerDown(node: Nodes.Node, freshId: string)
      requires Valid() && node in nodes.nodes && freshId !in Connections.Ids(links.connections)
      modifies nodes, links, drag
      ensures Valid()
      ensures old(Integrity()) ==> Integrity()
      ensures scene.mode == ConnectionMode ==>
        && links.selectedForConnection == Connections.ClickOutcome(old(links.selectedForConnection), node.id).pending
        && (var o := Connections.ClickOutcome(old(links.selectedForConnection), node.id);
            links.connections == if o.attempt.Some? then Connections.AfterAdd(old(links.connections), o.attempt.value.0, o.attempt.value.1, freshId) else old(links.connections))
        && links.dragConnection == old(links.dragConnection)
        && unchanged(nodes, drag)
      ensures scene.mode != ConnectionMode ==>
        && nodes.selectedNode == Some(node) && nodes.nodes == old(nodes.nodes)
        && nodes.draggedNode == (if scene.mode == MoveMode then Some(node.id) else old(nodes.draggedNode))
        && unchanged(links, drag)
    {
      var reqs := Gestures.PointerDownRequests(scene.mode, node);
      assert node.id in Nodes.Ids(nodes.nodes);
      Dispatch(reqs[0], freshId);
      if |reqs| > 1 {
        Dispatch(reqs[1], freshId);
      }
    }

    /** A pointer-up on a rendered node; the scene always hands the node its
        complete-drag handler. */
    method NodePointerUp(node: Nodes.Node, freshId: string)
      requires Valid() && node in nodes.nodes && freshId !in Connections.Ids(links.connections)
      modifies nodes, links, drag
      ensures Valid()
      ensures old(Integrity()) ==> Integrity()
      ensures scene.mode == ConnectionMode ==> ReleasedOn(node.id, freshId)
      ensures scene.mode == MoveMode ==>
        && nodes.draggedNode == None && nodes.nodes == old(nodes.nodes) && nodes.selectedNode == old(nodes.selectedNode)
        && unchanged(links, drag)
      ensures scene.mode == CameraMode ==> unchanged(nodes, links, drag)
    {
      var reqs := Gestures.PointerUpRequests(scene.mode, node.id, true);
      assert node.id in Nodes.Ids(nodes.nodes);
      if reqs != [] {
        Dispatch(reqs[0], freshId);
      }
    }

    /** A pointer-up over empty canvas: any connection drag and any node move
        end; the local drag state is reset when a connection drag was under
        way in either place. */
    method CanvasPointerUp()
      requires Valid()
      modifies nodes, links, drag
      ensures Valid()
      ensures old(Integrity()) ==> Integrity()
      ensures links.dragConnection == None && nodes.draggedNode == None
      ensures old(drag.isDragging) || old(links.dragConnection).Some? ==> !drag.isDragging && drag.dragStartNode == None
      ensures !(old(drag.isDragging) || old(links.dragConnection).Some?) ==>
        drag.isDragging == old(drag.isDragging) && drag.dragStartNode == old(drag.dragStartNode)
      ensures links.connections == old(links.connections) && links.selectedForConnection == old(links.selectedForConnection)
      ensures nodes.nodes == old(nodes.nodes) && nodes.selectedNode == old(nodes.selectedNode)
    {
      drag.HandleCanvasPointerUp(links, nodes);
    }
  }

  // ---------------------------------------------------------------------
  // The dangling references

  /** Pend node a, delete it, add node b and click it: handleDeleteNode as
      written leaves a connection to the deleted a, which no node renders. */
  method DanglingAfterDelete() returns (e: Editor)
    ensures e.Valid() && !e.Integrity()
    ensures e.links.connections == [Connections.Connection("link-1", "node-a", "node-b")]
    ensures "node-a" !in Nodes.Ids(e.nodes.nodes)
  {
    var circle: Placement.Circle := (t: real) => (1.0, 0.0);
    var rand: Placement.Draws := (i: nat) => 0.5;
    e := new Editor();
    var a := e.HandleAddNode("PARENT", "node-a", circle, rand);
    e.NodePointerDown(a.value, "link-1");
    assert e.links.selectedForConnection == Some("node-a");
    e.HandleDeleteNode("node-a");
    assert e.nodes.nodes == [] && e.links.connections == [];
    var b := e.HandleAddNode("CHILD", "node-b", circle, rand);
    assert e.nodes.nodes == [b.value];
    e.NodePointerDown(b.value, "link-1");
    assert Nodes.Ids(e.nodes.nodes) == {"node-b"};
    assert e.links.connections[0] in e.links.connections;
  }

  /** The same through handleClearAll as written. */
  method DanglingAfterClearAll() returns (e: Editor)
    ensures e.Valid() && !e.Integrity()
    ensures e.links.connections == [Connections.Connection("link-1", "node-a", "node-b")]
    ensures "node-a" !in Nodes.Ids(e.nodes.nodes)
  {
    var circle: Placement.Circle := (t: real) => (1.0, 0.0);
    var rand: Placement.Draws := (i: nat) => 0.5;
    e := new Editor();
    var a := e.HandleAddNode("PARENT", "node-a", circle, rand);
    e.NodePointerDown(a.value, "link-1");
    assert e.links.selectedForConnection == Some("node-a");
    e.HandleClearAll();
    var b := e.HandleAddNode("CHILD", "node-b", circle, rand);
    assert e.nodes.nodes == [b.value];
    e.NodePointerDown(b.value, "link-1");
    assert Nodes.Ids(e.nodes.nodes) == {"node-b"};
    assert e.links.connections[0] in e.links.connections;
  }
}
