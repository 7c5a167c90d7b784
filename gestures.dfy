/** Pointer gestures of src/components/Scene3D.js: how a node's pointer-down
    and pointer-up are routed by mode, the scene's local connection-drag
    machine, and when the orbit controls are live. */
module Gestures {
  import opened Common
  import opened Scene
  import Connections
  import Nodes

  /** A callback a node issues to the scene. */
  datatype Request =
    | SelectForConnection(nodeId: string)
    | SelectNode(node: Nodes.Node)
    | StartMove(nodeId: string)
    | CompleteDrag(nodeId: string)
    | StopMove

  /** The callbacks a node's pointer-down issues, in order. */
  function PointerDownRequests(mode: Mode, node: Nodes.Node): (r: seq<Request>)
    ensures |r| >= 1
    ensures forall q :: q in r ==> q.SelectForConnection? ==> q.nodeId == node.id
    ensures forall q :: q in r ==> q.StartMove? ==> q.nodeId == node.id
    ensures forall q :: q in r ==> q.SelectNode? ==> q.node == node
  {
    if mode == ConnectionMode then [SelectForConnection(node.id)]
    else if mode == MoveMode then [SelectNode(node), StartMove(node.id)]
    else [SelectNode(node)]
  }

  /** The callbacks a node's pointer-up issues; hasCompleteDrag says whether
      the node was given a complete-drag handler. */
  function PointerUpRequests(mode: Mode, nodeId: string, hasCompleteDrag: bool): (r: seq<Request>)
    ensures |r| <= 1
    ensures forall q :: q in r ==> q.CompleteDrag? ==> q.nodeId == nodeId
  {
    if mode == ConnectionMode && hasCompleteDrag then [CompleteDrag(nodeId)]
    else if mode == MoveMode then [StopMove]
    else []
  }

  /** In connection mode a pointer-down only asks to select for connection:
      it neither selects the node nor starts a move. Elsewhere it selects the
      node, and it starts a move exactly in move mode. */
  lemma PointerDownRouting(mode: Mode, node: Nodes.Node)
    ensures mode == ConnectionMode ==> PointerDownRequests(mode, node) == [SelectForConnection(node.id)]
    ensures (exists q :: q in PointerDownRequests(mode, node) && q.SelectNode?) <==> mode != ConnectionMode
    ensures StartMove(node.id) in PointerDownRequests(mode, node) <==> mode == MoveMode
    ensures mode != ConnectionMode ==> PointerDownRequests(mode, node)[0] == SelectNode(node)
  {
    if mode != ConnectionMode {
      assert PointerDownRequests(mode, node)[0] == SelectNode(node);
    }
  }

  /** A pointer-up completes a connection drag only in connection mode and
      stops a node move only in move mode; camera mode issues nothing. */
  lemma PointerUpRouting(mode: Mode, nodeId: string, hasCompleteDrag: bool)
    ensures CompleteDrag(nodeId) in PointerUpRequests(mode, nodeId, hasCompleteDrag) <==> mode == ConnectionMode && hasCompleteDrag
    ensures StopMove in PointerUpRequests(mode, nodeId, hasCompleteDrag) <==> mode == MoveMode
    ensures mode == CameraMode ==> PointerUpRequests(mode, nodeId, hasCompleteDrag) == []
  {
  }

  /** The `enabled` rule of the orbit controls: only camera mode orbits,
      and a node being dragged turns orbiting off. */
  function OrbitEnabled(mode: Mode, draggedNode: Option<string>): (enabled: bool)
    ensures enabled ==> mode == CameraMode
    ensures draggedNode.Some? ==> !enabled
    ensures mode == CameraMode && draggedNode.None? ==> enabled
  {
    mode == CameraMode && draggedNode.None?
  }

  /** Orbiting and node gestures never compete: whenever the orbit controls
      are live, a node press neither selects for connection nor starts a
      move, and a node release issues nothing; a node being dragged turns
      orbiting off in every mode. */
  lemma OrbitExcludesNodeGestures(mode: Mode, draggedNode: Option<string>, node: Nodes.Node, hasCompleteDrag: bool)
    ensures OrbitEnabled(mode, draggedNode) ==>
      forall q :: q in PointerDownRequests(mode, node) ==> !q.SelectForConnection? && !q.StartMove?
    ensures OrbitEnabled(mode, draggedNode) ==> PointerUpRequests(mode, node.id, hasCompleteDrag) == []
    ensures draggedNode.Some? ==> !OrbitEnabled(mode, draggedNode)
    ensures OrbitEnabled(mode, draggedNode) <==> mode == CameraMode && draggedNode.None?
  {
  }

  /** The scene's local drag state: whether a connection drag started on a
      node and which node it started on. */
  class DragState {
    var isDragging: bool
    var dragStartNode: Option<string>

    /** The two fields are set and reset together. */
    ghost predicate Valid()
      reads this
    {
      isDragging <==> dragStartNode.Some?
    }

    constructor ()
      ensures Valid()
      ensures !isDragging && dragStartNode == None
    {
      isDragging := false;
      dragStartNode := None;
    }

    /** handleNodePointerDown: only connection mode starts a drag, both here
        and in the connection store. */
    method HandleNodePointerDown(nodeId: string, position: Vec3, mode: Mode, links: Connections.ConnectionStore)
      requires Valid()
      modifies this, links
      ensures Valid()
      ensures mode == ConnectionMode ==>
        && isDragging && dragStartNode == Some(nodeId)
        && links.dragConnection == Some(Connections.DragConnection(nodeId, position))
      ensures mode != ConnectionMode ==>
        isDragging == old(isDragging) && dragStartNode == old(dragStartNode) && links.dragConnection == old(links.dragConnection)
      ensures links.connections == old(links.connections) && links.selectedForConnection == old(links.selectedForConnection)
    {
      if mode == ConnectionMode {
        isDragging := true;
        dragStartNode := Some(nodeId);
        links.StartDragConnection(nodeId, position);
      }
    }

    /** handleNodePointerUp: the drag is completed on this node only when a
        drag is under way from another node in connection mode; the local
        drag state is reset in every case. */
    method HandleNodePointerUp(nodeId: string, mode: Mode, links: Connections.ConnectionStore, freshId: string)
      requires Valid() && links.Valid() && freshId !in Connections.Ids(links.connections)
      modifies this, links
      ensures Valid() && links.Valid()
      ensures !isDragging && dragStartNode == None
      ensures CompletesDrag(old(isDragging), old(dragStartNode), nodeId, mode) ==>
        && links.dragConnection == None
        && (old(links.dragConnection).Some? && old(links.dragConnection).value.fromNodeId != nodeId ==>
              links.connections == Connections.AfterAdd(old(links.connections), old(links.dragConnection).value.fromNodeId, nodeId, freshId))
        && (old(links.dragConnection).None? || old(links.dragConnection).value.fromNodeId == nodeId ==>
              links.connections == old(links.connections))
      ensures !CompletesDrag(old(isDragging), old(dragStartNode), nodeId, mode) ==>
        links.connections == old(links.connections) && links.dragConnection == old(links.dragConnection)
      ensures links.selectedForConnection == old(links.selectedForConnection)
    {
      if CompletesDrag(isDragging, dragStartNode, nodeId, mode) {
        links.CompleteDragConnection(nodeId, freshId);
      }
      isDragging := false;
      dragStartNode := None;
    }

    /** handleCanvasPointerUp: releasing over empty space cancels any
        connection drag, here and in the store, and stops any node drag. */
    method HandleCanvasPointerUp(links: Connections.ConnectionStore, nodes: Nodes.NodeStore)
      requires Valid()
      modifies this, links, nodes
      ensures Valid()
      ensures links.dragConnection == None && nodes.draggedNode == None
      ensures old(isDragging) || old(links.dragConnection).Some? ==> !isDragging && dragStartNode == None
      ensures !(old(isDragging) || old(links.dragConnection).Some?) ==> isDragging == old(isDragging) && dragStartNode == old(dragStartNode)
      ensures links.connections == old(links.connections) && links.selectedForConnection == old(links.selectedForConnection)
      ensures nodes.nodes == old(nodes.nodes) && nodes.selectedNode == old(nodes.selectedNode)
    {
      if isDragging || links.dragConnection.Some? {
        links.CancelDragConnection();
        isDragging := false;
        dragStartNode := None;
      }
      if nodes.draggedNode.Some? {
        nodes.StopNodeDrag();
      }
    }
  }

  /** The guard of handleNodePointerUp. */
  predicate CompletesDrag(isDragging: bool, dragStartNode: Option<string>, nodeId: string, mode: Mode) {
    isDragging && dragStartNode.Some? && dragStartNode.value != nodeId && mode == ConnectionMode
  }

  /** Releasing on the node the drag started from, or outside connection
      mode, or with no drag under way, never completes a drag. */
  lemma CompletesDragOnlyElsewhere(isDragging: bool, dragStartNode: Option<string>, nodeId: string, mode: Mode)
    ensures dragStartNode == Some(nodeId) ==> !CompletesDrag(isDragging, dragStartNode, nodeId, mode)
    ensures mode != ConnectionMode || !isDragging || dragStartNode.None? ==> !CompletesDrag(isDragging, dragStartNode, nodeId, mode)
  {
  }
}
