/** The connection store of src/hooks/useConnections.js: an ordered list of
    undirected edges between node ids, the drag-to-connect slot and the
    click-to-connect pending slot. */
module Connections {
  import opened Common

  type NodeId = string

  datatype Connection = Connection(id: string, fromNodeId: NodeId, toNodeId: NodeId)

  /** The in-progress drag-to-connect gesture. */
  datatype DragConnection = DragConnection(fromNodeId: NodeId, currentPosition: Vec3)

  /** c links a and b, in either orientation. */
  predicate Joins(c: Connection, a: NodeId, b: NodeId) {
    (c.fromNodeId == a && c.toNodeId == b) || (c.fromNodeId == b && c.toNodeId == a)
  }

  /** n is one of c's endpoints. */
  predicate Touches(c: Connection, n: NodeId) {
    c.fromNodeId == n || c.toNodeId == n
  }

  function Ids(cs: seq<Connection>): set<string> {
    set c | c in cs :: c.id
  }

  // ---------------------------------------------------------------------
  // The store's invariants

  predicate NoSelfLoops(cs: seq<Connection>) {
    forall i :: 0 <= i < |cs| ==> cs[i].fromNodeId != cs[i].toNodeId
  }

  /** No two connections share an unordered pair of endpoints. */
  predicate NoDuplicatePairs(cs: seq<Connection>) {
    forall i, j :: 0 <= i < j < |cs| ==> !Joins(cs[j], cs[i].fromNodeId, cs[i].toNodeId)
  }

  predicate DistinctIds(cs: seq<Connection>) {
    forall i, j :: 0 <= i < j < |cs| ==> cs[i].id != cs[j].id
  }

  predicate WellFormed(cs: seq<Connection>) {
    NoSelfLoops(cs) && NoDuplicatePairs(cs) && DistinctIds(cs)
  }

  /** A list with a first element is well formed exactly when its tail is and
      the first element is no self-loop and clashes with nothing after it. */
  lemma WellFormedCons(c: Connection, cs: seq<Connection>)
    ensures WellFormed([c] + cs) <==>
      && c.fromNodeId != c.toNodeId
      && (forall d :: d in cs ==> !Joins(d, c.fromNodeId, c.toNodeId) && d.id != c.id)
      && WellFormed(cs)
  {
    var s := [c] + cs;
    assert forall i :: 0 <= i < |cs| ==> s[i + 1] == cs[i];
    if WellFormed(s) {
      forall d | d in cs
        ensures !Joins(d, c.fromNodeId, c.toNodeId) && d.id != c.id
      {
        var j :| 0 <= j < |cs| && cs[j] == d;
        assert s[0] == c && s[j + 1] == d;
      }
      forall i, j | 0 <= i < j < |cs|
        ensures !Joins(cs[j], cs[i].fromNodeId, cs[i].toNodeId) && cs[i].id != cs[j].id
      {
        assert s[i + 1] == cs[i] && s[j + 1] == cs[j];
      }
    }
  }

  // ---------------------------------------------------------------------
  // addConnection

  /** The first connection already joining a and b, in either orientation. */
  function FindJoining(cs: seq<Connection>, a: NodeId, b: NodeId): (r: Option<Connection>)
    ensures r.None? <==> forall i :: 0 <= i < |cs| ==> !Joins(cs[i], a, b)
    ensures r.Some? ==> r.value in cs && Joins(r.value, a, b)
  {
    if cs == [] then None
    else if Joins(cs[0], a, b) then Some(cs[0])
    else FindJoining(cs[1..], a, b)
  }

  /** What addConnection(from, to) returns: null for a self-loop or a pair
      already joined in either orientation, else the new connection. */
  function NewConnection(cs: seq<Connection>, from: NodeId, to: NodeId, id: string): (r: Option<Connection>)
    ensures r.None? <==> from == to || exists i :: 0 <= i < |cs| && Joins(cs[i], from, to)
    ensures r.Some? ==> r.value == Connection(id, from, to)
  {
    if FindJoining(cs, from, to).Some? || from == to then None
    else Some(Connection(id, from, to))
  }

  /** The list after addConnection(from, to): the old list, with the new
      connection appended unless it would be a self-loop or join an already
      joined pair. */
  function AfterAdd(cs: seq<Connection>, from: NodeId, to: NodeId, id: string): (r: seq<Connection>)
    ensures |cs| <= |r| && r[..|cs|] == cs
    ensures from == to || (exists i :: 0 <= i < |cs| && Joins(cs[i], from, to)) ==> r == cs
    ensures from != to && (forall i :: 0 <= i < |cs| ==> !Joins(cs[i], from, to)) ==> r == cs + [Connection(id, from, to)]
  {
    match NewConnection(cs, from, to, id)
    case None => cs
    case Some(c) => cs + [c]
  }

  /** addConnection keeps the list free of self-loops, duplicate pairs and
      duplicate ids. */
  lemma AddKeepsWellFormed(cs: seq<Connection>, from: NodeId, to: NodeId, id: string)
    requires WellFormed(cs) && id !in Ids(cs)
    ensures WellFormed(AfterAdd(cs, from, to, id))
  {
    if NewConnection(cs, from, to, id).Some? {
      var s := cs + [Connection(id, from, to)];
      forall i, j | 0 <= i < j < |s|
        ensures !Joins(s[j], s[i].fromNodeId, s[i].toNodeId) && s[i].id != s[j].id
      {
        if j == |cs| {
          assert s[i] in cs;
        }
      }
    }
  }

  /** Duplicate detection ignores orientation: once a–b is in the list,
      adding b–a (or a–b again) is refused. */
  lemma AddedPairRejectedBothWays(cs: seq<Connection>, a: NodeId, b: NodeId, id: string, id2: string)
    requires NewConnection(cs, a, b, id).Some?
    ensures NewConnection(AfterAdd(cs, a, b, id), b, a, id2).None?
    ensures NewConnection(AfterAdd(cs, a, b, id), a, b, id2).None?
  {
    var s := AfterAdd(cs, a, b, id);
    assert Joins(s[|cs|], b, a);
  }

  // ---------------------------------------------------------------------
  // deleteConnection and deleteConnectionsByNode

  /** The list without the connections carrying that id, order kept. */
  function WithoutId(cs: seq<Connection>, id: string): (r: seq<Connection>)
    ensures forall c :: c in r <==> c in cs && c.id != id
    ensures |r| <= |cs|
  {
    if cs == [] then []
    else if cs[0].id != id then [cs[0]] + WithoutId(cs[1..], id)
    else WithoutId(cs[1..], id)
  }

  /** The list without the connections that have n at either end, order kept. */
  function WithoutNode(cs: seq<Connection>, n: NodeId): (r: seq<Connection>)
    ensures forall c :: c in r <==> c in cs && !Touches(c, n)
    ensures |r| <= |cs|
  {
    if cs == [] then []
    else if !Touches(cs[0], n) then [cs[0]] + WithoutNode(cs[1..], n)
    else WithoutNode(cs[1..], n)
  }

  /** Filtering by node keeps the survivors in their original order: it
      distributes over concatenation. */
  lemma {:induction false} WithoutNodeKeepsOrder(a: seq<Connection>, b: seq<Connection>, n: NodeId)
    ensures WithoutNode(a + b, n) == WithoutNode(a, n) + WithoutNode(b, n)
  {
    if a != [] {
      assert (a + b)[1..] == a[1..] + b;
      WithoutNodeKeepsOrder(a[1..], b, n);
    } else {
      assert a + b == b;
    }
  }

  /** Filtering by id keeps the survivors in their original order. */
  lemma {:induction false} WithoutIdKeepsOrder(a: seq<Connection>, b: seq<Connection>, id: string)
    ensures WithoutId(a + b, id) == WithoutId(a, id) + WithoutId(b, id)
  {
    if a != [] {
      assert (a + b)[1..] == a[1..] + b;
      WithoutIdKeepsOrder(a[1..], b, id);
    } else {
      assert a + b == b;
    }
  }

  /** A list none of whose connections touches n is left exactly as it was. */
  lemma {:induction false} WithoutNodeUntouched(cs: seq<Connection>, n: NodeId)
    requires forall c :: c in cs ==> !Touches(c, n)
    ensures WithoutNode(cs, n) == cs
  {
    if cs != [] {
      assert cs == [cs[0]] + cs[1..];
      WithoutNodeUntouched(cs[1..], n);
    }
  }

  lemma {:induction false} WithoutNodeKeepsWellFormed(cs: seq<Connection>, n: NodeId)
    requires WellFormed(cs)
    ensures WellFormed(WithoutNode(cs, n))
  {
    if cs != [] {
      assert cs == [cs[0]] + cs[1..];
      WellFormedCons(cs[0], cs[1..]);
      WithoutNodeKeepsWellFormed(cs[1..], n);
      if !Touches(cs[0], n) {
        WellFormedCons(cs[0], WithoutNode(cs[1..], n));
      }
    }
  }

  lemma {:induction false} WithoutIdKeepsWellFormed(cs: seq<Connection>, id: string)
    requires WellFormed(cs)
    ensures WellFormed(WithoutId(cs, id))
  {
    if cs != [] {
      assert cs == [cs[0]] + cs[1..];
      WellFormedCons(cs[0], cs[1..]);
      WithoutIdKeepsWellFormed(cs[1..], id);
      if cs[0].id != id {
        WellFormedCons(cs[0], WithoutId(cs[1..], id));
      }
    }
  }

  // ---------------------------------------------------------------------
  // Click-to-connect

  /** The outcome of a click on `clicked`: the new pending slot, and the pair
      handed to addConnection, if any. */
  datatype Click = Click(pending: Option<NodeId>, attempt: Option<(NodeId, NodeId)>)

  /** The three-way toggle of selectNodeForConnection: a click leaves a node
      pending exactly when nothing was pending before, and asks for a
      connection, from the pending node to the clicked one, exactly when a
      different node was pending. */
  function ClickOutcome(pending: Option<NodeId>, clicked: NodeId): (r: Click)
    ensures r.pending.Some? <==> pending.None?
    ensures r.pending.Some? ==> r.pending.value == clicked
    ensures r.attempt.Some? <==> pending.Some? && pending.value != clicked
    ensures r.attempt.Some? ==> r.attempt.value == (pending.value, clicked)
  {
    match pending
    case None => Click(Some(clicked), None)
    case Some(p) => if p == clicked then Click(None, None) else Click(None, Some((p, clicked)))
  }

  /** Clicking the same node twice from an empty slot returns to an empty
      slot and asks for nothing; clicking a then b asks for a–b. */
  lemma ClickSequences(a: NodeId, b: NodeId)
    ensures ClickOutcome(ClickOutcome(None, a).pending, a) == Click(None, None)
    ensures a != b ==> ClickOutcome(ClickOutcome(None, a).pending, b) == Click(None, Some((a, b)))
  {
  }

  // ---------------------------------------------------------------------
  // The store

  class ConnectionStore {
    var connections: seq<Connection>
    var dragConnection: Option<DragConnection>
    var selectedForConnection: Option<NodeId>

    ghost predicate Valid()
      reads this
    {
      WellFormed(connections)
    }

    constructor ()
      ensures Valid()
      ensures connections == [] && dragConnection == None && selectedForConnection == None
    {
      connections := [];
      dragConnection := None;
      selectedForConnection := None;
    }

    /** freshId is the id generateConnectionId would produce: one no
        connection has. */
    method AddConnection(fromNodeId: NodeId, toNodeId: NodeId, freshId: string) returns (r: Option<Connection>)
      requires Valid() && freshId !in Ids(connections)
      modifies this
      ensures Valid()
      ensures r == NewConnection(old(connections), fromNodeId, toNodeId, freshId)
      ensures connections == AfterAdd(old(connections), fromNodeId, toNodeId, freshId)
      ensures dragConnection == old(dragConnection) && selectedForConnection == old(selectedForConnection)
    {
      AddKeepsWellFormed(connections, fromNodeId, toNodeId, freshId);
      var existing := FindJoining(connections, fromNodeId, toNodeId);
      if existing.Some? || fromNodeId == toNodeId {
        return None;
      }
      var c := Connection(freshId, fromNodeId, toNodeId);
      connections := connections + [c];
      return Some(c);
    }

    method DeleteConnection(connectionId: string)
      requires Valid()
      modifies this
      ensures Valid()
      ensures connections == WithoutId(old(connections), connectionId)
      ensures dragConnection == old(dragConnection) && selectedForConnection == old(selectedForConnection)
    {
      WithoutIdKeepsWellFormed(connections, connectionId);
      connections := WithoutId(connections, connectionId);
    }

    method DeleteConnectionsByNode(nodeId: NodeId)
      requires Valid()
      modifies this
      ensures Valid()
      ensures connections == WithoutNode(old(connections), nodeId)
      ensures forall c :: c in connections ==> !Touches(c, nodeId)
      ensures dragConnection == old(dragConnection) && selectedForConnection == old(selectedForConnection)
    {
      WithoutNodeKeepsWellFormed(connections, nodeId);
      connections := WithoutNode(connections, nodeId);
    }

    /** Empties the list and drops any drag; the pending click stays. */
    method ClearAllConnections()
      modifies this
      ensures Valid()
      ensures connections == [] && dragConnection == None
      ensures selectedForConnection == old(selectedForConnection)
    {
      connections := [];
      dragConnection := None;
    }

    method StartDragConnection(nodeId: NodeId, mousePosition: Vec3)
      modifies this
      ensures dragConnection == Some(DragConnection(nodeId, mousePosition))
      ensures connections == old(connections) && selectedForConnection == old(selectedForConnection)
    {
      dragConnection := Some(DragConnection(nodeId, mousePosition));
    }

    /** Moves the drag's free end; without a drag nothing happens. */
    method UpdateDragConnection(mousePosition: Vec3)
      modifies this
      ensures old(dragConnection).None? ==> dragConnection == None
      ensures old(dragConnection).Some? ==> dragConnection == Some(old(dragConnection).value.(currentPosition := mousePosition))
      ensures connections == old(connections) && selectedForConnection == old(selectedForConnection)
    {
      if dragConnection.Some? {
        dragConnection := Some(dragConnection.value.(currentPosition := mousePosition));
      }
    }

    /** Ends the drag on toNodeId: connects the drag's start to it when there
        is a drag from another node, and clears the drag in every case. */
    method CompleteDragConnection(toNodeId: NodeId, freshId: string)
      requires Valid() && freshId !in Ids(connections)
      modifies this
      ensures Valid()
      ensures dragConnection == None
      ensures old(dragConnection).Some? && old(dragConnection).value.fromNodeId != toNodeId ==>
        connections == AfterAdd(old(connections), old(dragConnection).value.fromNodeId, toNodeId, freshId)
      ensures old(dragConnection).None? || old(dragConnection).value.fromNodeId == toNodeId ==>
        connections == old(connections)
      ensures selectedForConnection == old(selectedForConnection)
    {
      if dragConnection.Some? && dragConnection.value.fromNodeId != toNodeId {
        var _ := AddConnection(dragConnection.value.fromNodeId, toNodeId, freshId);
      }
      dragConnection := None;
    }

    method CancelDragConnection()
      modifies this
      ensures dragConnection == None
      ensures connections == old(connections) && selectedForConnection == old(selectedForConnection)
    {
      dragConnection := None;
    }

    /** The click-to-connect toggle: pend the clicked node, un-pend it when
        it is clicked again, or try to connect the pending node to it and
        clear the slot whatever addConnection says. */
    method SelectNodeForConnection(nodeId: NodeId, freshId: string)
      requires Valid() && freshId !in Ids(connections)
      modifies this
      ensures Valid()
      ensures selectedForConnection == ClickOutcome(old(selectedForConnection), nodeId).pending
      ensures old(selectedForConnection).None? ==> selectedForConnection == Some(nodeId) && connections == old(connections)
      ensures old(selectedForConnection) == Some(nodeId) ==> selectedForConnection == None && connections == old(connections)
      ensures old(selectedForConnection).Some? && old(selectedForConnection).value != nodeId ==>
        selectedForConnection == None &&
        connections == AfterAdd(old(connections), old(selectedForConnection).value, nodeId, freshId)
      ensures dragConnection == old(dragConnection)
    {
      var click := ClickOutcome(selectedForConnection, nodeId);
      if click.attempt.Some? {
        var _ := AddConnection(click.attempt.value.0, click.attempt.value.1, freshId);
      }
      selectedForConnection := click.pending;
    }

    method ClearConnectionSelection()
      modifies this
      ensures selectedForConnection == None
      ensures connections == old(connections) && dragConnection == old(dragConnection)
    {
      selectedForConnection := None;
    }
  }
}
