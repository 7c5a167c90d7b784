/** The node store of src/hooks/useNodes.js: an ordered list of typed nodes,
    the selected node and the id of the node being dragged. */
module Nodes {
  import opened Common
  import opened NodeTypes
  import Placement

  /** A node: addNode spreads the table entry's presentation fields into it
      and then writes its own id, type, position and label. */
  datatype Node = Node(id: string, kind: NodeKind, labelText: string, position: Vec3, look: Appearance)

  function Ids(ns: seq<Node>): set<string> {
    set n | n in ns :: n.id
  }

  /** Appending a node adds exactly its id. */
  lemma IdsAppend(ns: seq<Node>, n: Node)
    ensures Ids(ns + [n]) == Ids(ns) + {n.id}
  {
    forall x | x in Ids(ns) ensures x in Ids(ns + [n]) {
      var m :| m in ns && m.id == x;
      assert m in ns + [n];
    }
    assert n in ns + [n];
  }

  predicate DistinctIds(ns: seq<Node>) {
    forall i, j :: 0 <= i < j < |ns| ==> ns[i].id != ns[j].id
  }

  /** The position of every node, in list order. */
  function Positions(ns: seq<Node>): (ps: seq<Vec3>)
    ensures |ps| == |ns|
    ensures forall i :: 0 <= i < |ns| ==> ps[i] == ns[i].position
  {
    if ns == [] then [] else [ns[0].position] + Positions(ns[1..])
  }

  /** How many nodes of the given type the list holds. */
  function CountOfKind(ns: seq<Node>, kind: NodeKind): (k: nat)
    ensures k <= |ns|
    ensures k == 0 <==> forall i :: 0 <= i < |ns| ==> ns[i].kind != kind
  {
    if ns == [] then 0
    else (if ns[0].kind == kind then 1 else 0) + CountOfKind(ns[1..], kind)
  }

  lemma {:induction false} CountOfKindAppend(ns: seq<Node>, n: Node, kind: NodeKind)
    ensures CountOfKind(ns + [n], kind) == CountOfKind(ns, kind) + (if n.kind == kind then 1 else 0)
  {
    if ns != [] {
      assert (ns + [n])[1..] == ns[1..] + [n];
      CountOfKindAppend(ns[1..], n, kind);
    } else {
      assert ([] + [n])[1..] == [];
    }
  }

  // ---------------------------------------------------------------------
  // Default labels: "{TypeName} {k}" with k written in decimal

  function DigitChar(d: nat): char
    requires d < 10
  {
    "0123456789"[d]
  }

  function DigitValue(c: char): nat {
    if '0' <= c <= '9' then (c as int - '0' as int) as nat else 0
  }

  /** The decimal digits of a natural number, as string interpolation prints it. */
  function Decimal(k: nat): (s: string)
    ensures |s| >= 1
    ensures forall i :: 0 <= i < |s| ==> '0' <= s[i] <= '9'
  {
    if k < 10 then [DigitChar(k)] else Decimal(k / 10) + [DigitChar(k % 10)]
  }

  /** Reads a string of decimal digits back as a number. */
  function DecimalValue(s: string): nat {
    if s == [] then 0 else DecimalValue(s[..|s| - 1]) * 10 + DigitValue(s[|s| - 1])
  }

  lemma {:induction false} DecimalRoundTrip(k: nat)
    ensures DecimalValue(Decimal(k)) == k
  {
    var s := Decimal(k);
    if k < 10 {
      assert s[..|s| - 1] == [];
    } else {
      assert s[..|s| - 1] == Decimal(k / 10);
      DecimalRoundTrip(k / 10);
    }
  }

  /** The label addNode gives the typeCount-th node of a kind. */
  function DefaultLabel(kind: NodeKind, typeCount: nat): string {
    TypeName(kind) + " " + Decimal(typeCount)
  }

  /** A default label names its type and gives back the count it was made
      with, so two nodes of one type created at different counts never get
      the same default label. */
  lemma DefaultLabelParts(kind: NodeKind, typeCount: nat)
    ensures DefaultLabel(kind, typeCount)[..|TypeName(kind)| + 1] == TypeName(kind) + " "
    ensures DecimalValue(DefaultLabel(kind, typeCount)[|TypeName(kind)| + 1..]) == typeCount
  {
    var prefix := TypeName(kind) + " ";
    assert DefaultLabel(kind, typeCount) == prefix + Decimal(typeCount);
    assert (prefix + Decimal(typeCount))[|prefix|..] == Decimal(typeCount);
    DecimalRoundTrip(typeCount);
  }

  lemma DefaultLabelsDistinct(kind: NodeKind, j: nat, k: nat)
    requires j != k
    ensures DefaultLabel(kind, j) != DefaultLabel(kind, k)
  {
    DefaultLabelParts(kind, j);
    DefaultLabelParts(kind, k);
  }

  // ---------------------------------------------------------------------
  // List operations

  /** The first node with that id, if any. */
  function FindNode(ns: seq<Node>, id: string): (r: Option<Node>)
    ensures r.None? <==> id !in Ids(ns)
    ensures r.Some? ==> exists i :: 0 <= i < |ns| && ns[i] == r.value && r.value.id == id &&
                                    forall j :: 0 <= j < i ==> ns[j].id != id
  {
    if ns == [] then None
    else if ns[0].id == id then Some(ns[0])
    else
      var r := FindNode(ns[1..], id);
      assert r.Some? ==> exists i :: 0 <= i < |ns[1..]| && ns[1..][i] == r.value && forall j :: 0 <= j < i ==> ns[1..][j].id != id;
      assert r.Some? ==> exists i :: 1 <= i < |ns| && ns[i] == r.value && forall j :: 0 <= j < i ==> ns[j].id != id;
      r
  }

  /** The list without the nodes carrying that id, order kept. */
  function WithoutNodeId(ns: seq<Node>, id: string): (r: seq<Node>)
    ensures forall n :: n in r <==> n in ns && n.id != id
    ensures |r| <= |ns|
  {
    if ns == [] then []
    else if ns[0].id != id then [ns[0]] + WithoutNodeId(ns[1..], id)
    else WithoutNodeId(ns[1..], id)
  }

  /** Deleting keeps the other nodes in their original order. */
  lemma {:induction false} WithoutNodeIdKeepsOrder(a: seq<Node>, b: seq<Node>, id: string)
    ensures WithoutNodeId(a + b, id) == WithoutNodeId(a, id) + WithoutNodeId(b, id)
  {
    if a != [] {
      assert (a + b)[1..] == a[1..] + b;
      WithoutNodeIdKeepsOrder(a[1..], b, id);
    } else {
      assert a + b == b;
    }
  }

  lemma {:induction false} WithoutNodeIdKeepsDistinct(ns: seq<Node>, id: string)
    requires DistinctIds(ns)
    ensures DistinctIds(WithoutNodeId(ns, id))
  {
    if ns != [] {
      var rest := WithoutNodeId(ns[1..], id);
      assert DistinctIds(ns[1..]) by {
        forall i, j | 0 <= i < j < |ns[1..]| ensures ns[1..][i].id != ns[1..][j].id {
          assert ns[1..][i] == ns[i + 1] && ns[1..][j] == ns[j + 1];
        }
      }
      WithoutNodeIdKeepsDistinct(ns[1..], id);
      if ns[0].id != id {
        var s := [ns[0]] + rest;
        forall i, j | 0 <= i < j < |s| ensures s[i].id != s[j].id {
          if i == 0 {
            assert s[j] in ns[1..];
          } else {
            assert s[i] == rest[i - 1] && s[j] == rest[j - 1];
          }
        }
      }
    }
  }

  /** The ids left after a delete are the old ones without the deleted id. */
  lemma WithoutNodeIdIds(ns: seq<Node>, id: string)
    ensures Ids(WithoutNodeId(ns, id)) == Ids(ns) - {id}
  {
    var r := WithoutNodeId(ns, id);
    forall x | x in Ids(ns) - {id} ensures x in Ids(r) {
      var n :| n in ns && n.id == x;
      assert n in r;
    }
  }

  /** Every node with that id relabelled, all others as they were. */
  function Relabeled(ns: seq<Node>, id: string, text: string): (r: seq<Node>)
    ensures |r| == |ns|
    ensures forall i :: 0 <= i < |ns| ==> r[i] == if ns[i].id == id then ns[i].(labelText := text) else ns[i]
  {
    if ns == [] then [] else [if ns[0].id == id then ns[0].(labelText := text) else ns[0]] + Relabeled(ns[1..], id, text)
  }

  /** Every node with that id moved, all others as they were. */
  function Moved(ns: seq<Node>, id: string, position: Vec3): (r: seq<Node>)
    ensures |r| == |ns|
    ensures forall i :: 0 <= i < |ns| ==> r[i] == if ns[i].id == id then ns[i].(position := position) else ns[i]
  {
    if ns == [] then [] else [if ns[0].id == id then ns[0].(position := position) else ns[0]] + Moved(ns[1..], id, position)
  }

  /** Updating a field never changes which ids are present. */
  lemma UpdatesKeepIds(ns: seq<Node>, id: string, text: string, position: Vec3)
    ensures Ids(Relabeled(ns, id, text)) == Ids(ns) && Ids(Moved(ns, id, position)) == Ids(ns)
    ensures DistinctIds(ns) ==> DistinctIds(Relabeled(ns, id, text)) && DistinctIds(Moved(ns, id, position))
  {
    var r, m := Relabeled(ns, id, text), Moved(ns, id, position);
    forall x | x in Ids(ns) ensures x in Ids(r) && x in Ids(m) {
      var i :| 0 <= i < |ns| && ns[i].id == x;
      assert r[i].id == x && m[i].id == x;
    }
  }

  // ---------------------------------------------------------------------
  // The store

  class NodeStore {
    var nodes: seq<Node>
    var selectedNode: Option<Node>
    var draggedNode: Option<string>

    ghost predicate Valid()
      reads this
    {
      DistinctIds(nodes)
    }

    constructor ()
      ensures Valid()
      ensures nodes == [] && selectedNode == None && draggedNode == None
    {
      nodes := [];
      selectedNode := None;
      draggedNode := None;
    }

    /** addNode. freshId is the id generateNodeId would produce: one no node
        has. For a type outside the table the type-based placement raises,
        the random fallback is computed, and then reading the table entry's
        name raises, so nothing is stored and None stands for the error. */
    method AddNode(nodeType: string, freshId: string, circle: Placement.Circle, rand: Placement.Draws)
      returns (r: Option<Node>)
      requires Valid() && freshId !in Ids(nodes)
      modifies this
      ensures Valid()
      ensures r.None? <==> ParseKind(nodeType).None?
      ensures r.None? ==> nodes == old(nodes)
      ensures r.Some? ==>
        var kind := ParseKind(nodeType).value;
        var typeCount := CountOfKind(old(nodes), kind) + 1;
        && nodes == old(nodes) + [r.value]
        && r.value.id == freshId
        && r.value.kind == kind
        && r.value.labelText == DefaultLabel(kind, typeCount)
        && r.value.look == Entry(kind).look
        && r.value.position == Placement.PlaceByType(kind, typeCount, Positions(old(nodes)), circle, rand)
      ensures r.Some? ==> CountOfKind(nodes, r.value.kind) == CountOfKind(old(nodes), r.value.kind) + 1
      ensures selectedNode == old(selectedNode) && draggedNode == old(draggedNode)
    {
      var existingPositions := Positions(nodes);
      var kindOf := ParseKind(nodeType);
      var typeCount := if kindOf.Some? then CountOfKind(nodes, kindOf.value) + 1 else 1;
      var placed := Placement.TypeBasedPosition(nodeType, typeCount, existingPositions, circle, rand);
      var position: Vec3;
      if placed.Some? {
        position := placed.value;
      } else {
        position := Placement.RandomPosition(40.0, existingPositions, rand);
      }
      if kindOf.None? {
        return None;
      }
      var kind := kindOf.value;
      var node := Node(freshId, kind, DefaultLabel(kind, typeCount), position, Entry(kind).look);
      CountOfKindAppend(nodes, node, kind);
      forall i, j | 0 <= i < j < |nodes| + 1 ensures (nodes + [node])[i].id != (nodes + [node])[j].id {
        if j == |nodes| {
          assert nodes[i] in nodes;
        }
      }
      nodes := nodes + [node];
      return Some(node);
    }

    /** Removes every node with that id and drops the selection when the
        selected node has it. */
    method DeleteNode(nodeId: string)
      requires Valid()
      modifies this
      ensures Valid()
      ensures nodes == WithoutNodeId(old(nodes), nodeId)
      ensures nodeId !in Ids(nodes)
      ensures selectedNode == if old(selectedNode).Some? && old(selectedNode).value.id == nodeId then None else old(selectedNode)
      ensures draggedNode == old(draggedNode)
    {
      WithoutNodeIdKeepsDistinct(nodes, nodeId);
      nodes := WithoutNodeId(nodes, nodeId);
      if selectedNode.Some? && selectedNode.value.id == nodeId {
        selectedNode := None;
      }
    }

    method UpdateNodeLabel(nodeId: string, newLabel: string)
      requires Valid()
      modifies this
      ensures Valid()
      ensures nodes == Relabeled(old(nodes), nodeId, newLabel)
      ensures Ids(nodes) == Ids(old(nodes))
      ensures selectedNode == old(selectedNode) && draggedNode == old(draggedNode)
    {
      UpdatesKeepIds(nodes, nodeId, newLabel, Vec3(0.0, 0.0, 0.0));
      nodes := Relabeled(nodes, nodeId, newLabel);
    }

    method UpdateNodePosition(nodeId: string, newPosition: Vec3)
      requires Valid()
      modifies this
      ensures Valid()
      ensures nodes == Moved(old(nodes), nodeId, newPosition)
      ensures Ids(nodes) == Ids(old(nodes))
      ensures selectedNode == old(selectedNode) && draggedNode == old(draggedNode)
    {
      UpdatesKeepIds(nodes, nodeId, "", newPosition);
      nodes := Moved(nodes, nodeId, newPosition);
    }

    /** moveNode, the drag gesture's command, is updateNodePosition. */
    method MoveNode(nodeId: string, newPosition: Vec3)
      requires Valid()
      modifies this
      ensures Valid()
      ensures nodes == Moved(old(nodes), nodeId, newPosition)
      ensures selectedNode == old(selectedNode) && draggedNode == old(draggedNode)
    {
      UpdateNodePosition(nodeId, newPosition);
    }

    /** Empties the list and the selection; the dragged node stays. */
    method ClearAllNodes()
      modifies this
      ensures Valid()
      ensures nodes == [] && selectedNode == None
      ensures draggedNode == old(draggedNode)
    {
      nodes := [];
      selectedNode := None;
    }

    /** The first node with that id, or None when there is none; never
        fails. */
    function GetNodeById(nodeId: string): (r: Option<Node>)
      reads this
      ensures r.None? <==> nodeId !in Ids(nodes)
      ensures r.Some? ==> r.value in nodes && r.value.id == nodeId
    {
      FindNode(nodes, nodeId)
    }

    method SetSelectedNode(node: Option<Node>)
      modifies this
      ensures selectedNode == node
      ensures nodes == old(nodes) && draggedNode == old(draggedNode)
    {
      selectedNode := node;
    }

    method StartNodeDrag(nodeId: string)
      modifies this
      ensures draggedNode == Some(nodeId)
      ensures nodes == old(nodes) && selectedNode == old(selectedNode)
    {
      draggedNode := Some(nodeId);
    }

    method StopNodeDrag()
      modifies this
      ensures draggedNode == None
      ensures nodes == old(nodes) && selectedNode == old(selectedNode)
    {
      draggedNode := None;
    }
  }
}
