/** The constant NODE_TYPES table of src/utils/nodeTypes.js: one entry per
    node type, keyed by "PARENT", "CHILD" and "SUBPROCESS". */
module NodeTypes {
  import opened Common

  datatype NodeKind = Parent | Child | Subprocess

  /** The presentation fields of a table entry, which addNode copies into
      every node it creates. */
  datatype Appearance = Appearance(name: string, color: string, emissive: string, geometry: string, size: real)

  /** A table entry: its own `id` field and its presentation fields. */
  datatype TypeEntry = TypeEntry(id: string, look: Appearance)

  /** The key under which a kind is stored in the table, and which callers
      pass to addNode. */
  function KeyOf(kind: NodeKind): string {
    match kind
    case Parent => "PARENT"
    case Child => "CHILD"
    case Subprocess => "SUBPROCESS"
  }

  /** Looks a key up in the table; every other key has no entry. */
  function ParseKind(key: string): (r: Option<NodeKind>)
    ensures r.Some? ==> KeyOf(r.value) == key
    ensures r.None? <==> forall kind: NodeKind :: KeyOf(kind) != key
  {
    if key == "PARENT" then Some(Parent)
    else if key == "CHILD" then Some(Child)
    else if key == "SUBPROCESS" then Some(Subprocess)
    else None
  }

  function Entry(kind: NodeKind): TypeEntry {
    match kind
    case Parent => TypeEntry("parent", Appearance("Parent", "#3B82F6", "#1e40af", "sphere", 1.2))
    case Child => TypeEntry("child", Appearance("Child", "#10B981", "#047857", "box", 1.0))
    case Subprocess => TypeEntry("subprocess", Appearance("Sub-process", "#F59E0B", "#d97706", "cone", 1.0))
  }

  /** The display name that starts every default label of a kind. */
  function TypeName(kind: NodeKind): string {
    Entry(kind).look.name
  }
}
