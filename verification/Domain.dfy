/** Value types shared by every component. */
module Domain {
  datatype Option<+T> = None | Some(value: T)

  datatype NodeKind =
    | Service | Module | File | Function | Endpoint | Topic | Capability | Flow | ADR

  datatype EdgeKind =
    | CALLS | PUBLISHES | CONSUMES | EXPOSES | CONTAINS | DEFINES
    | IMPLEMENTED_BY | TRAVERSES | DECIDES_ON

  type Properties = map<string, string>

  datatype NodeRef = NodeRef(kind: NodeKind, key: string)

  /** A graph node; commit and timestamp stamps are not modelled. */
  datatype Node = Node(ref: NodeRef, properties: Properties)

  /** The identity of a relationship. */
  datatype Link = Link(src: NodeRef, rel: EdgeKind, dst: NodeRef)

  datatype Edge = Edge(link: Link, properties: Properties)

  datatype ChunkKind = FUNCTION | CLASS | METHOD | MODULE

  type Vector = seq<real>

  /** A retrievable chunk of a file; `start` and `end` are 1-indexed inclusive lines. */
  datatype Chunk = Chunk(
    chunkId: string, service: string, path: string, kind: ChunkKind, start: nat, end: nat,
    content: string, identifiers: seq<string>, symbol: Option<string>, embedding: Option<Vector>)
}
