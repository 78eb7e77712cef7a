/** The keys and rows of the ingestion tables, which staging writes and the graph reads. */
module Records {
  datatype SourceKey = SourceKey(tenant: string, domain: string, source: string)

  datatype VersionKey = VersionKey(source: SourceKey, version: string)

  datatype Node = Node(source: string, chunk: string)

  datatype Relationship = Relationship(from: Node, to: Node, kind: string)

  /** One row of the relationship table. */
  datatype Row = Row(owner: VersionKey, relationship: Relationship)
}
