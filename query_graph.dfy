/**
 * The query graph the nested-write builders extend: nodes (queries, flow
 * control, empty nodes) and edges carrying dependencies.  An edge that
 * passes parent identifiers also transforms its target node when the graph
 * runs; those transformations are named by `Transform` and interpreted in
 * the `EdgeRules` module.
 */
module QueryGraph {
  import opened Wrappers
  import opened Prisma

  type NodeRef = nat

  /** A relation field as the graph builders consult it. */
  datatype RelationField = RelationField(
    name: string,
    model: string,
    modelIdField: Option<DataSourceField>,
    relatedModel: string,
    relatedModelIdField: Option<DataSourceField>,
    relatedFieldName: string,
    relatedFieldRequired: bool,
    isList: bool,
    isManyToMany: bool,
    inlinedInParent: bool)

  datatype WriteKind = CreateRecord | UpdateRecord | UpdateManyRecords

  /**
   * A write query: its target model, its filter (`set_filter` replaces it),
   * the filters added later (`add_filter` appends), the data it was built
   * from, and the field arguments injected later (`inject_field_arg`).
   */
  datatype WriteQuery = WriteQuery(
    kind: WriteKind,
    model: string,
    filter: Filter,
    addedFilters: seq<Filter>,
    data: ParsedInputMap,
    injected: seq<(string, PrismaValue)>)

  /** `connect_records_node`, represented by the arguments it was called with. */
  datatype Connect = Connect(parent: NodeRef, child: NodeRef, relationField: string, expectedCount: nat)

  datatype ReadQuery = RelatedRecordsQuery(
    name: string,
    parentField: string,
    relationParentIds: Option<seq<RecordIdentifier>>,
    filter: Filter)

  datatype Query = ReadNode(read: ReadQuery) | WriteNode(write: WriteQuery) | ConnectNode(connect: Connect)

  /** The condition of an `If` node: the default one, or one decided by an edge. */
  datatype IfCondition = DefaultCondition | Decided(value: bool)

  datatype Node = QueryNode(query: Query) | IfNode(condition: IfCondition) | EmptyNode

  /** The closures the builders attach to parent-id edges. */
  datatype Transform =
    | SetRelationParentIds
    | OneToOneIfCheck(relationField: string, childSideRequired: bool, inlinedInParent: bool)
    | DisconnectExistingChild(childIdField: DataSourceField, relatedFieldName: string)
    | RequireNoRelated(relationField: string)
    | UpdateByLastParentId
    | UpdateManyByParentIds
    | UpsertIf
    | UpsertUpdateById(idField: DataSourceField)
    | ParentUpdateById(idField: DataSourceField)
    | InjectFromLastId(fieldName: string)

  /** `ParentIds` passes the primary identifiers of `model` taken from the parent's result. */
  datatype Dependency = ExecutionOrder | Then | Else | ParentIds(model: string, transform: Transform)

  datatype Edge = Edge(from: NodeRef, to: NodeRef, dependency: Dependency)

  datatype GraphError =
    | RelationViolation(relationField: string)
    | AssertionError(message: string)
    | NotAMap
    | WrongSize(expected: nat, actual: nat)
    | NullValue

  predicate EdgesWithin(edges: seq<Edge>, count: nat) {
    forall i :: 0 <= i < |edges| ==> edges[i].from < count && edges[i].to < count
  }

  class QueryGraph {
    var nodes: seq<Node>
    var edges: seq<Edge>

    /** Every edge joins two nodes of the graph. */
    predicate Valid()
      reads this
    {
      EdgesWithin(edges, |nodes|)
    }

    constructor()
      ensures nodes == [] && edges == []
      ensures Valid()
    {
      nodes := [];
      edges := [];
    }

    /** `create_node`: the new node goes at the end and is referred to by its index. */
    method CreateNode(node: Node) returns (r: NodeRef)
      requires Valid()
      modifies this
      ensures Valid()
      ensures r == |old(nodes)|
      ensures nodes == old(nodes) + [node] && edges == old(edges)
    {
      r := |nodes|;
      nodes := nodes + [node];
    }

    /** `create_edge`. */
    method CreateEdge(from: NodeRef, to: NodeRef, dependency: Dependency)
      requires Valid()
      requires from < |nodes| && to < |nodes|
      modifies this
      ensures Valid()
      ensures nodes == old(nodes) && edges == old(edges) + [Edge(from, to, dependency)]
    {
      edges := edges + [Edge(from, to, dependency)];
    }

    /** `node_content`. */
    function NodeContent(n: NodeRef): (r: Option<Node>)
      reads this
      ensures r.Some? <==> n < |nodes|
      ensures r.Some? ==> r.value == nodes[n]
    {
      if n < |nodes| then Some(nodes[n]) else None
    }
  }
}
