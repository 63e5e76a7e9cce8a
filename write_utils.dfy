/**
 * Helpers shared by the nested-write builders (query_graph_builder/write/
 * utils.rs): identifier filters, input coercion, and the graph fragments
 * for reading children, placeholder updates, one-to-one checks and
 * deletion checks.
 */
module WriteUtils {
  import opened Wrappers
  import opened Prisma
  import opened QueryGraph

  // ---------------------------------------------------------------------------
  // IdFilter
  // ---------------------------------------------------------------------------

  /** `IdFilter for RecordIdentifier`: one equality per (column, value) pair, ANDed. */
  function IdFilter(id: RecordIdentifier): (r: Filter)
    ensures r.AndFilter? && |r.filters| == |id.pairs|
    ensures forall i :: 0 <= i < |id.pairs| ==> r.filters[i] == ScalarEquals(id.pairs[i].0, id.pairs[i].1)
    ensures IsPlain(r)
  {
    AndFilter(seq(|id.pairs|, i requires 0 <= i < |id.pairs| => ScalarEquals(id.pairs[i].0, id.pairs[i].1)))
  }

  /** `IdFilter for Vec<RecordIdentifier>`: the identifiers' filters, ORed in order. */
  function IdsFilter(ids: seq<RecordIdentifier>): (r: Filter)
    ensures r.OrFilter? && |r.filters| == |ids|
    ensures forall i :: 0 <= i < |ids| ==> r.filters[i] == IdFilter(ids[i])
    ensures IsPlain(r)
  {
    OrFilter(seq(|ids|, i requires 0 <= i < |ids| => IdFilter(ids[i])))
  }

  /** The row holds every (column, value) pair of the identifier. */
  predicate HoldsId(row: Row, id: RecordIdentifier) {
    forall i :: 0 <= i < |id.pairs| ==> id.pairs[i].0.name in row && row[id.pairs[i].0.name] == id.pairs[i].1
  }

  /** A record satisfies an identifier's filter iff it holds all its values. */
  lemma IdFilterMatches(id: RecordIdentifier, row: Row)
    ensures Matches(IdFilter(id), row) <==> HoldsId(row, id)
  {
    var f := IdFilter(id);
    assert forall i :: 0 <= i < |id.pairs| ==> (Matches(f.filters[i], row) <==>
      id.pairs[i].0.name in row && row[id.pairs[i].0.name] == id.pairs[i].1);
  }

  /** A record satisfies the filter of a list of identifiers iff it holds one of them. */
  lemma IdsFilterMatches(ids: seq<RecordIdentifier>, row: Row)
    ensures Matches(IdsFilter(ids), row) <==> exists i :: 0 <= i < |ids| && HoldsId(row, ids[i])
  {
    forall i | 0 <= i < |ids|
      ensures Matches(IdsFilter(ids).filters[i], row) <==> HoldsId(row, ids[i])
    {
      IdFilterMatches(ids[i], row);
    }
  }

  // ---------------------------------------------------------------------------
  // coerce_vec, node_is_create
  // ---------------------------------------------------------------------------

  /** `coerce_vec`: a list is unpacked, a map or a scalar becomes a one-element list. */
  function CoerceVec(v: ParsedInputValue): (r: seq<ParsedInputValue>)
    ensures v.ListInput? ==> r == v.items
    ensures !v.ListInput? ==> r == [v]
  {
    match v
    case ListInput(l) => l
    case MapInput(_) => [v]
    case SingleInput(_) => [v]
  }

  /** `node_is_create`; the node must exist (the source unwraps its content). */
  function NodeIsCreate(g: QueryGraph, n: NodeRef): (r: bool)
    reads g
    requires n < |g.nodes|
    ensures r <==> g.nodes[n].QueryNode? && g.nodes[n].query.WriteNode? && g.nodes[n].query.write.kind == CreateRecord
  {
    match g.NodeContent(n).value
    case QueryNode(WriteNode(wq)) => wq.kind == CreateRecord
    case _ => false
  }

  // ---------------------------------------------------------------------------
  // Graph fragments
  // ---------------------------------------------------------------------------

  /** The read node `insert_find_children_by_parent_node` creates. */
  function FindChildrenNode(rf: RelationField, filter: Filter): Node {
    QueryNode(ReadNode(RelatedRecordsQuery("find_children_by_parent", rf.name, None, filter)))
  }

  /** The edge that hands the parent's identifiers to the read node. */
  function FindChildrenEdge(parent: NodeRef, read: NodeRef, rf: RelationField): Edge {
    Edge(parent, read, ParentIds(rf.model, SetRelationParentIds))
  }

  /**
   * `insert_find_children_by_parent_node`: one read node for the children of
   * `parent` through `rf`, narrowed by `filter`, fed by one parent-id edge.
   */
  method InsertFindChildrenByParentNode(g: QueryGraph, parent: NodeRef, rf: RelationField, filter: Filter)
    returns (r: NodeRef)
    requires g.Valid() && parent < |g.nodes|
    modifies g
    ensures g.Valid()
    ensures r == |old(g.nodes)|
    ensures g.nodes == old(g.nodes) + [FindChildrenNode(rf, filter)]
    ensures g.edges == old(g.edges) + [FindChildrenEdge(parent, r, rf)]
  {
    r := g.CreateNode(FindChildrenNode(rf, filter));
    g.CreateEdge(parent, r, ParentIds(rf.model, SetRelationParentIds));
  }

  /** The skeleton update-many node of `update_records_node_placeholder`. */
  function PlaceholderNode(filter: Filter, model: string): Node {
    QueryNode(WriteNode(WriteQuery(UpdateManyRecords, model, filter, [], map[], [])))
  }

  /** `update_records_node_placeholder`: one update-many node, no edges. */
  method UpdateRecordsNodePlaceholder(g: QueryGraph, filter: Filter, model: string) returns (r: NodeRef)
    requires g.Valid()
    modifies g
    ensures g.Valid()
    ensures r == |old(g.nodes)|
    ensures g.nodes == old(g.nodes) + [PlaceholderNode(filter, model)] && g.edges == old(g.edges)
  {
    r := g.CreateNode(PlaceholderNode(filter, model));
  }

  /**
   * `insert_existing_1to1_related_model_checks`: read the existing child,
   * decide in an `If` node whether it must be disconnected, and a placeholder
   * update that disconnects it.  The related model must have a single id
   * field (the source unwraps it).
   */
  method InsertExisting1to1RelatedModelChecks(g: QueryGraph, parent: NodeRef, rf: RelationField)
    requires g.Valid() && parent < |g.nodes|
    requires rf.relatedModelIdField.Some?
    modifies g
    ensures g.Valid()
    ensures var n := |old(g.nodes)|;
      && g.nodes == old(g.nodes) + [FindChildrenNode(rf, EmptyFilter), PlaceholderNode(EmptyFilter, rf.relatedModel), IfNode(DefaultCondition)]
      && g.edges == old(g.edges) + [
           FindChildrenEdge(parent, n, rf),
           Edge(n, n + 2, ParentIds(rf.relatedModel, OneToOneIfCheck(rf.name, rf.relatedFieldRequired, rf.inlinedInParent))),
           Edge(n + 2, n + 1, Then),
           Edge(n, n + 1, ParentIds(rf.relatedModel, DisconnectExistingChild(rf.relatedModelIdField.value, rf.relatedFieldName)))]
  {
    var read := InsertFindChildrenByParentNode(g, parent, rf, EmptyFilter);
    var update := UpdateRecordsNodePlaceholder(g, EmptyFilter, rf.relatedModel);
    var ifNode := g.CreateNode(IfNode(DefaultCondition));
    g.CreateEdge(read, ifNode, ParentIds(rf.relatedModel, OneToOneIfCheck(rf.name, rf.relatedFieldRequired, rf.inlinedInParent)));
    g.CreateEdge(ifNode, update, Then);
    g.CreateEdge(read, update, ParentIds(rf.relatedModel, DisconnectExistingChild(rf.relatedModelIdField.value, rf.relatedFieldName)));
  }

  // ---------------------------------------------------------------------------
  // insert_deletion_checks
  // ---------------------------------------------------------------------------

  /** One read node per field, in field order, for the first `k` fields. */
  function CheckReads(fields: seq<RelationField>, k: nat): (r: seq<Node>)
    requires k <= |fields|
    ensures |r| == k
    ensures forall i :: 0 <= i < k ==> r[i] == FindChildrenNode(fields[i], EmptyFilter)
  {
    if k == 0 then [] else CheckReads(fields, k - 1) + [FindChildrenNode(fields[k - 1], EmptyFilter)]
  }

  /** Nodes added for the deletion checks: the empty node, then one read per field. */
  function DeletionNodes(fields: seq<RelationField>): seq<Node> {
    if fields == [] then [] else [EmptyNode] + CheckReads(fields, |fields|)
  }

  /** The two edges of check `i`: parent to read, and read to the empty node (failing on any child). */
  function CheckEdges(fields: seq<RelationField>, n: nat, parent: NodeRef, i: nat): seq<Edge>
    requires i < |fields|
  {
    [FindChildrenEdge(parent, n + 1 + i, fields[i]),
     Edge(n + 1 + i, n, ParentIds(fields[i].relatedModel, RequireNoRelated(fields[i].name)))]
  }

  /** The check edges of the first `k` fields, in field order. */
  function AllCheckEdges(fields: seq<RelationField>, n: nat, parent: NodeRef, k: nat): (r: seq<Edge>)
    requires k <= |fields|
    ensures |r| == 2 * k
  {
    if k == 0 then [] else AllCheckEdges(fields, n, parent, k - 1) + CheckEdges(fields, n, parent, k - 1)
  }

  /** The execution-order edges between consecutive read nodes, up to read `k`. */
  function ChainEdges(n: nat, k: nat): (r: seq<Edge>)
    ensures |r| == if k == 0 then 0 else k - 1
  {
    if k <= 1 then [] else ChainEdges(n, k - 1) + [Edge(n + k - 1, n + k, ExecutionOrder)]
  }

  function DeletionEdges(fields: seq<RelationField>, n: nat, parent: NodeRef, child: NodeRef): seq<Edge> {
    if fields == [] then []
    else AllCheckEdges(fields, n, parent, |fields|) + ChainEdges(n, |fields|) + [Edge(n, child, ExecutionOrder)]
  }

  /**
   * `insert_deletion_checks` for the relation fields (on `model`'s side)
   * whose other side requires `model`: nothing when there are none;
   * otherwise an empty node, a failing read per field, the reads chained in
   * order, and the empty node before `child`.
   */
  method InsertDeletionChecks(g: QueryGraph, parent: NodeRef, child: NodeRef, fields: seq<RelationField>)
    requires g.Valid() && parent < |g.nodes| && child < |g.nodes|
    modifies g
    ensures g.Valid()
    ensures g.nodes == old(g.nodes) + DeletionNodes(fields)
    ensures g.edges == old(g.edges) + DeletionEdges(fields, |old(g.nodes)|, parent, child)
  {
    if |fields| > 0 {
      ghost var nodes0, edges0 := g.nodes, g.edges;
      var noop := g.CreateNode(EmptyNode);
      InsertChecks(g, noop, parent, fields);
      ChainChecks(g, noop, |fields|);
      g.CreateEdge(noop, child, ExecutionOrder);
      AppendAssoc(nodes0, [EmptyNode], CheckReads(fields, |fields|));
      AppendAssoc3(edges0, AllCheckEdges(fields, noop, parent, |fields|), ChainEdges(noop, |fields|), [Edge(noop, child, ExecutionOrder)]);
    }
  }

  lemma AppendAssoc<T>(a: seq<T>, b: seq<T>, c: seq<T>)
    ensures a + b + c == a + (b + c)
  {
  }

  lemma AppendAssoc3<T>(a: seq<T>, b: seq<T>, c: seq<T>, d: seq<T>)
    ensures a + b + c + d == a + (b + c + d)
  {
  }

  /** The first loop of `insert_deletion_checks`: one failing read per field. */
  method InsertChecks(g: QueryGraph, noop: NodeRef, parent: NodeRef, fields: seq<RelationField>)
    requires g.Valid() && parent < |g.nodes| && noop == |g.nodes| - 1
    modifies g
    ensures g.Valid()
    ensures g.nodes == old(g.nodes) + CheckReads(fields, |fields|)
    ensures g.edges == old(g.edges) + AllCheckEdges(fields, noop, parent, |fields|)
  {
    var i := 0;
    while i < |fields|
      invariant 0 <= i <= |fields|
      invariant g.Valid() && noop < |g.nodes| && parent < |g.nodes|
      invariant g.nodes == old(g.nodes) + CheckReads(fields, i)
      invariant g.edges == old(g.edges) + AllCheckEdges(fields, noop, parent, i)
    {
      var read := InsertFindChildrenByParentNode(g, parent, fields[i], EmptyFilter);
      g.CreateEdge(read, noop, ParentIds(fields[i].relatedModel, RequireNoRelated(fields[i].name)));
      i := i + 1;
    }
  }

  /** The fold of `insert_deletion_checks`: consecutive reads run in order. */
  method ChainChecks(g: QueryGraph, noop: NodeRef, count: nat)
    requires g.Valid() && noop + count < |g.nodes|
    modifies g
    ensures g.Valid()
    ensures g.nodes == old(g.nodes)
    ensures g.edges == old(g.edges) + ChainEdges(noop, count)
  {
    if count <= 1 {
      return;
    }
    var k := 1;
    while k < count
      invariant 1 <= k <= count
      invariant g.Valid() && g.nodes == old(g.nodes)
      invariant g.edges == old(g.edges) + ChainEdges(noop, k)
    {
      g.CreateEdge(noop + k, noop + k + 1, ExecutionOrder);
      k := k + 1;
    }
  }

  /**
   * Reading the deletion-check edges: every read node gets the parent's
   * identifiers and reports to the empty node with a check that fails on
   * any related record, consecutive reads run in order, and the empty node
   * runs before `child`.
   */
  lemma DeletionChecksShape(fields: seq<RelationField>, n: nat, parent: NodeRef, child: NodeRef)
    requires fields != []
    ensures var es := DeletionEdges(fields, n, parent, child);
      && |es| == 3 * |fields|
      && (forall i :: 0 <= i < |fields| ==>
            && es[2 * i] == Edge(parent, n + 1 + i, ParentIds(fields[i].model, SetRelationParentIds))
            && es[2 * i + 1] == Edge(n + 1 + i, n, ParentIds(fields[i].relatedModel, RequireNoRelated(fields[i].name))))
      && (forall j :: 2 * |fields| <= j < |es| - 1 ==> es[j] == Edge(n + 1 + j - 2 * |fields|, n + 2 + j - 2 * |fields|, ExecutionOrder))
      && es[|es| - 1] == Edge(n, child, ExecutionOrder)
  {
    AllCheckEdgesAt(fields, n, parent, |fields|);
    ChainEdgesAt(n, |fields|);
  }

  lemma {:induction false} AllCheckEdgesAt(fields: seq<RelationField>, n: nat, parent: NodeRef, k: nat)
    requires k <= |fields|
    ensures var es := AllCheckEdges(fields, n, parent, k);
      forall i :: 0 <= i < k ==>
        && es[2 * i] == Edge(parent, n + 1 + i, ParentIds(fields[i].model, SetRelationParentIds))
        && es[2 * i + 1] == Edge(n + 1 + i, n, ParentIds(fields[i].relatedModel, RequireNoRelated(fields[i].name)))
  {
    if k > 0 {
      AllCheckEdgesAt(fields, n, parent, k - 1);
    }
  }

  lemma {:induction false} ChainEdgesAt(n: nat, k: nat)
    ensures forall i :: 0 <= i < k - 1 ==> ChainEdges(n, k)[i] == Edge(n + 1 + i, n + 2 + i, ExecutionOrder)
  {
    if k > 1 {
      ChainEdgesAt(n, k - 1);
    }
  }

  /**
   * `insert_node_reload`: reloading is switched off, so the parent node is
   * returned and the graph is left as it is.
   */
  method InsertNodeReload(g: QueryGraph, rf: RelationField, parent: NodeRef) returns (r: Result<NodeRef, GraphError>)
    ensures r == Ok(parent)
  {
    return Ok(parent);
  }
}
