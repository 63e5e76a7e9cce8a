/**
 * What the parent-id edges of the nested-write graphs do when the graph
 * runs: each `Transform` receives the target node and the identifiers the
 * parent produced, and yields the rewritten node or an error.  One function
 * per closure of utils.rs, update_nested.rs and upsert_nested.rs.
 */
module EdgeRules {
  import opened Wrappers
  import opened Prisma
  import opened QueryGraph
  import opened WriteUtils

  /** Primary identifiers have at least one column (`single_value` reads it). */
  predicate IdsHaveValues(ids: seq<RecordIdentifier>) {
    forall i :: 0 <= i < |ids| ==> |ids[i].pairs| >= 1
  }

  function Last(ids: seq<RecordIdentifier>): RecordIdentifier
    requires ids != []
  {
    ids[|ids| - 1]
  }

  predicate IsWrite(n: Node) {
    n.QueryNode? && n.query.WriteNode?
  }

  predicate IsWriteOf(n: Node, kind: WriteKind) {
    IsWrite(n) && n.query.write.kind == kind
  }

  /** `add_filter` on a write node; any other node is left as it is. */
  function AddFilter(n: Node, f: Filter): (r: Node)
    ensures IsWrite(n) ==> IsWrite(r) && r.query.write == n.query.write.(addedFilters := n.query.write.addedFilters + [f])
    ensures !IsWrite(n) ==> r == n
  {
    if IsWrite(n) then QueryNode(WriteNode(n.query.write.(addedFilters := n.query.write.addedFilters + [f]))) else n
  }

  /** `inject_field_arg` on a write node; any other node is left as it is. */
  function InjectFieldArg(n: Node, name: string, v: PrismaValue): (r: Node)
    ensures IsWrite(n) ==> IsWrite(r) && r.query.write == n.query.write.(injected := n.query.write.injected + [(name, v)])
    ensures !IsWrite(n) ==> r == n
  {
    if IsWrite(n) then QueryNode(WriteNode(n.query.write.(injected := n.query.write.injected + [(name, v)]))) else n
  }

  /** The equality `field = id.single_value()`. */
  function IdEquals(field: DataSourceField, id: RecordIdentifier): Filter
    requires |id.pairs| >= 1
  {
    ScalarEquals(field, SingleValue(id))
  }

  // ---------------------------------------------------------------------------
  // insert_find_children_by_parent_node
  // ---------------------------------------------------------------------------

  /** The read of children learns which parents it reads for; other nodes are untouched. */
  function SetRelationParentIds(n: Node, ids: seq<RecordIdentifier>): (r: Node)
    ensures n.QueryNode? && n.query.ReadNode? ==>
      r == QueryNode(ReadNode(n.query.read.(relationParentIds := Some(ids))))
    ensures !(n.QueryNode? && n.query.ReadNode?) ==> r == n
  {
    match n
    case QueryNode(ReadNode(rq)) => QueryNode(ReadNode(rq.(relationParentIds := Some(ids))))
    case _ => n
  }

  // ---------------------------------------------------------------------------
  // insert_existing_1to1_related_model_checks
  // ---------------------------------------------------------------------------

  /**
   * The read-to-if edge of the one-to-one check: connecting fails when a
   * child is already connected and the child side requires its parent;
   * otherwise the existing child must be disconnected exactly when one
   * exists and the relation is not inlined in the parent.
   */
  function OneToOneIfCheck(n: Node, childIds: seq<RecordIdentifier>, relationField: string,
                           childSideRequired: bool, inlinedInParent: bool): (r: Result<Node, GraphError>)
    requires n.IfNode?
    ensures r.Err? <==> |childIds| > 0 && childSideRequired
    ensures r.Err? ==> r.error == RelationViolation(relationField)
    ensures r.Ok? ==> r.value.IfNode? && r.value.condition.Decided?
    ensures r.Ok? ==> (r.value.condition.value <==> !inlinedInParent && childIds != [])
  {
    if |childIds| > 0 && childSideRequired then Err(RelationViolation(relationField))
    else Ok(IfNode(Decided(!inlinedInParent && |childIds| != 0)))
  }

  /**
   * The read-to-update edge of the one-to-one check: the placeholder update
   * is narrowed to the last child found and nulls that child's relation
   * field.  No child is an assertion failure.
   */
  function DisconnectExistingChild(n: Node, childIds: seq<RecordIdentifier>, childIdField: DataSourceField,
                                   relatedFieldName: string): (r: Result<Node, GraphError>)
    requires IdsHaveValues(childIds)
    ensures r.Err? <==> childIds == []
    ensures r.Err? ==> r.error.AssertionError?
    ensures r.Ok? && IsWrite(n) ==> (
      && IsWrite(r.value)
      && r.value.query.write.addedFilters == n.query.write.addedFilters + [IdEquals(childIdField, Last(childIds))]
      && r.value.query.write.injected == n.query.write.injected + [(relatedFieldName, Null)]
      && r.value.query.write.filter == n.query.write.filter)
    ensures r.Ok? && !IsWrite(n) ==> r.value == n
  {
    if childIds == [] then Err(AssertionError("one-to-one disconnect: no existing child id"))
    else
      var id := Last(childIds);
      Ok(InjectFieldArg(AddFilter(n, IdEquals(childIdField, id)), relatedFieldName, Null))
  }

  // ---------------------------------------------------------------------------
  // insert_deletion_checks
  // ---------------------------------------------------------------------------

  /** A deletion check fails as soon as one record still requires the deleted one. */
  function RequireNoRelated(n: Node, ids: seq<RecordIdentifier>, relationField: string): (r: Result<Node, GraphError>)
    ensures r.Err? <==> ids != []
    ensures r.Err? ==> r.error == RelationViolation(relationField)
    ensures r.Ok? ==> r.value == n
  {
    if ids != [] then Err(RelationViolation(relationField)) else Ok(n)
  }

  // ---------------------------------------------------------------------------
  // connect_nested_update, connect_nested_update_many
  // ---------------------------------------------------------------------------

  /** The nested update (one) is narrowed to the identifier of the last child found. */
  function UpdateByLastParentId(n: Node, ids: seq<RecordIdentifier>): (r: Result<Node, GraphError>)
    ensures r.Err? <==> ids == []
    ensures r.Err? ==> r.error.AssertionError?
    ensures r.Ok? && IsWriteOf(n, UpdateRecord) ==> (
      && IsWriteOf(r.value, UpdateRecord)
      && r.value.query.write == n.query.write.(addedFilters := n.query.write.addedFilters + [IdFilter(Last(ids))]))
    ensures r.Ok? && !IsWriteOf(n, UpdateRecord) ==> r.value == n
  {
    if ids == [] then Err(AssertionError("nested update to-one: no parent id"))
    else if IsWriteOf(n, UpdateRecord) then Ok(AddFilter(n, IdFilter(Last(ids))))
    else Ok(n)
  }

  /** The nested update-many keeps its own filter and is restricted to the children found. */
  function UpdateManyByParentIds(n: Node, ids: seq<RecordIdentifier>): (r: Node)
    ensures IsWriteOf(n, UpdateManyRecords) ==> (
      && IsWriteOf(r, UpdateManyRecords)
      && r.query.write == n.query.write.(filter := AndFilter([n.query.write.filter, IdsFilter(ids)])))
    ensures !IsWriteOf(n, UpdateManyRecords) ==> r == n
  {
    if IsWriteOf(n, UpdateManyRecords) then
      QueryNode(WriteNode(n.query.write.(filter := AndFilter([n.query.write.filter, IdsFilter(ids)]))))
    else n
  }

  /**
   * Read as a predicate on records, the update-many's new filter selects
   * exactly the records its old filter selected that are one of the
   * children found.
   */
  lemma UpdateManyByParentIdsMatches(n: Node, ids: seq<RecordIdentifier>, row: Row)
    requires IsWriteOf(n, UpdateManyRecords) && IsPlain(n.query.write.filter)
    ensures var f := UpdateManyByParentIds(n, ids).query.write.filter;
      IsPlain(f) && (Matches(f, row) <==>
        Matches(n.query.write.filter, row) && exists i :: 0 <= i < |ids| && HoldsId(row, ids[i]))
  {
    var f := UpdateManyByParentIds(n, ids).query.write.filter;
    assert f.filters == [n.query.write.filter, IdsFilter(ids)];
    IdsFilterMatches(ids, row);
    assert Matches(f, row) <==> Matches(f.filters[0], row) && Matches(f.filters[1], row);
  }

  /** The nested update's added filter selects exactly the records holding the last child's identifier. */
  lemma UpdateByLastParentIdMatches(n: Node, ids: seq<RecordIdentifier>, row: Row)
    requires IsWriteOf(n, UpdateRecord) && ids != []
    ensures var w := UpdateByLastParentId(n, ids).value.query.write;
      var added := w.addedFilters[|w.addedFilters| - 1];
      IsPlain(added) && (Matches(added, row) <==> HoldsId(row, Last(ids)))
  {
    IdFilterMatches(Last(ids), row);
  }

  // ---------------------------------------------------------------------------
  // connect_nested_upsert
  // ---------------------------------------------------------------------------

  /** The upsert's `If` node takes the update branch exactly when a child was found. */
  function UpsertIf(n: Node, ids: seq<RecordIdentifier>): (r: Node)
    ensures n.IfNode? ==> r == IfNode(Decided(ids != []))
    ensures !n.IfNode? ==> r == n
  {
    if n.IfNode? then IfNode(Decided(|ids| != 0)) else n
  }

  /** The upsert's update is narrowed to `id = ` the last child found; other nodes are untouched. */
  function UpsertUpdateById(n: Node, ids: seq<RecordIdentifier>, idField: DataSourceField): (r: Result<Node, GraphError>)
    requires IdsHaveValues(ids)
    ensures r.Err? <==> IsWriteOf(n, UpdateRecord) && ids == []
    ensures r.Err? ==> r.error.AssertionError?
    ensures r.Ok? && IsWriteOf(n, UpdateRecord) ==>
      r.value == AddFilter(n, IdEquals(idField, Last(ids)))
    ensures r.Ok? && !IsWriteOf(n, UpdateRecord) ==> r.value == n
  {
    if IsWriteOf(n, UpdateRecord) then
      if ids == [] then Err(AssertionError("nested upsert update: no child id"))
      else Ok(AddFilter(n, IdEquals(idField, Last(ids))))
    else Ok(n)
  }

  /** The parent update (relation inlined in the parent) is narrowed to `id = ` the last parent id. */
  function ParentUpdateById(n: Node, ids: seq<RecordIdentifier>, idField: DataSourceField): (r: Result<Node, GraphError>)
    requires IdsHaveValues(ids)
    ensures r.Err? <==> ids == []
    ensures r.Err? ==> r.error.AssertionError?
    ensures r.Ok? ==> r.value == AddFilter(n, IdEquals(idField, Last(ids)))
  {
    if ids == [] then Err(AssertionError("nested upsert parent update: no parent id"))
    else Ok(AddFilter(n, IdEquals(idField, Last(ids))))
  }

  /** The target write receives `fieldName = ` the last identifier's value. */
  function InjectFromLastId(n: Node, ids: seq<RecordIdentifier>, fieldName: string): (r: Result<Node, GraphError>)
    requires IdsHaveValues(ids)
    ensures r.Err? <==> ids == []
    ensures r.Err? ==> r.error.AssertionError?
    ensures r.Ok? ==> r.value == InjectFieldArg(n, fieldName, SingleValue(Last(ids)))
  {
    if ids == [] then Err(AssertionError("nested upsert inject: no id"))
    else Ok(InjectFieldArg(n, fieldName, SingleValue(Last(ids))))
  }

  // ---------------------------------------------------------------------------
  // Dispatch
  // ---------------------------------------------------------------------------

  /** Which nodes a transform may be applied to (the one-to-one check panics on anything but `If`). */
  predicate Applicable(t: Transform, n: Node) {
    t.OneToOneIfCheck? ==> n.IfNode?
  }

  /**
   * Running a parent-id edge: the transform named on the edge rewrites the
   * target node.  Only the transforms that can fail produce errors.
   */
  function ApplyTransform(t: Transform, n: Node, ids: seq<RecordIdentifier>): (r: Result<Node, GraphError>)
    requires IdsHaveValues(ids) && Applicable(t, n)
    ensures r.Err? ==> ids == [] || t.OneToOneIfCheck? || t.RequireNoRelated?
    ensures t.SetRelationParentIds? || t.UpdateManyByParentIds? || t.UpsertIf? ==> r.Ok?
    ensures r.Ok? && !IsWrite(n) && !n.IfNode? && !(n.QueryNode? && n.query.ReadNode?) ==> r.value == n
  {
    match t
    case SetRelationParentIds => Ok(SetRelationParentIds(n, ids))
    case OneToOneIfCheck(rf, req, inl) => OneToOneIfCheck(n, ids, rf, req, inl)
    case DisconnectExistingChild(idf, name) => DisconnectExistingChild(n, ids, idf, name)
    case RequireNoRelated(rf) => RequireNoRelated(n, ids, rf)
    case UpdateByLastParentId => UpdateByLastParentId(n, ids)
    case UpdateManyByParentIds => Ok(UpdateManyByParentIds(n, ids))
    case UpsertIf => Ok(UpsertIf(n, ids))
    case UpsertUpdateById(idf) => UpsertUpdateById(n, ids, idf)
    case ParentUpdateById(idf) => ParentUpdateById(n, ids, idf)
    case InjectFromLastId(name) => InjectFromLastId(n, ids, name)
  }
}
