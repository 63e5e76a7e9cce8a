/**
 * Nested upserts (upsert_nested.rs): for each element of the input, a read
 * of the connected child, an `If` on whether it exists, an update (then)
 * and a create (else), and the wiring that connects a created child to the
 * parent according to where the relation is stored.
 */
module UpsertNested {
  import opened Wrappers
  import opened Prisma
  import opened QueryGraph
  import opened WriteUtils
  import opened InputAssertions
  import opened EdgeRules
  import opened UpdateNested
  import opened Growths

  /** The create node `create_record_node` makes for the child. */
  function CreateNode(childModel: string, data: ParsedInputMap): Node {
    QueryNode(WriteNode(WriteQuery(CreateRecord, childModel, EmptyFilter, [], data, [])))
  }

  /** The keys an element must carry (the source expects them). */
  predicate UpsertKeysPresent(rf: RelationField, v: ParsedInputValue) {
    v.MapInput? ==> "create" in v.entries && "update" in v.entries && (rf.isList ==> "where" in v.entries)
  }

  /**
   * The singular id fields the source unwraps: the child's always, the
   * parent's when the relation is one-to-x and inlined in the parent.
   */
  predicate UpsertIdFieldsPresent(rf: RelationField) {
    && rf.relatedModelIdField.Some?
    && (!rf.isManyToMany && rf.inlinedInParent ==> rf.modelIdField.Some?)
  }

  /** The read filter: the checked `where` on a list relation, empty otherwise. */
  function UpsertFilter(rf: RelationField, m: ParsedInputMap): (r: Result<Filter, GraphError>)
    requires rf.isList ==> "where" in m
    ensures !rf.isList ==> r == Ok(EmptyFilter)
    ensures rf.isList ==> r == WhereFilter(m["where"], rf.relatedModel)
  {
    if rf.isList then WhereFilter(m["where"], rf.relatedModel) else Ok(EmptyFilter)
  }

  /** An element that is processed without error. */
  predicate UpsertElementOk(rf: RelationField, v: ParsedInputValue)
    requires UpsertKeysPresent(rf, v)
  {
    && v.MapInput?
    && UpsertFilter(rf, v.entries).Ok?
    && v.entries["create"].MapInput?
    && v.entries["update"].MapInput?
  }

  /** Nodes one successful element adds: read, create, update, if, and one more unless inlined in the child. */
  function UpsertNodeCount(rf: RelationField): nat {
    if rf.isManyToMany || rf.inlinedInParent then 5 else 4
  }

  /** Edges one successful element adds. */
  function UpsertEdgeCount(rf: RelationField): nat {
    if rf.isManyToMany then 5 else if rf.inlinedInParent then 7 else 6
  }

  /**
   * One element of `connect_nested_upsert`, with `n` nodes already in the
   * graph.  The read, create and update nodes go in one after the other,
   * and a create or update input that is not a map fails after the nodes
   * before it were added.
   */
  function UpsertStep(rf: RelationField, parent: NodeRef, n: nat, v: ParsedInputValue): (r: Growth)
    requires UpsertKeysPresent(rf, v) && UpsertIdFieldsPresent(rf)
    ensures r.error.None? <==> UpsertElementOk(rf, v)
    ensures r.error.None? ==> |r.nodes| == UpsertNodeCount(rf) && |r.edges| == UpsertEdgeCount(rf)
  {
    if !v.MapInput? then Growth([], [], Some(NotAMap))
    else
      var m := v.entries;
      var rel := rf.relatedModel;
      match UpsertFilter(rf, m)
      case Err(e) => Growth([], [], Some(e))
      case Ok(filter) =>
        var read := FindChildrenNode(rf, filter);
        var readEdge := FindChildrenEdge(parent, n, rf);
        if !m["create"].MapInput? then Growth([read], [readEdge], Some(NotAMap))
        else
          var create := CreateNode(rel, m["create"].entries);
          if !m["update"].MapInput? then Growth([read, create], [readEdge], Some(NotAMap))
          else
            var nodes := [read, create, UpdateNode(rel, m["update"].entries), IfNode(DefaultCondition)];
            var edges := [readEdge,
                          Edge(n, n + 3, ParentIds(rel, UpsertIf)),
                          Edge(n, n + 2, ParentIds(rel, UpsertUpdateById(rf.relatedModelIdField.value))),
                          Edge(n + 3, n + 2, Then),
                          Edge(n + 3, n + 1, Else)];
            if rf.isManyToMany then
              Growth(nodes + [QueryNode(ConnectNode(Connect(parent, n + 1, rf.name, 1)))], edges, None)
            else if rf.inlinedInParent then
              Growth(nodes + [PlaceholderNode(EmptyFilter, rf.model)],
                     edges + [Edge(parent, n + 4, ParentIds(rel, ParentUpdateById(rf.modelIdField.value))),
                              Edge(n + 1, n + 4, ParentIds(rel, InjectFromLastId(rf.name)))],
                     None)
            else
              Growth(nodes, edges + [Edge(parent, n + 1, ParentIds(rel, InjectFromLastId(rf.relatedFieldName)))], None)
  }

  /**
   * When the graph runs, the `If` of a successful element takes the update
   * branch (`Then`) exactly when the read found a child, and the create
   * (`Else`) otherwise.
   */
  lemma UpsertBranching(rf: RelationField, parent: NodeRef, n: nat, v: ParsedInputValue, ids: seq<RecordIdentifier>)
    requires UpsertKeysPresent(rf, v) && UpsertIdFieldsPresent(rf) && UpsertElementOk(rf, v) && IdsHaveValues(ids)
    ensures var g := UpsertStep(rf, parent, n, v);
      && g.edges[1] == Edge(n, n + 3, ParentIds(rf.relatedModel, UpsertIf))
      && ApplyTransform(g.edges[1].dependency.transform, g.nodes[3], ids) == Ok(IfNode(Decided(ids != [])))
      && g.edges[3] == Edge(n + 3, n + 2, Then) && IsWriteOf(g.nodes[2], UpdateRecord)
      && g.edges[4] == Edge(n + 3, n + 1, Else) && IsWriteOf(g.nodes[1], CreateRecord)
  {
    var g := UpsertStep(rf, parent, n, v);
    assert g.nodes[1] == CreateNode(rf.relatedModel, v.entries["create"].entries);
    assert g.nodes[2] == UpdateNode(rf.relatedModel, v.entries["update"].entries);
  }

  /**
   * The update of a successful element is fed by the read: it is narrowed
   * to the found child's id, and fails when no child was found.
   */
  lemma UpsertUpdateNarrowed(rf: RelationField, parent: NodeRef, n: nat, v: ParsedInputValue, ids: seq<RecordIdentifier>)
    requires UpsertKeysPresent(rf, v) && UpsertIdFieldsPresent(rf) && UpsertElementOk(rf, v) && IdsHaveValues(ids)
    ensures var g := UpsertStep(rf, parent, n, v);
      && g.edges[2].from == n && g.edges[2].to == n + 2
      && var upd := ApplyTransform(g.edges[2].dependency.transform, g.nodes[2], ids);
        && (upd.Err? <==> ids == [])
        && (upd.Ok? ==> upd.value.query.write.addedFilters == [ScalarEquals(rf.relatedModelIdField.value, SingleValue(Last(ids)))])
  {
    var g := UpsertStep(rf, parent, n, v);
    assert g.nodes[2] == UpdateNode(rf.relatedModel, v.entries["update"].entries);
  }

  /**
   * The created child of a successful element is tied to the parent by a
   * connect (many-to-many), by a parent update that stores the child's id
   * (inlined in the parent), or by injecting the parent's id into the create
   * (inlined in the child).
   */
  lemma UpsertChildLinked(rf: RelationField, parent: NodeRef, n: nat, v: ParsedInputValue, ids: seq<RecordIdentifier>)
    requires UpsertKeysPresent(rf, v) && UpsertIdFieldsPresent(rf) && UpsertElementOk(rf, v) && IdsHaveValues(ids)
    ensures var g := UpsertStep(rf, parent, n, v);
      && (rf.isManyToMany ==> g.nodes[4] == QueryNode(ConnectNode(Connect(parent, n + 1, rf.name, 1))))
      && (!rf.isManyToMany && rf.inlinedInParent ==>
            && IsWriteOf(g.nodes[4], UpdateManyRecords) && g.nodes[4].query.write.model == rf.model
            && g.edges[5] == Edge(parent, n + 4, ParentIds(rf.relatedModel, ParentUpdateById(rf.modelIdField.value)))
            && g.edges[6] == Edge(n + 1, n + 4, ParentIds(rf.relatedModel, InjectFromLastId(rf.name))))
      && (!rf.isManyToMany && !rf.inlinedInParent ==>
            && g.edges[5] == Edge(parent, n + 1, ParentIds(rf.relatedModel, InjectFromLastId(rf.relatedFieldName)))
            && var c := ApplyTransform(g.edges[5].dependency.transform, g.nodes[1], ids);
              c.Ok? ==> c.value.query.write.injected == [(rf.relatedFieldName, SingleValue(Last(ids)))])
  {
    var g := UpsertStep(rf, parent, n, v);
    assert g.nodes[1] == CreateNode(rf.relatedModel, v.entries["create"].entries);
  }

  /** One element of `connect_nested_upsert` as a step of the loop. */
  function UpsertStepFn(rf: RelationField, parent: NodeRef): (r: (nat, ParsedInputValue) --> Growth)
    ensures forall m: nat, v :: UpsertKeysPresent(rf, v) && UpsertIdFieldsPresent(rf) ==> r.requires(m, v)
    ensures forall m: nat, v :: UpsertKeysPresent(rf, v) && UpsertIdFieldsPresent(rf) ==> r(m, v) == UpsertStep(rf, parent, m, v)
  {
    (m: nat, v: ParsedInputValue) requires UpsertKeysPresent(rf, v) && UpsertIdFieldsPresent(rf) => UpsertStep(rf, parent, m, v)
  }

  /** The elements in order, stopping at the first error. */
  function UpsertSteps(rf: RelationField, parent: NodeRef, n: nat, vs: seq<ParsedInputValue>): Growth
    requires UpsertIdFieldsPresent(rf) && forall i :: 0 <= i < |vs| ==> UpsertKeysPresent(rf, vs[i])
  {
    Steps(UpsertStepFn(rf, parent), n, vs)
  }

  /** The nested upsert succeeds iff every element does. */
  lemma UpsertStepsOk(rf: RelationField, parent: NodeRef, n: nat, vs: seq<ParsedInputValue>)
    requires UpsertIdFieldsPresent(rf) && forall i :: 0 <= i < |vs| ==> UpsertKeysPresent(rf, vs[i])
    ensures UpsertSteps(rf, parent, n, vs).error.None? <==> forall i :: 0 <= i < |vs| ==> UpsertElementOk(rf, vs[i])
  {
    StepsOk(UpsertStepFn(rf, parent), v => UpsertKeysPresent(rf, v) && UpsertElementOk(rf, v), n, vs);
  }

  /** Every successful element adds the same number of nodes and edges. */
  lemma UpsertStepsCount(rf: RelationField, parent: NodeRef, n: nat, vs: seq<ParsedInputValue>)
    requires UpsertIdFieldsPresent(rf) && forall i :: 0 <= i < |vs| ==> UpsertKeysPresent(rf, vs[i])
    requires UpsertSteps(rf, parent, n, vs).error.None?
    ensures |UpsertSteps(rf, parent, n, vs).nodes| == UpsertNodeCount(rf) * |vs|
    ensures |UpsertSteps(rf, parent, n, vs).edges| == UpsertEdgeCount(rf) * |vs|
  {
    StepsCount(UpsertStepFn(rf, parent), n, vs, UpsertNodeCount(rf), UpsertEdgeCount(rf));
  }

  /**
   * When the nested upsert succeeds, element `i` succeeded and its nodes
   * and edges are those of its own step, numbered from
   * `n + UpsertNodeCount(rf) * i`, at position `i` of the fixed-size blocks.
   */
  lemma UpsertElementPlacement(rf: RelationField, parent: NodeRef, n: nat, vs: seq<ParsedInputValue>, i: nat)
    requires i < |vs| && UpsertIdFieldsPresent(rf) && forall j :: 0 <= j < |vs| ==> UpsertKeysPresent(rf, vs[j])
    requires UpsertSteps(rf, parent, n, vs).error.None?
    ensures var g := UpsertSteps(rf, parent, n, vs);
      var k := UpsertNodeCount(rf);
      var e := UpsertEdgeCount(rf);
      var s := UpsertStep(rf, parent, n + k * i, vs[i]);
      && UpsertElementOk(rf, vs[i])
      && k * i + k <= |g.nodes| && g.nodes[k * i..k * i + k] == s.nodes
      && e * i + e <= |g.edges| && g.edges[e * i..e * i + e] == s.edges
  {
    UpsertStepsOk(rf, parent, n, vs);
    StepsAt(UpsertStepFn(rf, parent), n, vs, UpsertNodeCount(rf), UpsertEdgeCount(rf), i);
  }

  /** One element of `connect_nested_upsert`. */
  method ConnectNestedUpsertElement(g: QueryGraph, parent: NodeRef, rf: RelationField, v: ParsedInputValue)
    returns (err: Option<GraphError>)
    requires g.Valid() && parent < |g.nodes| && UpsertKeysPresent(rf, v) && UpsertIdFieldsPresent(rf)
    modifies g
    ensures g.Valid()
    ensures var s := UpsertStep(rf, parent, |old(g.nodes)|, v);
      g.nodes == old(g.nodes) + s.nodes && g.edges == old(g.edges) + s.edges && err == s.error
  {
    if !v.MapInput? {
      return Some(NotAMap);
    }
    var asMap := v.entries;
    var createInput := asMap["create"];
    var updateInput := asMap["update"];
    var filter := UpsertFilter(rf, asMap);
    if filter.Err? {
      return Some(filter.error);
    }
    var readChildren := InsertFindChildrenByParentNode(g, parent, rf, filter.value);
    if !createInput.MapInput? {
      return Some(NotAMap);
    }
    var create := g.CreateNode(CreateNode(rf.relatedModel, createInput.entries));
    if !updateInput.MapInput? {
      return Some(NotAMap);
    }
    var update := g.CreateNode(UpdateNode(rf.relatedModel, updateInput.entries));
    ConnectUpsertIf(g, parent, rf, readChildren);
    return None;
  }

  /**
   * The `If` of an upsert element whose read, create and update nodes are
   * `read`, `read + 1` and `read + 2`: the `If` node, its edges, and the
   * relation-specific tail.
   */
  method ConnectUpsertIf(g: QueryGraph, parent: NodeRef, rf: RelationField, read: NodeRef)
    requires g.Valid() && parent < |g.nodes| && read + 3 == |g.nodes| && UpsertIdFieldsPresent(rf)
    modifies g
    ensures g.Valid()
    ensures var rel := rf.relatedModel;
      var edges := [Edge(read, read + 3, ParentIds(rel, UpsertIf)),
                    Edge(read, read + 2, ParentIds(rel, UpsertUpdateById(rf.relatedModelIdField.value))),
                    Edge(read + 3, read + 2, Then),
                    Edge(read + 3, read + 1, Else)];
      if rf.isManyToMany then
        && g.nodes == old(g.nodes) + [IfNode(DefaultCondition), QueryNode(ConnectNode(Connect(parent, read + 1, rf.name, 1)))]
        && g.edges == old(g.edges) + edges
      else if rf.inlinedInParent then
        && g.nodes == old(g.nodes) + [IfNode(DefaultCondition), PlaceholderNode(EmptyFilter, rf.model)]
        && g.edges == old(g.edges) + edges
                      + [Edge(parent, read + 4, ParentIds(rel, ParentUpdateById(rf.modelIdField.value))),
                         Edge(read + 1, read + 4, ParentIds(rel, InjectFromLastId(rf.name)))]
      else
        && g.nodes == old(g.nodes) + [IfNode(DefaultCondition)]
        && g.edges == old(g.edges) + edges + [Edge(parent, read + 1, ParentIds(rel, InjectFromLastId(rf.relatedFieldName)))]
  {
    var ifNode := g.CreateNode(IfNode(DefaultCondition));
    g.CreateEdge(read, ifNode, ParentIds(rf.relatedModel, UpsertIf));
    g.CreateEdge(read, read + 2, ParentIds(rf.relatedModel, UpsertUpdateById(rf.relatedModelIdField.value)));
    g.CreateEdge(ifNode, read + 2, Then);
    g.CreateEdge(ifNode, read + 1, Else);
    ConnectCreatedChild(g, parent, rf, read + 1);
  }

  /** The relation-specific tail of an upsert element (lines after the `Then`/`Else` edges). */
  method ConnectCreatedChild(g: QueryGraph, parent: NodeRef, rf: RelationField, create: NodeRef)
    requires g.Valid() && parent < |g.nodes| && create < |g.nodes| && UpsertIdFieldsPresent(rf)
    modifies g
    ensures g.Valid()
    ensures var n := |old(g.nodes)|;
      if rf.isManyToMany then
        g.nodes == old(g.nodes) + [QueryNode(ConnectNode(Connect(parent, create, rf.name, 1)))] && g.edges == old(g.edges)
      else if rf.inlinedInParent then
        && g.nodes == old(g.nodes) + [PlaceholderNode(EmptyFilter, rf.model)]
        && g.edges == old(g.edges) + [Edge(parent, n, ParentIds(rf.relatedModel, ParentUpdateById(rf.modelIdField.value))),
                                      Edge(create, n, ParentIds(rf.relatedModel, InjectFromLastId(rf.name)))]
      else
        g.nodes == old(g.nodes) && g.edges == old(g.edges) + [Edge(parent, create, ParentIds(rf.relatedModel, InjectFromLastId(rf.relatedFieldName)))]
  {
    if rf.isManyToMany {
      var _ := g.CreateNode(QueryNode(ConnectNode(Connect(parent, create, rf.name, 1))));
    } else if rf.inlinedInParent {
      var update := UpdateRecordsNodePlaceholder(g, EmptyFilter, rf.model);
      g.CreateEdge(parent, update, ParentIds(rf.relatedModel, ParentUpdateById(rf.modelIdField.value)));
      g.CreateEdge(create, update, ParentIds(rf.relatedModel, InjectFromLastId(rf.name)));
    } else {
      g.CreateEdge(parent, create, ParentIds(rf.relatedModel, InjectFromLastId(rf.relatedFieldName)));
    }
  }

  method ConnectNestedUpsertNext(g: QueryGraph, parent: NodeRef, rf: RelationField, vs: seq<ParsedInputValue>, i: nat,
                                 ghost n: nat, ghost nodes0: seq<Node>, ghost edges0: seq<Edge>)
    returns (err: Option<GraphError>)
    requires i < |vs| && UpsertIdFieldsPresent(rf) && forall j :: 0 <= j < |vs| ==> UpsertKeysPresent(rf, vs[j])
    requires g.Valid() && parent < |g.nodes| && n == |nodes0|
    requires var s := UpsertSteps(rf, parent, n, vs[..i]);
      g.nodes == nodes0 + s.nodes && g.edges == edges0 + s.edges && s.error == None
    modifies g
    ensures g.Valid() && parent < |g.nodes|
    ensures var s := UpsertSteps(rf, parent, n, vs[..i + 1]);
      g.nodes == nodes0 + s.nodes && g.edges == edges0 + s.edges && err == s.error
  {
    UpsertStepsSnoc(rf, parent, n, vs, i);
    ghost var before := UpsertSteps(rf, parent, n, vs[..i]);
    ghost var s := UpsertStep(rf, parent, n + |before.nodes|, vs[i]);
    err := ConnectNestedUpsertElement(g, parent, rf, vs[i]);
    AppendAssoc(nodes0, before.nodes, s.nodes);
    AppendAssoc(edges0, before.edges, s.edges);
  }

  /** Processing one more element, when the elements before it succeeded. */
  lemma UpsertStepsSnoc(rf: RelationField, parent: NodeRef, n: nat, vs: seq<ParsedInputValue>, i: nat)
    requires i < |vs| && UpsertIdFieldsPresent(rf) && forall j :: 0 <= j < |vs| ==> UpsertKeysPresent(rf, vs[j])
    requires UpsertSteps(rf, parent, n, vs[..i]).error.None?
    ensures var b := UpsertSteps(rf, parent, n, vs[..i]);
      var s := UpsertStep(rf, parent, n + |b.nodes|, vs[i]);
      UpsertSteps(rf, parent, n, vs[..i + 1]) == Growth(b.nodes + s.nodes, b.edges + s.edges, s.error)
  {
    StepsSnoc(UpsertStepFn(rf, parent), n, vs, i);
  }

  /** `connect_nested_upsert`: every element of the input in order, up to the first error. */
  method ConnectNestedUpsert(g: QueryGraph, parent: NodeRef, rf: RelationField, value: ParsedInputValue)
    returns (err: Option<GraphError>)
    requires g.Valid() && parent < |g.nodes| && UpsertIdFieldsPresent(rf)
    requires forall i :: 0 <= i < |CoerceVec(value)| ==> UpsertKeysPresent(rf, CoerceVec(value)[i])
    modifies g
    ensures g.Valid()
    ensures var s := UpsertSteps(rf, parent, |old(g.nodes)|, CoerceVec(value));
      g.nodes == old(g.nodes) + s.nodes && g.edges == old(g.edges) + s.edges && err == s.error
  {
    var vs := CoerceVec(value);
    ghost var n := |g.nodes|;
    var i := 0;
    err := None;
    while i < |vs|
      invariant 0 <= i <= |vs|
      invariant g.Valid() && parent < |g.nodes| && err == None
      invariant var s := UpsertSteps(rf, parent, n, vs[..i]);
        g.nodes == old(g.nodes) + s.nodes && g.edges == old(g.edges) + s.edges && s.error == None
    {
      err := ConnectNestedUpsertNext(g, parent, rf, vs, i, n, old(g.nodes), old(g.edges));
      if err.Some? {
        StepsStopAtFirstError(UpsertStepFn(rf, parent), n, vs, i + 1);
        return;
      }
      i := i + 1;
    }
    assert vs[..i] == vs;
  }
}
