/**
 * Nested updates (update_nested.rs): for each element of the input, a read
 * of the connected children and an update fed by that read.
 *
 * Each element's contribution to the graph is a `Growth`: the nodes and
 * edges it appends and the error it stops with, if any.  The loops are
 * specified by the growth of the elements processed so far.
 */
module UpdateNested {
  import opened Wrappers
  import opened Prisma
  import opened QueryGraph
  import opened WriteUtils
  import opened InputAssertions
  import opened Growths

  /** The update (one) node `update_record_node` creates: no filter yet. */
  function UpdateNode(childModel: string, data: ParsedInputMap): Node {
    QueryNode(WriteNode(WriteQuery(UpdateRecord, childModel, EmptyFilter, [], data, [])))
  }

  // ---------------------------------------------------------------------------
  // connect_nested_update
  // ---------------------------------------------------------------------------

  /**
   * The keys an element must carry (the source unwraps them): `where` first,
   * and `data` only once the `where` filter has passed its checks.
   */
  predicate UpdateKeysPresent(rf: RelationField, childModel: string, v: ParsedInputValue) {
    rf.isList && v.MapInput? ==>
      && "where" in v.entries
      && (WhereFilter(v.entries["where"], childModel).Ok? ==> "data" in v.entries)
  }

  /**
   * An element's update data and read filter: on a list relation, the
   * element is a map whose `where` must name exactly one child and whose
   * `data` is the update; on a to-one relation, the element is the data.
   */
  function UpdateInput(rf: RelationField, childModel: string, v: ParsedInputValue): (r: Result<(ParsedInputValue, Filter), GraphError>)
    requires UpdateKeysPresent(rf, childModel, v)
    ensures !rf.isList ==> r == Ok((v, EmptyFilter))
    ensures rf.isList && !v.MapInput? ==> r == Err(NotAMap)
    ensures rf.isList && v.MapInput? ==> r.Ok? == WhereFilter(v.entries["where"], childModel).Ok?
    ensures rf.isList && r.Ok? ==> r.value == (v.entries["data"], Extracted(v.entries["where"].entries, childModel, false))
  {
    if rf.isList then
      var m :- AsMap(v);
      var filter :- WhereFilter(m["where"], childModel);
      Ok((m["data"], filter))
    else
      Ok((v, EmptyFilter))
  }

  /**
   * A list element `{where: {}}` without `data` is a valid input: its empty
   * `where` fails the size check before `data` is looked at.
   */
  lemma UpdateInputWhereCheckedFirst(rf: RelationField, childModel: string)
    requires rf.isList
    ensures var v := MapInput(map["where" := MapInput(map[])]);
      UpdateKeysPresent(rf, childModel, v) && UpdateInput(rf, childModel, v) == Err(WrongSize(1, 0))
  {
  }

  /** An element that is processed without error. */
  predicate UpdateElementOk(rf: RelationField, childModel: string, v: ParsedInputValue)
    requires UpdateKeysPresent(rf, childModel, v)
  {
    UpdateInput(rf, childModel, v).Ok? && UpdateInput(rf, childModel, v).value.0.MapInput?
  }

  /**
   * One element of `connect_nested_update`, with `n` nodes already in the
   * graph: the read goes in first; data that is not a map then fails,
   * leaving the read in place.
   */
  function UpdateStep(rf: RelationField, childModel: string, parent: NodeRef, n: nat, v: ParsedInputValue): (r: Growth)
    requires UpdateKeysPresent(rf, childModel, v)
    ensures r.error.None? <==> UpdateElementOk(rf, childModel, v)
  {
    match UpdateInput(rf, childModel, v)
    case Err(e) => Growth([], [], Some(e))
    case Ok((data, filter)) =>
      if !data.MapInput? then
        Growth([FindChildrenNode(rf, filter)], [FindChildrenEdge(parent, n, rf)], Some(NotAMap))
      else
        Growth([FindChildrenNode(rf, filter), UpdateNode(childModel, data.entries)],
               [FindChildrenEdge(parent, n, rf), Edge(n, n + 1, ParentIds(rf.relatedModel, UpdateByLastParentId))],
               None)
  }

  /** One element of `connect_nested_update` as a step of the loop. */
  function UpdateStepFn(rf: RelationField, childModel: string, parent: NodeRef): (r: (nat, ParsedInputValue) --> Growth)
    ensures forall m: nat, v :: UpdateKeysPresent(rf, childModel, v) ==> r.requires(m, v)
    ensures forall m: nat, v :: UpdateKeysPresent(rf, childModel, v) ==> r(m, v) == UpdateStep(rf, childModel, parent, m, v)
  {
    (m: nat, v: ParsedInputValue) requires UpdateKeysPresent(rf, childModel, v) => UpdateStep(rf, childModel, parent, m, v)
  }

  /** The elements in order, stopping at the first error. */
  function UpdateSteps(rf: RelationField, childModel: string, parent: NodeRef, n: nat, vs: seq<ParsedInputValue>): Growth
    requires forall i :: 0 <= i < |vs| ==> UpdateKeysPresent(rf, childModel, vs[i])
  {
    Steps(UpdateStepFn(rf, childModel, parent), n, vs)
  }

  /** The nested update succeeds iff every element does. */
  lemma UpdateStepsOk(rf: RelationField, childModel: string, parent: NodeRef, n: nat, vs: seq<ParsedInputValue>)
    requires forall i :: 0 <= i < |vs| ==> UpdateKeysPresent(rf, childModel, vs[i])
    ensures UpdateSteps(rf, childModel, parent, n, vs).error.None? <==>
      forall i :: 0 <= i < |vs| ==> UpdateElementOk(rf, childModel, vs[i])
  {
    StepsOk(UpdateStepFn(rf, childModel, parent), v => UpdateKeysPresent(rf, childModel, v) && UpdateElementOk(rf, childModel, v), n, vs);
  }

  /** A successful element appends its read and its update, wired by two edges. */
  lemma UpdateStepOkShape(rf: RelationField, childModel: string, parent: NodeRef, m: nat, v: ParsedInputValue)
    requires UpdateKeysPresent(rf, childModel, v) && UpdateStep(rf, childModel, parent, m, v).error.None?
    ensures UpdateElementOk(rf, childModel, v)
    ensures var s := UpdateStep(rf, childModel, parent, m, v);
      var input := UpdateInput(rf, childModel, v).value;
      && s.nodes == [FindChildrenNode(rf, input.1), UpdateNode(childModel, input.0.entries)]
      && s.edges == [FindChildrenEdge(parent, m, rf), Edge(m, m + 1, ParentIds(rf.relatedModel, UpdateByLastParentId))]
  {
  }

  /** Every successful element appends two nodes and two edges. */
  lemma UpdateStepFixedSize(rf: RelationField, childModel: string, parent: NodeRef, vs: seq<ParsedInputValue>)
    requires forall i :: 0 <= i < |vs| ==> UpdateKeysPresent(rf, childModel, vs[i])
    ensures FixedSize(UpdateStepFn(rf, childModel, parent), vs, 2, 2)
  {
    var step := UpdateStepFn(rf, childModel, parent);
    forall m: nat, i | 0 <= i < |vs| && step.requires(m, vs[i]) && step(m, vs[i]).error.None?
      ensures |step(m, vs[i]).nodes| == 2 && |step(m, vs[i]).edges| == 2
    {
      UpdateStepOkShape(rf, childModel, parent, m, vs[i]);
    }
  }

  /**
   * When the nested update succeeds, element `i` contributes, in order, the
   * read of the children (fed by the parent) and the update fed by that
   * read.
   */
  lemma UpdateStepsLayout(rf: RelationField, childModel: string, parent: NodeRef, n: nat, vs: seq<ParsedInputValue>)
    requires forall i :: 0 <= i < |vs| ==> UpdateKeysPresent(rf, childModel, vs[i])
    requires UpdateSteps(rf, childModel, parent, n, vs).error.None?
    ensures var g := UpdateSteps(rf, childModel, parent, n, vs);
      && |g.nodes| == 2 * |vs| && |g.edges| == 2 * |vs|
      && forall i :: 0 <= i < |vs| ==>
        && UpdateElementOk(rf, childModel, vs[i])
        && g.nodes[2 * i] == FindChildrenNode(rf, UpdateInput(rf, childModel, vs[i]).value.1)
        && g.nodes[2 * i + 1] == UpdateNode(childModel, UpdateInput(rf, childModel, vs[i]).value.0.entries)
        && g.edges[2 * i] == FindChildrenEdge(parent, n + 2 * i, rf)
        && g.edges[2 * i + 1] == Edge(n + 2 * i, n + 2 * i + 1, ParentIds(rf.relatedModel, UpdateByLastParentId))
  {
    var step := UpdateStepFn(rf, childModel, parent);
    var g := Steps(step, n, vs);
    UpdateStepFixedSize(rf, childModel, parent, vs);
    StepsCount(step, n, vs, 2, 2);
    forall i | 0 <= i < |vs|
      ensures UpdateElementOk(rf, childModel, vs[i])
      ensures g.nodes[2 * i] == FindChildrenNode(rf, UpdateInput(rf, childModel, vs[i]).value.1)
      ensures g.nodes[2 * i + 1] == UpdateNode(childModel, UpdateInput(rf, childModel, vs[i]).value.0.entries)
      ensures g.edges[2 * i] == FindChildrenEdge(parent, n + 2 * i, rf)
      ensures g.edges[2 * i + 1] == Edge(n + 2 * i, n + 2 * i + 1, ParentIds(rf.relatedModel, UpdateByLastParentId))
    {
      StepsAt(step, n, vs, 2, 2, i);
      UpdateStepOkShape(rf, childModel, parent, n + 2 * i, vs[i]);
      assert g.nodes[2 * i] == g.nodes[2 * i..2 * i + 2][0] && g.nodes[2 * i + 1] == g.nodes[2 * i..2 * i + 2][1];
      assert g.edges[2 * i] == g.edges[2 * i..2 * i + 2][0] && g.edges[2 * i + 1] == g.edges[2 * i..2 * i + 2][1];
    }
  }

  /** One element of `connect_nested_update`. */
  method ConnectNestedUpdateElement(g: QueryGraph, parent: NodeRef, rf: RelationField, v: ParsedInputValue, childModel: string)
    returns (err: Option<GraphError>)
    requires g.Valid() && parent < |g.nodes| && UpdateKeysPresent(rf, childModel, v)
    modifies g
    ensures g.Valid()
    ensures var s := UpdateStep(rf, childModel, parent, |old(g.nodes)|, v);
      g.nodes == old(g.nodes) + s.nodes && g.edges == old(g.edges) + s.edges && err == s.error
  {
    var input := UpdateInput(rf, childModel, v);
    if input.Err? {
      return Some(input.error);
    }
    var (data, filter) := input.value;
    var read := InsertFindChildrenByParentNode(g, parent, rf, filter);
    if !data.MapInput? {
      return Some(NotAMap);
    }
    var update := g.CreateNode(UpdateNode(childModel, data.entries));
    g.CreateEdge(read, update, ParentIds(rf.relatedModel, UpdateByLastParentId));
    return None;
  }

  /** `connect_nested_update`: every element of the input in order, up to the first error. */
  method ConnectNestedUpdate(g: QueryGraph, parent: NodeRef, rf: RelationField, value: ParsedInputValue, childModel: string)
    returns (err: Option<GraphError>)
    requires g.Valid() && parent < |g.nodes|
    requires forall i :: 0 <= i < |CoerceVec(value)| ==> UpdateKeysPresent(rf, childModel, CoerceVec(value)[i])
    modifies g
    ensures g.Valid()
    ensures var s := UpdateSteps(rf, childModel, parent, |old(g.nodes)|, CoerceVec(value));
      g.nodes == old(g.nodes) + s.nodes && g.edges == old(g.edges) + s.edges && err == s.error
  {
    var vs := CoerceVec(value);
    ghost var n := |g.nodes|;
    var i := 0;
    err := None;
    while i < |vs|
      invariant 0 <= i <= |vs|
      invariant g.Valid() && parent < |g.nodes| && err == None
      invariant var s := UpdateSteps(rf, childModel, parent, n, vs[..i]);
        g.nodes == old(g.nodes) + s.nodes && g.edges == old(g.edges) + s.edges && s.error == None
    {
      err := ConnectNestedUpdateNext(g, parent, rf, vs, i, childModel, n, old(g.nodes), old(g.edges));
      if err.Some? {
        StepsStopAtFirstError(UpdateStepFn(rf, childModel, parent), n, vs, i + 1);
        return;
      }
      i := i + 1;
    }
    assert vs[..i] == vs;
  }

  /** Element `i` of the loop, given that the elements before it succeeded. */
  method ConnectNestedUpdateNext(g: QueryGraph, parent: NodeRef, rf: RelationField, vs: seq<ParsedInputValue>, i: nat,
                                 childModel: string, ghost n: nat, ghost nodes0: seq<Node>, ghost edges0: seq<Edge>)
    returns (err: Option<GraphError>)
    requires i < |vs| && forall j :: 0 <= j < |vs| ==> UpdateKeysPresent(rf, childModel, vs[j])
    requires g.Valid() && parent < |g.nodes| && n == |nodes0|
    requires var s := UpdateSteps(rf, childModel, parent, n, vs[..i]);
      g.nodes == nodes0 + s.nodes && g.edges == edges0 + s.edges && s.error == None
    modifies g
    ensures g.Valid() && parent < |g.nodes|
    ensures var s := UpdateSteps(rf, childModel, parent, n, vs[..i + 1]);
      g.nodes == nodes0 + s.nodes && g.edges == edges0 + s.edges && err == s.error
  {
    UpdateStepsSnoc(rf, childModel, parent, n, vs, i);
    ghost var before := UpdateSteps(rf, childModel, parent, n, vs[..i]);
    ghost var s := UpdateStep(rf, childModel, parent, n + |before.nodes|, vs[i]);
    err := ConnectNestedUpdateElement(g, parent, rf, vs[i], childModel);
    AppendAssoc(nodes0, before.nodes, s.nodes);
    AppendAssoc(edges0, before.edges, s.edges);
  }

  /** Processing one more element, when the elements before it succeeded. */
  lemma UpdateStepsSnoc(rf: RelationField, childModel: string, parent: NodeRef, n: nat, vs: seq<ParsedInputValue>, i: nat)
    requires i < |vs| && forall j :: 0 <= j < |vs| ==> UpdateKeysPresent(rf, childModel, vs[j])
    requires UpdateSteps(rf, childModel, parent, n, vs[..i]).error.None?
    ensures var b := UpdateSteps(rf, childModel, parent, n, vs[..i]);
      var s := UpdateStep(rf, childModel, parent, n + |b.nodes|, vs[i]);
      UpdateSteps(rf, childModel, parent, n, vs[..i + 1]) == Growth(b.nodes + s.nodes, b.edges + s.edges, s.error)
  {
    StepsSnoc(UpdateStepFn(rf, childModel, parent), n, vs, i);
  }

  // ---------------------------------------------------------------------------
  // connect_nested_update_many
  // ---------------------------------------------------------------------------

  /** The keys an update-many element must carry (the source unwraps them). */
  predicate UpdateManyKeysPresent(v: ParsedInputValue) {
    v.MapInput? ==> "where" in v.entries && "data" in v.entries
  }

  /**
   * An update-many element's data and filter: the element, its `data` and
   * its `where` must all be maps (checked in that order); the filter is the
   * non-unique filter of `where` on the child model.
   */
  function UpdateManyInput(childModel: string, v: ParsedInputValue): (r: Result<(ParsedInputMap, Filter), GraphError>)
    requires UpdateManyKeysPresent(v)
    ensures r.Ok? <==> v.MapInput? && v.entries["data"].MapInput? && v.entries["where"].MapInput?
    ensures r.Err? ==> r.error == NotAMap
    ensures r.Ok? ==> r.value == (v.entries["data"].entries, Extracted(v.entries["where"].entries, childModel, true))
  {
    var m :- AsMap(v);
    var data :- AsMap(m["data"]);
    var whereMap :- AsMap(m["where"]);
    Ok((data, Extracted(whereMap, childModel, true)))
  }

  function UpdateManyNode(childModel: string, filter: Filter, data: ParsedInputMap): Node {
    QueryNode(WriteNode(WriteQuery(UpdateManyRecords, childModel, filter, [], data, [])))
  }

  /** One element of `connect_nested_update_many`: all checks come before the graph changes. */
  function UpdateManyStep(rf: RelationField, childModel: string, parent: NodeRef, n: nat, v: ParsedInputValue): (r: Growth)
    requires UpdateManyKeysPresent(v)
    ensures r.error.None? <==> UpdateManyInput(childModel, v).Ok?
    ensures r.error.Some? ==> r.nodes == [] && r.edges == []
  {
    match UpdateManyInput(childModel, v)
    case Err(e) => Growth([], [], Some(e))
    case Ok((data, filter)) =>
      Growth([FindChildrenNode(rf, filter), UpdateManyNode(childModel, filter, data)],
             [FindChildrenEdge(parent, n, rf), Edge(n, n + 1, ParentIds(rf.relatedModel, UpdateManyByParentIds))],
             None)
  }

  /** One element of `connect_nested_update_many` as a step of the loop. */
  function UpdateManyStepFn(rf: RelationField, childModel: string, parent: NodeRef): (r: (nat, ParsedInputValue) --> Growth)
    ensures forall m: nat, v :: UpdateManyKeysPresent(v) ==> r.requires(m, v)
    ensures forall m: nat, v :: UpdateManyKeysPresent(v) ==> r(m, v) == UpdateManyStep(rf, childModel, parent, m, v)
  {
    (m: nat, v: ParsedInputValue) requires UpdateManyKeysPresent(v) => UpdateManyStep(rf, childModel, parent, m, v)
  }

  /** The elements in order, stopping at the first error. */
  function UpdateManySteps(rf: RelationField, childModel: string, parent: NodeRef, n: nat, vs: seq<ParsedInputValue>): Growth
    requires forall i :: 0 <= i < |vs| ==> UpdateManyKeysPresent(vs[i])
  {
    Steps(UpdateManyStepFn(rf, childModel, parent), n, vs)
  }

  /** The nested update-many succeeds iff every element's input converts. */
  lemma UpdateManyStepsOk(rf: RelationField, childModel: string, parent: NodeRef, n: nat, vs: seq<ParsedInputValue>)
    requires forall i :: 0 <= i < |vs| ==> UpdateManyKeysPresent(vs[i])
    ensures UpdateManySteps(rf, childModel, parent, n, vs).error.None? <==>
      forall i :: 0 <= i < |vs| ==> UpdateManyInput(childModel, vs[i]).Ok?
  {
    StepsOk(UpdateManyStepFn(rf, childModel, parent), v => UpdateManyKeysPresent(v) && UpdateManyInput(childModel, v).Ok?, n, vs);
  }

  /** A successful element appends a read and an update-many on the same filter, wired by two edges. */
  lemma UpdateManyStepOkShape(rf: RelationField, childModel: string, parent: NodeRef, m: nat, v: ParsedInputValue)
    requires UpdateManyKeysPresent(v) && UpdateManyStep(rf, childModel, parent, m, v).error.None?
    ensures UpdateManyInput(childModel, v).Ok?
    ensures var s := UpdateManyStep(rf, childModel, parent, m, v);
      var filter := Extracted(v.entries["where"].entries, childModel, true);
      && s.nodes == [FindChildrenNode(rf, filter), UpdateManyNode(childModel, filter, v.entries["data"].entries)]
      && s.edges == [FindChildrenEdge(parent, m, rf), Edge(m, m + 1, ParentIds(rf.relatedModel, UpdateManyByParentIds))]
  {
  }

  /** Every successful element appends two nodes and two edges. */
  lemma UpdateManyStepFixedSize(rf: RelationField, childModel: string, parent: NodeRef, vs: seq<ParsedInputValue>)
    requires forall i :: 0 <= i < |vs| ==> UpdateManyKeysPresent(vs[i])
    ensures FixedSize(UpdateManyStepFn(rf, childModel, parent), vs, 2, 2)
  {
    var step := UpdateManyStepFn(rf, childModel, parent);
    forall m: nat, i | 0 <= i < |vs| && step.requires(m, vs[i]) && step(m, vs[i]).error.None?
      ensures |step(m, vs[i]).nodes| == 2 && |step(m, vs[i]).edges| == 2
    {
      UpdateManyStepOkShape(rf, childModel, parent, m, vs[i]);
    }
  }

  /**
   * When the nested update-many succeeds, element `i` contributes a read of
   * the children and an update-many that use the same filter, the
   * update-many being fed the identifiers the read finds.
   */
  lemma UpdateManyStepsLayout(rf: RelationField, childModel: string, parent: NodeRef, n: nat, vs: seq<ParsedInputValue>)
    requires forall i :: 0 <= i < |vs| ==> UpdateManyKeysPresent(vs[i])
    requires UpdateManySteps(rf, childModel, parent, n, vs).error.None?
    ensures var g := UpdateManySteps(rf, childModel, parent, n, vs);
      && |g.nodes| == 2 * |vs| && |g.edges| == 2 * |vs|
      && forall i :: 0 <= i < |vs| ==>
        && UpdateManyInput(childModel, vs[i]).Ok?
        && g.nodes[2 * i] == FindChildrenNode(rf, Extracted(vs[i].entries["where"].entries, childModel, true))
        && g.nodes[2 * i + 1] == UpdateManyNode(childModel, Extracted(vs[i].entries["where"].entries, childModel, true), vs[i].entries["data"].entries)
        && g.nodes[2 * i].query.read.filter == g.nodes[2 * i + 1].query.write.filter
        && g.edges[2 * i] == FindChildrenEdge(parent, n + 2 * i, rf)
        && g.edges[2 * i + 1] == Edge(n + 2 * i, n + 2 * i + 1, ParentIds(rf.relatedModel, UpdateManyByParentIds))
  {
    var step := UpdateManyStepFn(rf, childModel, parent);
    var g := Steps(step, n, vs);
    UpdateManyStepFixedSize(rf, childModel, parent, vs);
    StepsCount(step, n, vs, 2, 2);
    forall i | 0 <= i < |vs|
      ensures UpdateManyInput(childModel, vs[i]).Ok?
      ensures g.nodes[2 * i] == FindChildrenNode(rf, Extracted(vs[i].entries["where"].entries, childModel, true))
      ensures g.nodes[2 * i + 1] == UpdateManyNode(childModel, Extracted(vs[i].entries["where"].entries, childModel, true), vs[i].entries["data"].entries)
      ensures g.edges[2 * i] == FindChildrenEdge(parent, n + 2 * i, rf)
      ensures g.edges[2 * i + 1] == Edge(n + 2 * i, n + 2 * i + 1, ParentIds(rf.relatedModel, UpdateManyByParentIds))
    {
      StepsAt(step, n, vs, 2, 2, i);
      UpdateManyStepOkShape(rf, childModel, parent, n + 2 * i, vs[i]);
      assert g.nodes[2 * i] == g.nodes[2 * i..2 * i + 2][0] && g.nodes[2 * i + 1] == g.nodes[2 * i..2 * i + 2][1];
      assert g.edges[2 * i] == g.edges[2 * i..2 * i + 2][0] && g.edges[2 * i + 1] == g.edges[2 * i..2 * i + 2][1];
    }
  }

  /** One element of `connect_nested_update_many`. */
  method ConnectNestedUpdateManyElement(g: QueryGraph, parent: NodeRef, rf: RelationField, v: ParsedInputValue, childModel: string)
    returns (err: Option<GraphError>)
    requires g.Valid() && parent < |g.nodes| && UpdateManyKeysPresent(v)
    modifies g
    ensures g.Valid()
    ensures var s := UpdateManyStep(rf, childModel, parent, |old(g.nodes)|, v);
      g.nodes == old(g.nodes) + s.nodes && g.edges == old(g.edges) + s.edges && err == s.error
  {
    var input := UpdateManyInput(childModel, v);
    if input.Err? {
      return Some(input.error);
    }
    var (data, filter) := input.value;
    var read := InsertFindChildrenByParentNode(g, parent, rf, filter);
    var updateMany := g.CreateNode(UpdateManyNode(childModel, filter, data));
    g.CreateEdge(read, updateMany, ParentIds(rf.relatedModel, UpdateManyByParentIds));
    return None;
  }

  method ConnectNestedUpdateManyNext(g: QueryGraph, parent: NodeRef, rf: RelationField, vs: seq<ParsedInputValue>, i: nat,
                                     childModel: string, ghost n: nat, ghost nodes0: seq<Node>, ghost edges0: seq<Edge>)
    returns (err: Option<GraphError>)
    requires i < |vs| && forall j :: 0 <= j < |vs| ==> UpdateManyKeysPresent(vs[j])
    requires g.Valid() && parent < |g.nodes| && n == |nodes0|
    requires var s := UpdateManySteps(rf, childModel, parent, n, vs[..i]);
      g.nodes == nodes0 + s.nodes && g.edges == edges0 + s.edges && s.error == None
    modifies g
    ensures g.Valid() && parent < |g.nodes|
    ensures var s := UpdateManySteps(rf, childModel, parent, n, vs[..i + 1]);
      g.nodes == nodes0 + s.nodes && g.edges == edges0 + s.edges && err == s.error
  {
    UpdateManyStepsSnoc(rf, childModel, parent, n, vs, i);
    ghost var before := UpdateManySteps(rf, childModel, parent, n, vs[..i]);
    ghost var s := UpdateManyStep(rf, childModel, parent, n + |before.nodes|, vs[i]);
    err := ConnectNestedUpdateManyElement(g, parent, rf, vs[i], childModel);
    AppendAssoc(nodes0, before.nodes, s.nodes);
    AppendAssoc(edges0, before.edges, s.edges);
  }

  /** Processing one more element, when the elements before it succeeded. */
  lemma UpdateManyStepsSnoc(rf: RelationField, childModel: string, parent: NodeRef, n: nat, vs: seq<ParsedInputValue>, i: nat)
    requires i < |vs| && forall j :: 0 <= j < |vs| ==> UpdateManyKeysPresent(vs[j])
    requires UpdateManySteps(rf, childModel, parent, n, vs[..i]).error.None?
    ensures var b := UpdateManySteps(rf, childModel, parent, n, vs[..i]);
      var s := UpdateManyStep(rf, childModel, parent, n + |b.nodes|, vs[i]);
      UpdateManySteps(rf, childModel, parent, n, vs[..i + 1]) == Growth(b.nodes + s.nodes, b.edges + s.edges, s.error)
  {
    StepsSnoc(UpdateManyStepFn(rf, childModel, parent), n, vs, i);
  }

  /** `connect_nested_update_many`: every element of the input in order, up to the first error. */
  method ConnectNestedUpdateMany(g: QueryGraph, parent: NodeRef, rf: RelationField, value: ParsedInputValue, childModel: string)
    returns (err: Option<GraphError>)
    requires g.Valid() && parent < |g.nodes|
    requires forall i :: 0 <= i < |CoerceVec(value)| ==> UpdateManyKeysPresent(CoerceVec(value)[i])
    modifies g
    ensures g.Valid()
    ensures var s := UpdateManySteps(rf, childModel, parent, |old(g.nodes)|, CoerceVec(value));
      g.nodes == old(g.nodes) + s.nodes && g.edges == old(g.edges) + s.edges && err == s.error
  {
    var vs := CoerceVec(value);
    ghost var n := |g.nodes|;
    var i := 0;
    err := None;
    while i < |vs|
      invariant 0 <= i <= |vs|
      invariant g.Valid() && parent < |g.nodes| && err == None
      invariant var s := UpdateManySteps(rf, childModel, parent, n, vs[..i]);
        g.nodes == old(g.nodes) + s.nodes && g.edges == old(g.edges) + s.edges && s.error == None
    {
      err := ConnectNestedUpdateManyNext(g, parent, rf, vs, i, childModel, n, old(g.nodes), old(g.edges));
      if err.Some? {
        StepsStopAtFirstError(UpdateManyStepFn(rf, childModel, parent), n, vs, i + 1);
        return;
      }
      i := i + 1;
    }
    assert vs[..i] == vs;
  }
}
