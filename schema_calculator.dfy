/**
 * `SqlSchemaCalculator::calculate_internal`: the SQL schema of a datamodel
 * is its model tables (with inline relations added) followed by the join
 * tables of its table relations, every table's columns sorted by name, the
 * datamodel's enums, and no sequences.
 */
module SchemaCalculator {
  import opened Wrappers
  import opened Dml
  import opened SqlSchema
  import opened DatamodelHelpers
  import opened SchemaColumns
  import opened ModelTables
  import opened RelationHolders
  import opened InlineRelations
  import opened RelationTables

  // ---------------------------------------------------------------------------
  // Sorting columns by name
  // ---------------------------------------------------------------------------

  /** `c` inserted before the first column whose name does not sort before it. */
  function InsertByName(s: seq<Column>, c: Column): (r: seq<Column>)
    ensures |r| == |s| + 1
    ensures multiset(r) == multiset(s) + multiset{c}
  {
    if s == [] || NameLe(c.name, s[0].name) then [c] + s
    else
      assert s == [s[0]] + s[1..];
      [s[0]] + InsertByName(s[1..], c)
  }

  /** Inserting into a sorted list keeps it sorted. */
  lemma {:induction false} InsertByNameSorted(s: seq<Column>, c: Column)
    requires SortedByName(s)
    ensures SortedByName(InsertByName(s, c))
  {
    var r := InsertByName(s, c);
    if s == [] || NameLe(c.name, s[0].name) {
      forall j | 0 < j < |r|
        ensures NameLe(c.name, r[j].name)
      {
        if j > 1 { NameLeTrans(c.name, s[0].name, s[j - 1].name); }
      }
    } else {
      NameLeTotal(c.name, s[0].name);
      var rest := InsertByName(s[1..], c);
      InsertByNameSorted(s[1..], c);
      forall j | 0 <= j < |rest|
        ensures NameLe(s[0].name, rest[j].name)
      {
        assert rest[j] in multiset(rest);
        if rest[j] != c {
          var k :| 0 <= k < |s[1..]| && s[1..][k] == rest[j];
          assert s[k + 1] == rest[j];
        }
      }
    }
  }

  /** The columns in ascending order of name (any order among equal names). */
  method SortByName(cols: seq<Column>) returns (r: seq<Column>)
    ensures SortedByName(r)
    ensures multiset(r) == multiset(cols)
  {
    r := [];
    var i := 0;
    while i < |cols|
      invariant 0 <= i <= |cols|
      invariant SortedByName(r)
      invariant multiset(r) == multiset(cols[..i])
    {
      InsertByNameSorted(r, cols[i]);
      assert cols[..i + 1] == cols[..i] + [cols[i]];
      r := InsertByName(r, cols[i]);
      i := i + 1;
    }
    assert cols[..i] == cols;
  }

  /** `t` is `u` with its columns sorted by name. */
  predicate ColumnsSortedFrom(t: Table, u: Table) {
    && t.(columns := u.columns) == u
    && SortedByName(t.columns)
    && multiset(t.columns) == multiset(u.columns)
  }

  // ---------------------------------------------------------------------------
  // The schema
  // ---------------------------------------------------------------------------

  /** What computing the schema needs not to panic. */
  predicate SchemaReady(dm: Datamodel, rels: seq<RelationHolder>) {
    && (forall m :: m in dm.models ==> ModelTableReady(dm, m))
    && (forall m, rel :: m in dm.models && rel in rels ==> InlineReady(m, rel))
    && (forall rel :: rel in rels ==> RelationTableReady(rel))
  }

  /** The tables before their columns are sorted: model tables with inline relations, then join tables. */
  function SchemaTables(dm: Datamodel, family: SqlFamily, rels: seq<RelationHolder>): (r: Result<seq<Table>, SchemaError>)
    requires SchemaReady(dm, rels)
    ensures r.Err? <==> InlineTables(CalculateModelTables(dm, family), rels).Err?
  {
    var mts := CalculateModelTables(dm, family);
    assert forall mt :: mt in mts ==> mt.model in dm.models;
    var modelTables :- InlineTables(mts, rels);
    Ok(modelTables + RelationTablesOf(rels))
  }

  /**
   * Model tables come first, one per model in model order under the model's
   * table name and with its primary key; the join tables follow.
   */
  lemma ModelTablesFirst(dm: Datamodel, family: SqlFamily, rels: seq<RelationHolder>)
    requires SchemaReady(dm, rels) && SchemaTables(dm, family, rels).Ok?
    ensures |SchemaTables(dm, family, rels).value| == |dm.models| + |RelationTablesOf(rels)|
    ensures forall i :: 0 <= i < |dm.models| ==>
      && SchemaTables(dm, family, rels).value[i].name == ModelDbName(dm.models[i])
      && SchemaTables(dm, family, rels).value[i].primaryKey == Some(PrimaryKey(FieldDbNames(IdFields(dm.models[i]))))
    ensures SchemaTables(dm, family, rels).value[|dm.models|..] == RelationTablesOf(rels)
  {
    var mts := CalculateModelTables(dm, family);
    assert forall mt :: mt in mts ==> mt.model in dm.models;
    InlineTablesShape(mts, rels);
    var tables := SchemaTables(dm, family, rels).value;
    forall i | 0 <= i < |dm.models|
      ensures tables[i].name == ModelDbName(dm.models[i])
      ensures tables[i].primaryKey == Some(PrimaryKey(FieldDbNames(IdFields(dm.models[i]))))
    {
      assert mts[i] in mts;
      InlineStepsExtend(mts[i].table, mts[i].model, rels);
    }
  }

  /** Sort every table's columns by name, in place; the tables keep their order. */
  method SortColumnsByName(unsorted: seq<Table>) returns (tables: seq<Table>)
    ensures |tables| == |unsorted|
    ensures forall i :: 0 <= i < |unsorted| ==> ColumnsSortedFrom(tables[i], unsorted[i])
  {
    tables := unsorted;
    var i := 0;
    while i < |tables|
      invariant 0 <= i <= |tables| && |tables| == |unsorted|
      invariant forall j :: 0 <= j < i ==> ColumnsSortedFrom(tables[j], unsorted[j])
      invariant forall j :: i <= j < |tables| ==> tables[j] == unsorted[j]
    {
      var sorted := SortByName(tables[i].columns);
      tables := tables[i := tables[i].(columns := sorted)];
      i := i + 1;
    }
  }

  /**
   * `calculate_internal`: compute the model tables, add the inline relations
   * (failing on unknown references), append the join tables, sort every
   * table's columns by name, then add the enums and no sequences.
   */
  method CalculateInternal(dm: Datamodel, family: SqlFamily, rels: seq<RelationHolder>) returns (r: Result<Schema, SchemaError>)
    requires SchemaReady(dm, rels)
    ensures r.Err? <==> SchemaTables(dm, family, rels).Err?
    ensures r.Err? ==> r.error == SchemaTables(dm, family, rels).error
    ensures r.Ok? ==>
      var unsorted := SchemaTables(dm, family, rels).value;
      && |r.value.tables| == |unsorted|
      && (forall i :: 0 <= i < |unsorted| ==> ColumnsSortedFrom(r.value.tables[i], unsorted[i]))
      && r.value.enums == CalculateEnums(dm)
      && r.value.sequences == []
  {
    var mts := CalculateModelTables(dm, family);
    assert forall mt :: mt in mts ==> mt.model in dm.models;
    var modelTables := AddInlineRelationsToModelTables(mts, rels);
    if modelTables.Err? {
      return Err(modelTables.error);
    }
    var relationTables := CalculateRelationTables(rels);
    var tables := SortColumnsByName(modelTables.value + relationTables);
    var enums := CalculateEnums(dm);
    return Ok(Schema(tables, enums, []));
  }
}
