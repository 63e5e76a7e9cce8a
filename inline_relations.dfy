/**
 * `add_inline_relations_to_model_tables`: every relation stored inline in
 * a model's table adds foreign key columns, a foreign key, and for a
 * one-to-one relation a unique index to that table.
 */
module InlineRelations {
  import opened Wrappers
  import opened Dml
  import opened SqlSchema
  import opened DatamodelHelpers
  import opened SchemaColumns
  import opened ModelTables
  import opened RelationHolders

  datatype SchemaError = UnknownReferences(modelName: string, referencedFields: seq<string>)

  /** The relation is inlined in the table of `tableModel`. */
  predicate Applies(tableModel: Model, rel: RelationHolder) {
    rel.manifestation.Inline? && rel.manifestation.inTableOfModel == tableModel.name
  }

  /** The holding model and the related model, seen from the table's model. */
  function Sides(tableModel: Model, rel: RelationHolder): (r: (Model, Model))
    ensures tableModel == rel.modelA ==> r == (rel.modelA, rel.modelB)
    ensures tableModel != rel.modelA ==> r == (rel.modelB, rel.modelA)
  {
    if tableModel == rel.modelA then (rel.modelA, rel.modelB) else (rel.modelB, rel.modelA)
  }

  /** The first field of the model whose column name is `column`. */
  function FieldByDbName(m: Model, column: string): (r: Option<Field>)
    ensures r.Some? ==> r.value in m.fields && FieldDbName(r.value) == column
    ensures r.None? <==> forall f :: f in m.fields ==> FieldDbName(f) != column
  {
    FieldByDbNameIn(m.fields, column)
  }

  function FieldByDbNameIn(fields: seq<Field>, column: string): (r: Option<Field>)
    ensures r.Some? ==> r.value in fields && FieldDbName(r.value) == column
    ensures r.None? <==> forall f :: f in fields ==> FieldDbName(f) != column
  {
    if fields == [] then None
    else if FieldDbName(fields[0]) == column then Some(fields[0])
    else FieldByDbNameIn(fields[1..], column)
  }

  /** The fields whose name is among `names`, in field order. */
  function NamedIn(fields: seq<Field>, names: seq<string>): (r: seq<Field>)
    ensures |r| <= |fields|
    ensures forall f :: f in r <==> f in fields && f.name in names
  {
    if fields == [] then []
    else NamedIn(fields[..|fields| - 1], names) + (if fields[|fields| - 1].name in names then [fields[|fields| - 1]] else [])
  }

  /**
   * The related model's fields the foreign key references: its id fields when
   * the relation names none, else the named fields, which must all exist.
   */
  function ReferencedFields(related: Model, names: seq<string>): (r: Result<seq<Field>, SchemaError>)
    ensures names == [] ==> r == Ok(IdFields(related))
    ensures names != [] ==> (r.Ok? <==> |NamedIn(related.fields, names)| == |names|)
    ensures names != [] && r.Ok? ==> r.value == NamedIn(related.fields, names)
    ensures r.Err? ==> r.error == UnknownReferences(related.name, names)
  {
    if names == [] then Ok(IdFields(related))
    else
      var fields := NamedIn(related.fields, names);
      if |fields| != |names| then Err(UnknownReferences(related.name, names)) else Ok(fields)
  }

  /** Every referenced field has a column type. */
  predicate AllHaveColumnType(refs: seq<Field>) {
    forall i :: 0 <= i < |refs| ==> HasColumnType(refs[i])
  }

  /**
   * The foreign key columns: one column named `column` for a single referenced
   * field, else one `"{column}_{refDb}"` per referenced field. Each has the
   * referenced field's type at the relation field's arity.
   */
  function InlineColumns(column: string, field: Field, refs: seq<Field>): (r: seq<Column>)
    requires AllHaveColumnType(refs)
    ensures |r| == |refs|
    ensures |refs| == 1 ==> r[0].name == column
    ensures |refs| != 1 ==> forall i :: 0 <= i < |r| ==> r[i].name == column + "_" + FieldDbName(refs[i])
    ensures forall i :: 0 <= i < |r| ==>
      r[i].tpe == ColumnTypeForScalar(ScalarTypeForField(refs[i]), ColumnArityOf(field))
      && r[i].default.None? && !r[i].autoIncrement
  {
    if |refs| == 1 then
      [Column(column, ColumnTypeForScalar(ScalarTypeForField(refs[0]), ColumnArityOf(field)), None, false)]
    else
      seq(|refs|, i requires 0 <= i < |refs| =>
        Column(column + "_" + FieldDbName(refs[i]), ColumnTypeForScalar(ScalarTypeForField(refs[i]), ColumnArityOf(field)), None, false))
  }

  /** The foreign key's delete action: restrict for a required relation field, else set null. */
  function OnDeleteFor(field: Field): (r: ForeignKeyAction)
    ensures r == Restrict <==> field.arity == Required
    ensures r != Restrict ==> r == SetNull
  {
    if ColumnArityOf(field) == RequiredColumn then Restrict else SetNull
  }

  /** What handling an applicable relation needs not to panic: the column's field exists and the references are scalar. */
  predicate InlineReady(tableModel: Model, rel: RelationHolder) {
    Applies(tableModel, rel) ==>
      && FieldByDbName(Sides(tableModel, rel).0, rel.manifestation.column).Some?
      && (var refs := ReferencedFields(Sides(tableModel, rel).1, rel.manifestation.referencedFields);
          refs.Ok? ==> AllHaveColumnType(refs.value))
  }

  /** The columns and foreign key an applicable inline relation adds. */
  function InlineLink(tableModel: Model, rel: RelationHolder): (r: Result<(seq<Column>, ForeignKey), SchemaError>)
    requires Applies(tableModel, rel) && InlineReady(tableModel, rel)
    ensures r.Err? <==> ReferencedFields(Sides(tableModel, rel).1, rel.manifestation.referencedFields).Err?
    ensures r.Err? ==> r.error == UnknownReferences(Sides(tableModel, rel).1.name, rel.manifestation.referencedFields)
    ensures r.Ok? ==>
      var related := Sides(tableModel, rel).1;
      var refs := ReferencedFields(related, rel.manifestation.referencedFields).value;
      var field := FieldByDbName(Sides(tableModel, rel).0, rel.manifestation.column).value;
      && r.value.0 == InlineColumns(rel.manifestation.column, field, refs)
      && r.value.1.columns == ColumnNames(r.value.0)
      && r.value.1.referencedTable == ModelDbName(related)
      && r.value.1.referencedColumns == FieldDbNames(refs)
      && |r.value.1.columns| == |r.value.1.referencedColumns|
      && r.value.1.onDelete == OnDeleteFor(field)
  {
    var (model, related) := Sides(tableModel, rel);
    var column := rel.manifestation.column;
    var field := FieldByDbName(model, column).value;
    var refs :- ReferencedFields(related, rel.manifestation.referencedFields);
    var cols := InlineColumns(column, field, refs);
    Ok((cols, ForeignKey(ColumnNames(cols), ModelDbName(related), FieldDbNames(refs), OnDeleteFor(field))))
  }

  // ---------------------------------------------------------------------------
  // The one-to-one unique index
  // ---------------------------------------------------------------------------

  /** `add_one_to_one_relation_unique_index` as written: a unique index on the relation's column name. */
  function OneToOneIndexAsWritten(table: Table, column: string): (r: Table)
    ensures r.indices == table.indices + [Index(table.name + "_" + column, [column], UniqueKind)]
    ensures r.name == table.name && r.columns == table.columns && r.foreignKeys == table.foreignKeys
  {
    table.(indices := table.indices + [Index(table.name + "_" + column, [column], UniqueKind)])
  }

  /** The one-to-one unique index over the foreign key columns the relation added. */
  function OneToOneIndex(table: Table, column: string, cols: seq<Column>): (r: Table)
    ensures r.indices == table.indices + [Index(table.name + "_" + column, ColumnNames(cols), UniqueKind)]
    ensures r.name == table.name && r.columns == table.columns && r.foreignKeys == table.foreignKeys
    ensures r.primaryKey == table.primaryKey
  {
    table.(indices := table.indices + [Index(table.name + "_" + column, ColumnNames(cols), UniqueKind)])
  }

  // ---------------------------------------------------------------------------
  // One relation
  // ---------------------------------------------------------------------------

  /** One iteration of the inner loop as written. */
  function InlineStepAsWritten(table: Table, tableModel: Model, rel: RelationHolder): (r: Result<Table, SchemaError>)
    requires InlineReady(tableModel, rel)
  {
    if !Applies(tableModel, rel) then Ok(table)
    else
      var link :- InlineLink(tableModel, rel);
      var t := table.(columns := table.columns + link.0, foreignKeys := table.foreignKeys + [link.1]);
      Ok(if rel.isOneToOne then OneToOneIndexAsWritten(t, rel.manifestation.column) else t)
  }

  /**
   * One iteration of the inner loop, with the one-to-one index over the added
   * columns: a relation that is not inlined here leaves the table alone; one
   * that is appends its columns and foreign key.
   */
  function InlineStep(table: Table, tableModel: Model, rel: RelationHolder): (r: Result<Table, SchemaError>)
    requires InlineReady(tableModel, rel)
    ensures !Applies(tableModel, rel) ==> r == Ok(table)
    ensures Applies(tableModel, rel) ==> (r.Err? <==> InlineLink(tableModel, rel).Err?)
    ensures Applies(tableModel, rel) && r.Ok? ==>
      var link := InlineLink(tableModel, rel).value;
      && r.value.name == table.name && r.value.primaryKey == table.primaryKey
      && r.value.columns == table.columns + link.0
      && r.value.foreignKeys == table.foreignKeys + [link.1]
      && r.value.indices == table.indices
                            + (if rel.isOneToOne
                               then [Index(table.name + "_" + rel.manifestation.column, ColumnNames(link.0), UniqueKind)]
                               else [])
  {
    if !Applies(tableModel, rel) then Ok(table)
    else
      var link :- InlineLink(tableModel, rel);
      var t := table.(columns := table.columns + link.0, foreignKeys := table.foreignKeys + [link.1]);
      Ok(if rel.isOneToOne then OneToOneIndex(t, rel.manifestation.column, link.0) else t)
  }

  /** With a single referenced field the written index and the corrected one coincide. */
  lemma OneToOneIndexAgreesOnSingleReference(table: Table, tableModel: Model, rel: RelationHolder)
    requires InlineReady(tableModel, rel) && Applies(tableModel, rel)
    requires ReferencedFields(Sides(tableModel, rel).1, rel.manifestation.referencedFields).Ok?
    requires |ReferencedFields(Sides(tableModel, rel).1, rel.manifestation.referencedFields).value| == 1
    ensures InlineStepAsWritten(table, tableModel, rel) == InlineStep(table, tableModel, rel)
  {
    var link := InlineLink(tableModel, rel).value;
    assert ColumnNames(link.0) == [rel.manifestation.column];
  }

  lemma ColumnNamesConcat(a: seq<Column>, b: seq<Column>)
    ensures ColumnNames(a + b) == ColumnNames(a) + ColumnNames(b)
  {
  }

  /**
   * The one-to-one unique index covers exactly the columns the relation added,
   * so every column it names is a column of the table.
   */
  lemma OneToOneIndexOnTableColumns(table: Table, tableModel: Model, rel: RelationHolder)
    requires InlineReady(tableModel, rel) && Applies(tableModel, rel) && rel.isOneToOne
    requires InlineStep(table, tableModel, rel).Ok?
    ensures var t := InlineStep(table, tableModel, rel).value;
            && |ColumnNames(t.columns)| >= |table.columns|
            && t.indices[|t.indices| - 1].columns == ColumnNames(t.columns)[|table.columns|..]
            && forall c :: c in t.indices[|t.indices| - 1].columns ==> c in ColumnNames(t.columns)
  {
    var t := InlineStep(table, tableModel, rel).value;
    var link := InlineLink(tableModel, rel).value;
    ColumnNamesConcat(table.columns, link.0);
    assert ColumnNames(t.columns) == ColumnNames(table.columns) + ColumnNames(link.0);
  }

  /**
   * The index as written misses the table's columns when a one-to-one relation
   * references two or more fields (for instance a compound id): the table
   * gains only `"{column}_{refDb}"` columns, and the unique index is declared
   * on `column` itself.
   */
  lemma OneToOneIndexAsWrittenMissesColumns(table: Table, tableModel: Model, rel: RelationHolder)
    requires InlineReady(tableModel, rel) && Applies(tableModel, rel) && rel.isOneToOne
    requires ReferencedFields(Sides(tableModel, rel).1, rel.manifestation.referencedFields).Ok?
    requires |ReferencedFields(Sides(tableModel, rel).1, rel.manifestation.referencedFields).value| >= 2
    requires rel.manifestation.column !in ColumnNames(table.columns)
    ensures InlineStepAsWritten(table, tableModel, rel).Ok?
    ensures var t := InlineStepAsWritten(table, tableModel, rel).value;
            && t.indices[|t.indices| - 1].columns == [rel.manifestation.column]
            && rel.manifestation.column !in ColumnNames(t.columns)
  {
    var column := rel.manifestation.column;
    var link := InlineLink(tableModel, rel).value;
    var t := InlineStepAsWritten(table, tableModel, rel).value;
    ColumnNamesConcat(table.columns, link.0);
    assert ColumnNames(t.columns) == ColumnNames(table.columns) + ColumnNames(link.0);
    forall k | 0 <= k < |link.0|
      ensures ColumnNames(link.0)[k] != column
    {
      assert |link.0[k].name| > |column|;
    }
  }

  // ---------------------------------------------------------------------------
  // The loops
  // ---------------------------------------------------------------------------

  /** The inner loop: all relations applied in order to one model's table, stopping at the first error. */
  function InlineSteps(table: Table, tableModel: Model, rels: seq<RelationHolder>): Result<Table, SchemaError>
    requires forall rel :: rel in rels ==> InlineReady(tableModel, rel)
  {
    if rels == [] then Ok(table)
    else
      var t :- InlineSteps(table, tableModel, rels[..|rels| - 1]);
      InlineStep(t, tableModel, rels[|rels| - 1])
  }

  /** The outer loop: every model table in order, stopping at the first error. */
  function InlineTables(mts: seq<ModelTable>, rels: seq<RelationHolder>): Result<seq<Table>, SchemaError>
    requires forall mt, rel :: mt in mts && rel in rels ==> InlineReady(mt.model, rel)
  {
    if mts == [] then Ok([])
    else
      var done :- InlineTables(mts[..|mts| - 1], rels);
      var mt := mts[|mts| - 1];
      var t :- InlineSteps(mt.table, mt.model, rels);
      Ok(done + [t])
  }

  /** Once a relation fails, the whole inner loop fails with its error. */
  lemma {:induction false} InlineStepsStopAtFirstError(table: Table, tableModel: Model, rels: seq<RelationHolder>, k: nat)
    requires forall rel :: rel in rels ==> InlineReady(tableModel, rel)
    requires k <= |rels| && InlineSteps(table, tableModel, rels[..k]).Err?
    ensures InlineSteps(table, tableModel, rels) == InlineSteps(table, tableModel, rels[..k])
    decreases |rels|
  {
    if k < |rels| {
      var init := rels[..|rels| - 1];
      assert init[..k] == rels[..k];
      InlineStepsStopAtFirstError(table, tableModel, init, k);
    } else {
      assert rels[..k] == rels;
    }
  }

  /** Once a table fails, the whole outer loop fails with its error. */
  lemma {:induction false} InlineTablesStopAtFirstError(mts: seq<ModelTable>, rels: seq<RelationHolder>, k: nat)
    requires forall mt, rel :: mt in mts && rel in rels ==> InlineReady(mt.model, rel)
    requires k <= |mts| && InlineTables(mts[..k], rels).Err?
    ensures InlineTables(mts, rels) == InlineTables(mts[..k], rels)
    decreases |mts|
  {
    if k < |mts| {
      var init := mts[..|mts| - 1];
      assert init[..k] == mts[..k];
      InlineTablesStopAtFirstError(init, rels, k);
    } else {
      assert mts[..k] == mts;
    }
  }

  /**
   * The inner loop keeps the table's name and primary key, and only appends
   * columns and foreign keys: what the model table had stays in front.
   */
  lemma {:induction false} InlineStepsExtend(table: Table, tableModel: Model, rels: seq<RelationHolder>)
    requires forall rel :: rel in rels ==> InlineReady(tableModel, rel)
    requires InlineSteps(table, tableModel, rels).Ok?
    ensures var t := InlineSteps(table, tableModel, rels).value;
            && t.name == table.name && t.primaryKey == table.primaryKey
            && |t.columns| >= |table.columns| && t.columns[..|table.columns|] == table.columns
            && |t.foreignKeys| >= |table.foreignKeys| && t.foreignKeys[..|table.foreignKeys|] == table.foreignKeys
            && |t.indices| >= |table.indices| && t.indices[..|table.indices|] == table.indices
  {
    if rels != [] {
      var init := rels[..|rels| - 1];
      InlineStepsExtend(table, tableModel, init);
      var mid := InlineSteps(table, tableModel, init).value;
      var t := InlineStep(mid, tableModel, rels[|rels| - 1]).value;
      assert t.columns[..|mid.columns|] == mid.columns;
      assert t.columns[..|table.columns|] == mid.columns[..|table.columns|];
      assert t.foreignKeys[..|mid.foreignKeys|] == mid.foreignKeys;
      assert t.foreignKeys[..|table.foreignKeys|] == mid.foreignKeys[..|table.foreignKeys|];
      assert t.indices[..|mid.indices|] == mid.indices;
      assert t.indices[..|table.indices|] == mid.indices[..|table.indices|];
    }
  }

  /** One table per model table, in the same order, under the same name. */
  lemma {:induction false} InlineTablesShape(mts: seq<ModelTable>, rels: seq<RelationHolder>)
    requires forall mt, rel :: mt in mts && rel in rels ==> InlineReady(mt.model, rel)
    requires InlineTables(mts, rels).Ok?
    ensures |InlineTables(mts, rels).value| == |mts|
    ensures forall i :: 0 <= i < |mts| ==>
      (InlineSteps(mts[i].table, mts[i].model, rels).Ok?
       && InlineTables(mts, rels).value[i] == InlineSteps(mts[i].table, mts[i].model, rels).value)
  {
    if mts != [] {
      var init := mts[..|mts| - 1];
      InlineTablesShape(init, rels);
    }
  }

  /**
   * One relation applied to the table under construction, step by step:
   * extend the columns, push the foreign key, push the one-to-one index.  The
   * index covers the columns just added (the corrected `InlineStep`), not
   * only the manifestation's base column name as `InlineStepAsWritten` does.
   */
  method AddInlineRelation(table: Table, tableModel: Model, rel: RelationHolder) returns (r: Result<Table, SchemaError>)
    requires InlineReady(tableModel, rel)
    ensures r == InlineStep(table, tableModel, rel)
  {
    if !Applies(tableModel, rel) {
      return Ok(table);
    }
    var link := InlineLink(tableModel, rel);
    if link.Err? {
      return Err(link.error);
    }
    var (columns, foreignKey) := link.value;
    var t := table;
    t := t.(columns := t.columns + columns);
    t := t.(foreignKeys := t.foreignKeys + [foreignKey]);
    if rel.isOneToOne {
      t := t.(indices := t.indices + [Index(t.name + "_" + rel.manifestation.column, ColumnNames(columns), UniqueKind)]);
    }
    return Ok(t);
  }

  /** The inner loop over the relations for one model table. */
  method AddInlineRelationsToTable(mt: ModelTable, rels: seq<RelationHolder>) returns (r: Result<Table, SchemaError>)
    requires forall rel :: rel in rels ==> InlineReady(mt.model, rel)
    ensures r == InlineSteps(mt.table, mt.model, rels)
  {
    var table := mt.table;
    var i := 0;
    while i < |rels|
      invariant 0 <= i <= |rels|
      invariant InlineSteps(mt.table, mt.model, rels[..i]) == Ok(table)
    {
      assert rels[..i + 1][..i] == rels[..i];
      var step := AddInlineRelation(table, mt.model, rels[i]);
      if step.Err? {
        InlineStepsStopAtFirstError(mt.table, mt.model, rels, i + 1);
        return step;
      }
      table := step.value;
      i := i + 1;
    }
    assert rels[..i] == rels;
    return Ok(table);
  }

  /** `add_inline_relations_to_model_tables`: the outer loop, pushing each finished table. */
  method AddInlineRelationsToModelTables(mts: seq<ModelTable>, rels: seq<RelationHolder>) returns (r: Result<seq<Table>, SchemaError>)
    requires forall mt, rel :: mt in mts && rel in rels ==> InlineReady(mt.model, rel)
    ensures r == InlineTables(mts, rels)
  {
    var result: seq<Table> := [];
    var i := 0;
    while i < |mts|
      invariant 0 <= i <= |mts|
      invariant InlineTables(mts[..i], rels) == Ok(result)
    {
      assert mts[..i + 1][..i] == mts[..i];
      var t := AddInlineRelationsToTable(mts[i], rels);
      if t.Err? {
        InlineTablesStopAtFirstError(mts, rels, i + 1);
        return Err(t.error);
      }
      result := result + [t.value];
      i := i + 1;
    }
    assert mts[..i] == mts;
    return Ok(result);
  }
}
