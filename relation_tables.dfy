/**
 * `calculate_relation_tables`: every relation stored as a separate table
 * (a many-to-many relation) becomes a join table with one group of
 * columns for each side, a cascading foreign key to each side, and a
 * unique index over all its columns.
 */
module RelationTables {
  import opened Wrappers
  import opened Dml
  import opened SqlSchema
  import opened DatamodelHelpers
  import opened SchemaColumns
  import opened ModelTables
  import opened RelationHolders

  // ---------------------------------------------------------------------------
  // The referenced fields of one side
  // ---------------------------------------------------------------------------

  /** The field a model without a compound id is referenced by: its first `@id` field, else its first `@unique` field. */
  function SingleUniqueField(m: Model): (r: Option<Field>)
    ensures IdMarked(m.fields) != [] ==> r == Some(IdMarked(m.fields)[0])
    ensures IdMarked(m.fields) == [] && UniqueFields(m.fields) != [] ==> r == Some(UniqueFields(m.fields)[0])
    ensures r.None? <==> IdMarked(m.fields) == [] && UniqueFields(m.fields) == []
    ensures r.Some? ==> r.value in m.fields && (r.value.isId || r.value.isUnique)
  {
    if IdMarked(m.fields) != [] then Some(IdMarked(m.fields)[0])
    else if UniqueFields(m.fields) != [] then Some(UniqueFields(m.fields)[0])
    else None
  }

  /** `unique_criteria` as written: the id fields if there are any, else every `@unique` field. */
  function UniqueCriteriaAsWritten(m: Model): (r: seq<Field>)
    ensures IdFields(m) != [] ==> r == IdFields(m)
    ensures IdFields(m) == [] ==> r == UniqueFields(m.fields)
  {
    if IdFields(m) != [] then IdFields(m) else UniqueFields(m.fields)
  }

  /**
   * The fields a join table's foreign key references, following the same
   * order of precedence as the join table's columns: the id fields when the
   * model has a compound id, else its single id or unique field.
   */
  function UniqueCriteria(m: Model): (r: seq<Field>)
    ensures m.idFields != [] ==> r == IdFields(m)
    ensures m.idFields == [] ==> |r| <= 1
    ensures m.idFields == [] && SingleUniqueField(m).Some? ==> r == [SingleUniqueField(m).value]
    ensures forall f :: f in r ==> f in m.fields
  {
    if m.idFields != [] then IdFields(m)
    else match SingleUniqueField(m) case Some(f) => [f] case None => []
  }

  /** What `relation_table_columns` needs not to panic: a referencable field, and column types for it. */
  predicate RelationColumnsReady(m: Model) {
    if m.idFields == [] then SingleUniqueField(m).Some? && HasColumnType(SingleUniqueField(m).value)
    else forall i :: 0 <= i < |IdFields(m)| ==> HasColumnType(IdFields(m)[i])
  }

  /**
   * `relation_table_columns`: one column named after the relation side for a
   * model without a compound id, else one `"{side}_{idDb}"` column per id field.
   */
  function RelationTableColumns(m: Model, refName: string): (r: seq<Column>)
    requires RelationColumnsReady(m)
    ensures m.idFields == [] ==> r == [Column(refName, ColumnTypeOf(SingleUniqueField(m).value), None, false)]
    ensures m.idFields != [] ==> |r| == |IdFields(m)|
    ensures m.idFields != [] ==> forall i :: 0 <= i < |r| ==>
      r[i] == Column(refName + "_" + FieldDbName(IdFields(m)[i]), ColumnTypeOf(IdFields(m)[i]), None, false)
  {
    if m.idFields == [] then
      [Column(refName, ColumnTypeOf(SingleUniqueField(m).value), None, false)]
    else
      var ids := IdFields(m);
      seq(|ids|, i requires 0 <= i < |ids| => Column(refName + "_" + FieldDbName(ids[i]), ColumnTypeOf(ids[i]), None, false))
  }

  /** The join table's columns for a side are built one for one from the fields its foreign key references. */
  lemma RelationColumnsMatchCriteria(m: Model, refName: string)
    requires RelationColumnsReady(m)
    ensures |RelationTableColumns(m, refName)| == |UniqueCriteria(m)|
    ensures forall i :: 0 <= i < |UniqueCriteria(m)| ==>
      HasColumnType(UniqueCriteria(m)[i]) && RelationTableColumns(m, refName)[i].tpe == ColumnTypeOf(UniqueCriteria(m)[i])
  {
  }

  /** Where the model's referencing is unambiguous, the corrected criteria are the written ones. */
  lemma UniqueCriteriaAgree(m: Model)
    requires || (m.idFields != [] && IdFields(m) != [])
             || (m.idFields == [] && |IdMarked(m.fields)| == 1)
             || (m.idFields == [] && IdMarked(m.fields) == [] && |UniqueFields(m.fields)| <= 1)
    ensures UniqueCriteria(m) == UniqueCriteriaAsWritten(m)
  {
  }

  /**
   * As written, a model without any id and with two or more `@unique` fields
   * gets one join-table column but is referenced by all its unique columns:
   * the foreign key's column and referenced-column counts differ.
   */
  lemma UniqueCriteriaAsWrittenMismatch(m: Model, refName: string)
    requires m.idFields == [] && IdMarked(m.fields) == [] && |UniqueFields(m.fields)| >= 2
    requires RelationColumnsReady(m)
    ensures |RelationTableColumns(m, refName)| == 1
    ensures |UniqueCriteriaAsWritten(m)| >= 2
  {
  }

  // ---------------------------------------------------------------------------
  // Join tables
  // ---------------------------------------------------------------------------

  /** What building the join table of a relation needs not to panic. */
  predicate RelationTableReady(rel: RelationHolder) {
    rel.manifestation.TableManifestation? ==> RelationColumnsReady(rel.modelA) && RelationColumnsReady(rel.modelB)
  }

  /** The cascading foreign key from a side's columns to the model it references. */
  function SideForeignKey(m: Model, cols: seq<Column>): (r: ForeignKey)
    ensures r.columns == ColumnNames(cols)
    ensures r.referencedTable == ModelDbName(m)
    ensures r.referencedColumns == FieldDbNames(UniqueCriteria(m))
    ensures r.onDelete == Cascade
  {
    ForeignKey(ColumnNames(cols), ModelDbName(m), FieldDbNames(UniqueCriteria(m)), Cascade)
  }

  /**
   * The join table of a relation stored as a table: the A columns then the B
   * columns, no primary key, one cascading foreign key per side and a unique
   * index `"{table}_AB_unique"` over all columns.
   */
  function RelationTableOf(rel: RelationHolder): (r: Table)
    requires rel.manifestation.TableManifestation? && RelationTableReady(rel)
    ensures r.name == rel.tableName
    ensures r.primaryKey.None?
    ensures r.columns == RelationTableColumns(rel.modelA, rel.modelAColumn) + RelationTableColumns(rel.modelB, rel.modelBColumn)
    ensures |r.foreignKeys| == 2
    ensures r.foreignKeys[0] == SideForeignKey(rel.modelA, RelationTableColumns(rel.modelA, rel.modelAColumn))
    ensures r.foreignKeys[1] == SideForeignKey(rel.modelB, RelationTableColumns(rel.modelB, rel.modelBColumn))
    ensures r.indices == [Index(rel.tableName + "_AB_unique", ColumnNames(r.columns), UniqueKind)]
  {
    var a := RelationTableColumns(rel.modelA, rel.modelAColumn);
    var b := RelationTableColumns(rel.modelB, rel.modelBColumn);
    var columns := a + b;
    Table(rel.tableName, columns, [Index(rel.tableName + "_AB_unique", ColumnNames(columns), UniqueKind)], None,
          [SideForeignKey(rel.modelA, a), SideForeignKey(rel.modelB, b)])
  }

  /**
   * Each foreign key of a join table has as many columns as it references,
   * and together they cover exactly the table's columns.
   */
  lemma RelationTableForeignKeysWellFormed(rel: RelationHolder)
    requires rel.manifestation.TableManifestation? && RelationTableReady(rel)
    ensures var t := RelationTableOf(rel);
            && |t.foreignKeys[0].columns| == |t.foreignKeys[0].referencedColumns|
            && |t.foreignKeys[1].columns| == |t.foreignKeys[1].referencedColumns|
            && t.foreignKeys[0].columns + t.foreignKeys[1].columns == ColumnNames(t.columns)
            && t.foreignKeys[0].onDelete == Cascade && t.foreignKeys[1].onDelete == Cascade
  {
    var a := RelationTableColumns(rel.modelA, rel.modelAColumn);
    var b := RelationTableColumns(rel.modelB, rel.modelBColumn);
    RelationColumnsMatchCriteria(rel.modelA, rel.modelAColumn);
    RelationColumnsMatchCriteria(rel.modelB, rel.modelBColumn);
    assert ColumnNames(a + b) == ColumnNames(a) + ColumnNames(b);
  }

  /** The join tables of the relations stored as tables, in relation order. */
  function RelationTablesOf(rels: seq<RelationHolder>): (r: seq<Table>)
    requires forall rel :: rel in rels ==> RelationTableReady(rel)
    ensures |r| <= |rels|
    ensures forall t :: t in r ==> exists rel :: rel in rels && rel.manifestation.TableManifestation? && t == RelationTableOf(rel)
  {
    if rels == [] then []
    else
      var last := rels[|rels| - 1];
      RelationTablesOf(rels[..|rels| - 1]) + (if last.manifestation.TableManifestation? then [RelationTableOf(last)] else [])
  }

  /** Every relation stored as a table has its join table. */
  lemma {:induction false} RelationTablesComplete(rels: seq<RelationHolder>, rel: RelationHolder)
    requires forall r :: r in rels ==> RelationTableReady(r)
    requires rel in rels && rel.manifestation.TableManifestation?
    ensures RelationTableOf(rel) in RelationTablesOf(rels)
  {
    var init := rels[..|rels| - 1];
    if rel != rels[|rels| - 1] {
      assert rel in init by {
        var i :| 0 <= i < |rels| && rels[i] == rel;
        assert init[i] == rel;
      }
      RelationTablesComplete(init, rel);
    }
  }

  /** `calculate_relation_tables`: loop over the relations, pushing a join table for each one stored as a table. */
  method CalculateRelationTables(rels: seq<RelationHolder>) returns (r: seq<Table>)
    requires forall rel :: rel in rels ==> RelationTableReady(rel)
    ensures r == RelationTablesOf(rels)
  {
    r := [];
    var i := 0;
    while i < |rels|
      invariant 0 <= i <= |rels|
      invariant r == RelationTablesOf(rels[..i])
    {
      assert rels[..i + 1][..i] == rels[..i];
      var rel := rels[i];
      assert rel in rels;
      if rel.manifestation.TableManifestation? {
        var a := RelationTableColumns(rel.modelA, rel.modelAColumn);
        var b := RelationTableColumns(rel.modelB, rel.modelBColumn);
        var foreignKeys := [SideForeignKey(rel.modelA, a), SideForeignKey(rel.modelB, b)];
        var columns := a;
        columns := columns + b;
        var index := Index(rel.tableName + "_AB_unique", ColumnNames(columns), UniqueKind);
        r := r + [Table(rel.tableName, columns, [index], None, foreignKeys)];
      }
      i := i + 1;
    }
    assert rels[..i] == rels;
  }
}
