/**
 * The relations of the datamodel as the schema calculator receives them
 * from `DatamodelConverter::calculate_relations` (which is not part of this
 * model): the two models, and how the relation is stored, either as a
 * foreign key column inlined in one model's table or as a separate table.
 */
module RelationHolders {
  import opened Dml

  datatype Manifestation =
    | Inline(inTableOfModel: string, column: string, referencedFields: seq<string>)
    | TableManifestation

  /**
   * `tableName`, `modelAColumn` and `modelBColumn` are the values of the
   * holder's accessor methods, which are computed outside this model.
   */
  datatype RelationHolder = RelationHolder(
    modelA: Model,
    modelB: Model,
    manifestation: Manifestation,
    isOneToOne: bool,
    tableName: string,
    modelAColumn: string,
    modelBColumn: string)
}
