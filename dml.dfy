/**
 * The datamodel (the parsed Prisma schema) as the introspection and migration
 * engines see it: models with fields, compound ids and indexes, and enums.
 * Only the attributes the modelled code reads or writes are kept.
 */
module Dml {
  import opened Wrappers

  datatype FieldArity = Required | Optional | List

  datatype ScalarType = IntType | FloatType | BooleanType | StringType | DateTimeType | DecimalType

  /** A relation field's `@relation` information: relation name, target model, referenced fields. */
  datatype RelationInfo = RelationInfo(name: string, to: string, toFields: seq<string>)

  /** `Unsupported` stands for the connector-specific field types that neither pass touches. */
  datatype FieldType =
    | Base(scalar: ScalarType)
    | Enum(enumName: string)
    | Relation(info: RelationInfo)
    | Unsupported(typeName: string)

  /**
   * Scalar values of defaults. Floating point, decimal and date-time values are
   * kept as opaque text: their formatting is not part of this model.
   */
  datatype ScalarValue =
    | IntValue(i: int)
    | FloatValue(ftext: string)
    | DecimalValue(dtext: string)
    | BooleanValue(b: bool)
    | StringValue(s: string)
    | DateTimeValue(ttext: string)
    | ConstantLiteral(literal: string)

  datatype ValueGeneratorFn = Uuid | Cuid | Now | Autoincrement | DbGenerated

  datatype DefaultValue = Single(value: ScalarValue) | Expression(generator: ValueGeneratorFn)

  datatype Field = Field(
    name: string,
    arity: FieldArity,
    fieldType: FieldType,
    databaseNames: seq<string>,
    defaultValue: Option<DefaultValue>,
    isUnique: bool,
    isId: bool)

  datatype IndexType = UniqueIndex | NormalIndex

  datatype IndexDefinition = IndexDefinition(name: Option<string>, fields: seq<string>, tpe: IndexType)

  datatype Model = Model(
    name: string,
    fields: seq<Field>,
    idFields: seq<string>,
    indices: seq<IndexDefinition>,
    databaseName: Option<string>)

  datatype EnumDef = EnumDef(name: string, values: seq<string>, databaseName: Option<string>)

  datatype Datamodel = Datamodel(models: seq<Model>, enums: seq<EnumDef>)

  /** `Datamodel::find_enum`: the first enum with the given name. */
  function FindEnum(dm: Datamodel, name: string): (r: Option<EnumDef>)
    ensures r.Some? ==> r.value in dm.enums && r.value.name == name
    ensures r.Some? ==> exists i :: 0 <= i < |dm.enums| && dm.enums[i] == r.value
                                    && forall j :: 0 <= j < i ==> dm.enums[j].name != name
    ensures r.None? <==> forall e :: e in dm.enums ==> e.name != name
  {
    FindEnumIn(dm.enums, name)
  }

  /** The search behind `find_enum`: the first enum of the list with the given name. */
  function FindEnumIn(enums: seq<EnumDef>, name: string): (r: Option<EnumDef>)
    ensures r.Some? ==> r.value in enums && r.value.name == name
    ensures r.Some? ==> exists i :: 0 <= i < |enums| && enums[i] == r.value
                                    && forall j :: 0 <= j < i ==> enums[j].name != name
    ensures r.None? <==> forall e :: e in enums ==> e.name != name
  {
    if enums == [] then None
    else if enums[0].name == name then Some(enums[0])
    else
      var r := FindEnumIn(enums[1..], name);
      assert r.Some? ==> exists i :: 0 <= i < |enums| && enums[i] == r.value
                                    && forall j :: 0 <= j < i ==> enums[j].name != name by {
        if r.Some? {
          var i :| 0 <= i < |enums[1..]| && enums[1..][i] == r.value
                   && forall j :: 0 <= j < i ==> enums[1..][j].name != name;
          assert enums[i + 1] == r.value;
          assert forall j :: 0 <= j < i + 1 ==> enums[j].name != name by {
            forall j | 0 <= j < i + 1 ensures enums[j].name != name {
              if j > 0 { assert enums[j] == enums[1..][j - 1]; }
            }
          }
        }
      }
      r
  }
}
