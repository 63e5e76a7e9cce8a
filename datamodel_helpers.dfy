/**
 * Read-only accessors the SQL schema calculator uses on the datamodel:
 * database names, field lookup, a model's id fields, the type of a field,
 * and the walk over every field of every model.
 */
module DatamodelHelpers {
  import opened Wrappers
  import opened Dml

  // ---------------------------------------------------------------------------
  // Database names
  // ---------------------------------------------------------------------------

  /** A model's table name: its mapped database name if it has one, else its name. */
  function ModelDbName(m: Model): (r: string)
    ensures m.databaseName.Some? ==> r == m.databaseName.value
    ensures m.databaseName.None? ==> r == m.name
  {
    if m.databaseName.Some? then m.databaseName.value else m.name
  }

  /** A field's column name: its only mapped database name, else its name. */
  function FieldDbName(f: Field): (r: string)
    ensures |f.databaseNames| == 1 ==> r == f.databaseNames[0]
    ensures |f.databaseNames| != 1 ==> r == f.name
  {
    if |f.databaseNames| == 1 then f.databaseNames[0] else f.name
  }

  /** An enum's database name: its mapped name if it has one, else its name. */
  function EnumDbName(e: EnumDef): (r: string)
    ensures e.databaseName.Some? ==> r == e.databaseName.value
    ensures e.databaseName.None? ==> r == e.name
  {
    if e.databaseName.Some? then e.databaseName.value else e.name
  }

  /** The column names of a list of fields, in order. */
  function FieldDbNames(fields: seq<Field>): (r: seq<string>)
    ensures |r| == |fields|
    ensures forall i :: 0 <= i < |fields| ==> r[i] == FieldDbName(fields[i])
  {
    seq(|fields|, i requires 0 <= i < |fields| => FieldDbName(fields[i]))
  }

  /** Column names of concatenated field lists are the concatenated column names. */
  lemma FieldDbNamesConcat(a: seq<Field>, b: seq<Field>)
    ensures FieldDbNames(a + b) == FieldDbNames(a) + FieldDbNames(b)
  {
    assert forall i :: 0 <= i < |a + b| ==> FieldDbNames(a + b)[i] == (FieldDbNames(a) + FieldDbNames(b))[i];
  }

  // ---------------------------------------------------------------------------
  // Field lookup
  // ---------------------------------------------------------------------------

  /** Position of the first field named `name` at or after `k`. */
  function FieldIndexFrom(fields: seq<Field>, name: string, k: nat): (r: Option<nat>)
    requires k <= |fields|
    ensures r.Some? ==> k <= r.value < |fields| && fields[r.value].name == name
    ensures r.Some? ==> forall j :: k <= j < r.value ==> fields[j].name != name
    ensures r.None? <==> forall j :: k <= j < |fields| ==> fields[j].name != name
    decreases |fields| - k
  {
    if k == |fields| then None
    else if fields[k].name == name then Some(k)
    else FieldIndexFrom(fields, name, k + 1)
  }

  /** `find_field`: the first field of the model with the given name, if any. */
  function FindField(m: Model, name: string): (r: Option<Field>)
    ensures r.Some? ==> r.value in m.fields && r.value.name == name
    ensures r.Some? ==> exists i :: 0 <= i < |m.fields| && m.fields[i] == r.value
                                    && forall j :: 0 <= j < i ==> m.fields[j].name != name
    ensures r.None? <==> forall f :: f in m.fields ==> f.name != name
  {
    match FieldIndexFrom(m.fields, name, 0)
    case Some(i) => Some(m.fields[i])
    case None => None
  }

  // ---------------------------------------------------------------------------
  // Id fields
  // ---------------------------------------------------------------------------

  /** The fields marked `@id`, in field order. */
  function IdMarked(fields: seq<Field>): (r: seq<Field>)
    ensures |r| <= |fields|
    ensures forall f :: f in r <==> f in fields && f.isId
  {
    if fields == [] then []
    else IdMarked(fields[..|fields| - 1]) + (if fields[|fields| - 1].isId then [fields[|fields| - 1]] else [])
  }

  /** The fields named in a compound id, in list order; unknown names are skipped. */
  function CompoundIdFields(m: Model, names: seq<string>): (r: seq<Field>)
    ensures |r| <= |names|
  {
    if names == [] then []
    else
      var last := names[|names| - 1];
      CompoundIdFields(m, names[..|names| - 1]) + NamedField(m, last)
  }

  /** The field a compound-id name resolves to, if any. */
  function NamedField(m: Model, name: string): seq<Field> {
    match FindField(m, name)
    case Some(f) => [f]
    case None => []
  }

  /**
   * Every resolved field is a field of the model named in the list, and
   * every name that resolves contributes its field.
   */
  lemma {:induction false} CompoundIdFieldsMembers(m: Model, names: seq<string>)
    ensures var r := CompoundIdFields(m, names);
      && (forall f :: f in r ==> f in m.fields && f.name in names)
      && (forall n :: n in names && FindField(m, n).Some? ==> FindField(m, n).value in r)
  {
    if names != [] {
      var init := names[..|names| - 1];
      CompoundIdFieldsMembers(m, init);
      assert names == init + [names[|names| - 1]];
    }
  }

  /** `id_fields`: the `@id` fields, then the resolvable names of the compound id. */
  function IdFields(m: Model): (r: seq<Field>)
    ensures forall f :: f in r ==> f in m.fields
    ensures forall f :: f in m.fields && f.isId ==> f in r
    ensures forall f :: f in r ==> f.isId || f.name in m.idFields
    ensures m.idFields == [] ==> r == IdMarked(m.fields)
  {
    CompoundIdFieldsMembers(m, m.idFields);
    IdMarked(m.fields) + CompoundIdFields(m, m.idFields)
  }

  /** Filtering `@id` fields distributes over concatenation: field order is kept. */
  lemma {:induction false} IdMarkedConcat(a: seq<Field>, b: seq<Field>)
    ensures IdMarked(a + b) == IdMarked(a) + IdMarked(b)
    decreases |b|
  {
    if b == [] {
      assert a + b == a;
    } else {
      var b' := b[..|b| - 1];
      assert (a + b)[..|a + b| - 1] == a + b';
      IdMarkedConcat(a, b');
    }
  }

  /** Resolving compound id names distributes over concatenation: list order is kept. */
  lemma {:induction false} CompoundIdFieldsConcat(m: Model, a: seq<string>, b: seq<string>)
    ensures CompoundIdFields(m, a + b) == CompoundIdFields(m, a) + CompoundIdFields(m, b)
    decreases |b|
  {
    if b == [] {
      assert a + b == a;
    } else {
      var b' := b[..|b| - 1];
      assert (a + b)[..|a + b| - 1] == a + b';
      assert (a + b)[|a + b| - 1] == b[|b| - 1];
      CompoundIdFieldsConcat(m, a, b');
    }
  }

  // ---------------------------------------------------------------------------
  // Field types
  // ---------------------------------------------------------------------------

  datatype TypeRef = EnumRef(enumDef: EnumDef) | BaseRef(scalar: ScalarType) | OtherRef

  /** `field_type`; an enum field's enum must exist in the datamodel. */
  function FieldTypeRef(dm: Datamodel, f: Field): (r: TypeRef)
    requires f.fieldType.Enum? ==> FindEnum(dm, f.fieldType.enumName).Some?
    ensures r.EnumRef? <==> f.fieldType.Enum?
    ensures r.EnumRef? ==> r.enumDef in dm.enums && r.enumDef.name == f.fieldType.enumName
    ensures r.BaseRef? <==> f.fieldType.Base?
    ensures r.BaseRef? ==> r.scalar == f.fieldType.scalar
  {
    match f.fieldType
    case Enum(name) => EnumRef(FindEnum(dm, name).value)
    case Base(s) => BaseRef(s)
    case _ => OtherRef
  }

  /** `as_enum`: only an enum type is an enum. */
  function AsEnum(t: TypeRef): (r: Option<EnumDef>)
    ensures r.Some? <==> t.EnumRef?
    ensures r.Some? ==> r.value == t.enumDef
  {
    match t
    case EnumRef(e) => Some(e)
    case _ => None
  }

  // ---------------------------------------------------------------------------
  // Walking all fields
  // ---------------------------------------------------------------------------

  /** Number of fields in the given models. */
  function FieldCount(models: seq<Model>): nat {
    if models == [] then 0 else |models[0].fields| + FieldCount(models[1..])
  }

  /** `walk_fields`: every field of every model, paired with its model. */
  function WalkFields(models: seq<Model>): (r: seq<(Model, Field)>)
    ensures |r| == FieldCount(models)
    ensures forall k :: 0 <= k < |r| ==> r[k].0 in models && r[k].1 in r[k].0.fields
  {
    if models == [] then []
    else
      var m := models[0];
      ModelFieldPairs(m) + WalkFields(models[1..])
  }

  /** The head of the walk: the fields of one model, paired with it. */
  function ModelFieldPairs(m: Model): (r: seq<(Model, Field)>)
    ensures |r| == |m.fields|
    ensures forall j :: 0 <= j < |m.fields| ==> r[j] == (m, m.fields[j])
  {
    seq(|m.fields|, j requires 0 <= j < |m.fields| => (m, m.fields[j]))
  }

  lemma FieldCountStep(models: seq<Model>, i: nat)
    requires 0 < i <= |models|
    ensures FieldCount(models[..i]) == |models[0].fields| + FieldCount(models[1..][..i - 1])
  {
    assert models[..i][0] == models[0];
    assert models[..i][1..] == models[1..][..i - 1];
  }

  /**
   * Model order then field order: field `j` of model `i` sits after all the
   * fields of the models before `i`.
   */
  lemma {:induction false} WalkFieldsAt(models: seq<Model>, i: nat, j: nat)
    requires i < |models| && j < |models[i].fields|
    ensures FieldCount(models[..i]) + j < |WalkFields(models)|
    ensures WalkFields(models)[FieldCount(models[..i]) + j] == (models[i], models[i].fields[j])
  {
    var w := WalkFields(models);
    assert w == ModelFieldPairs(models[0]) + WalkFields(models[1..]);
    if i == 0 {
      assert models[..0] == [];
    } else {
      WalkFieldsAt(models[1..], i - 1, j);
      FieldCountStep(models, i);
    }
  }
}
