/**
 * Introspection: rewriting model, field, enum and index names read from a
 * database into valid Prisma identifiers, remembering the original names as
 * database names.
 */
module SanitizeDatamodelNames {
  import opened Wrappers
  import opened Dml

  // ---------------------------------------------------------------------------
  // The two patterns, as character classes
  // ---------------------------------------------------------------------------

  predicate IsAsciiLetter(c: char) { 'a' <= c <= 'z' || 'A' <= c <= 'Z' }

  /** The class `[_a-zA-Z0-9]`. */
  predicate IsIdentChar(c: char) { c == '_' || IsAsciiLetter(c) || '0' <= c <= '9' }

  /** `^[^a-zA-Z]+` matches: the name starts with something other than an ASCII letter. */
  predicate StartsWithNonLetter(s: string) { |s| > 0 && !IsAsciiLetter(s[0]) }

  /** `[^_a-zA-Z0-9]` matches somewhere in the name. */
  predicate HasNonIdentChar(s: string) { exists i :: 0 <= i < |s| && !IsIdentChar(s[i]) }

  predicate NeedsSanitation(s: string) { StartsWithNonLetter(s) || HasNonIdentChar(s) }

  /** A valid identifier: only `[_a-zA-Z0-9]`, and empty or starting with a letter. */
  predicate IsSanitized(s: string) {
    && (forall i :: 0 <= i < |s| ==> IsIdentChar(s[i]))
    && (s == [] || IsAsciiLetter(s[0]))
  }

  /** Replacing `^[^a-zA-Z]+` by the empty string: drops the maximal leading run of non-letters. */
  function StripLeadingNonLetters(s: string): (r: string)
    ensures |r| <= |s| && r == s[|s| - |r|..]
    ensures forall i :: 0 <= i < |s| - |r| ==> !IsAsciiLetter(s[i])
    ensures r == [] || IsAsciiLetter(r[0])
  {
    if s == [] || IsAsciiLetter(s[0]) then s else StripLeadingNonLetters(s[1..])
  }

  /** Replacing every match of `[^_a-zA-Z0-9]` by `_`. */
  function ReplaceNonIdentChars(s: string): (r: string)
    ensures |r| == |s|
    ensures forall i :: 0 <= i < |s| ==> IsIdentChar(r[i])
    ensures forall i :: 0 <= i < |s| && IsIdentChar(s[i]) ==> r[i] == s[i]
  {
    if s == [] then []
    else [if IsIdentChar(s[0]) then s[0] else '_'] + ReplaceNonIdentChars(s[1..])
  }

  /**
   * `sanitize_name`: the sanitised name, and the original name as database name
   * when anything had to change.
   */
  function SanitizeName(name: string): (r: (string, Option<string>))
    ensures IsSanitized(r.0)
    ensures r.1.None? <==> !NeedsSanitation(name)
    ensures r.1.None? ==> r.0 == name
    ensures r.1.Some? ==> r.1.value == name
  {
    if NeedsSanitation(name) then
      var stripped := StripLeadingNonLetters(name);
      (ReplaceNonIdentChars(stripped), Some(name))
    else
      (name, None)
  }

  lemma SanitizedIffNoSanitation(s: string)
    ensures IsSanitized(s) <==> !NeedsSanitation(s)
  {
    if IsSanitized(s) {
      assert !HasNonIdentChar(s);
    }
  }

  /**
   * What a sanitised name is, stated against the input alone: the maximal
   * leading run of non-letters (digits and `_` included) is gone, and each
   * remaining character outside `[_a-zA-Z0-9]` became `_`.
   */
  lemma SanitizeNameRewrite(name: string)
    requires NeedsSanitation(name)
    ensures SanitizeName(name).1 == Some(name)
    ensures var s := SanitizeName(name).0;
      var k := |name| - |s|;
      && 0 <= k <= |name|
      && (forall i :: 0 <= i < k ==> !IsAsciiLetter(name[i]))
      && (k < |name| ==> IsAsciiLetter(name[k]))
      && (forall i :: 0 <= i < |s| ==> s[i] == if IsIdentChar(name[k + i]) then name[k + i] else '_')
  {
    var stripped := StripLeadingNonLetters(name);
    var s := ReplaceNonIdentChars(stripped);
    assert SanitizeName(name).0 == s;
    var k := |name| - |s|;
    assert stripped == name[k..];
    forall i | 0 <= i < |s|
      ensures s[i] == if IsIdentChar(name[k + i]) then name[k + i] else '_'
    {
      ReplaceNonIdentCharsAt(stripped, i);
    }
  }

  lemma {:induction false} ReplaceNonIdentCharsAt(s: string, i: nat)
    requires i < |s|
    ensures |ReplaceNonIdentChars(s)| == |s|
    ensures ReplaceNonIdentChars(s)[i] == if IsIdentChar(s[i]) then s[i] else '_'
  {
    if i > 0 {
      ReplaceNonIdentCharsAt(s[1..], i - 1);
    }
  }

  /** Sanitising is idempotent: a sanitised name comes back unchanged, with no database name. */
  lemma SanitizeNameIdempotent(name: string)
    ensures SanitizeName(SanitizeName(name).0) == (SanitizeName(name).0, None)
  {
    SanitizedIffNoSanitation(SanitizeName(name).0);
  }

  // ---------------------------------------------------------------------------
  // The datamodel pass
  // ---------------------------------------------------------------------------

  /** The sanitised names of a list of names (`to_fields`, index field lists). */
  function SanitizeNames(names: seq<string>): (r: seq<string>)
    ensures |r| == |names|
    ensures forall i :: 0 <= i < |names| ==> r[i] == SanitizeName(names[i]).0
  {
    if names == [] then [] else [SanitizeName(names[0]).0] + SanitizeNames(names[1..])
  }

  function SanitizeRelationInfo(info: RelationInfo): RelationInfo {
    RelationInfo(SanitizeName(info.name).0, SanitizeName(info.to).0, SanitizeNames(info.toFields))
  }

  /**
   * The new enum name of an enum-typed field, and the database name recorded
   * for it. An enum named `{model}_{field}` (the MySQL convention) is renamed
   * after the sanitised model and field names, and only when one of them
   * changed; any other enum name is sanitised on its own.
   */
  function SanitizeEnumRef(modelName: string, fieldName: string, enumName: string): (string, Option<string>) {
    var (sanitizedModel, modelDb) := SanitizeName(modelName);
    var (sanitizedField, fieldDb) := SanitizeName(fieldName);
    if enumName == modelName + "_" + fieldName then
      if modelDb.None? && fieldDb.None? then (enumName, None)
      else (sanitizedModel + "_" + sanitizedField, Some(enumName))
    else
      SanitizeName(enumName)
  }

  function SanitizedFieldType(modelName: string, f: Field): FieldType {
    match f.fieldType
    case Relation(info) => Relation(SanitizeRelationInfo(info))
    case Enum(e) => Enum(SanitizeEnumRef(modelName, f.name, e).0)
    case other => other
  }

  /** Existing database names are kept; otherwise the field's original name is recorded if it changed. */
  function SanitizedDatabaseNames(f: Field): seq<string> {
    if f.databaseNames == [] then
      match SanitizeName(f.name).1
      case Some(db) => [db]
      case None => []
    else f.databaseNames
  }

  function SanitizedField(modelName: string, f: Field): Field {
    f.(name := SanitizeName(f.name).0,
       fieldType := SanitizedFieldType(modelName, f),
       databaseNames := SanitizedDatabaseNames(f))
  }

  /** The first index holding `x`, or `|xs|` when there is none (`iter_mut().find`). */
  function FirstIndexOf(xs: seq<string>, x: string): (r: nat)
    ensures r <= |xs|
    ensures forall i :: 0 <= i < r ==> xs[i] != x
    ensures r < |xs| ==> xs[r] == x
  {
    if xs == [] then 0 else if xs[0] == x then 0 else 1 + FirstIndexOf(xs[1..], x)
  }

  lemma {:induction false} FirstIndexOfUnique(xs: seq<string>, x: string, j: nat)
    requires j <= |xs|
    requires forall i :: 0 <= i < j ==> xs[i] != x
    requires j < |xs| ==> xs[j] == x
    ensures FirstIndexOf(xs, x) == j
  {
    if xs != [] && xs[0] != x {
      FirstIndexOfUnique(xs[1..], x, j - 1);
    }
  }

  /** Renames the first entry equal to `from`, if any. */
  function RenameFirst(xs: seq<string>, from: string, to: string): seq<string> {
    var j := FirstIndexOf(xs, from);
    if j < |xs| then xs[j := to] else xs
  }

  /** The model's `id_fields` after its first `k` fields were processed. */
  function IdFieldsAfter(m: Model, k: nat): seq<string>
    requires k <= |m.fields|
  {
    if k == 0 then m.idFields
    else RenameFirst(IdFieldsAfter(m, k - 1), m.fields[k - 1].name, SanitizeName(m.fields[k - 1].name).0)
  }

  function SanitizedIndex(index: IndexDefinition): IndexDefinition {
    index.(fields := SanitizeNames(index.fields))
  }

  /** The fields of model `modelName`, each sanitised, in order. */
  function SanitizedFields(modelName: string, fields: seq<Field>): (r: seq<Field>)
    ensures |r| == |fields|
    ensures forall j :: 0 <= j < |fields| ==> r[j] == SanitizedField(modelName, fields[j])
  {
    if fields == [] then []
    else SanitizedFields(modelName, fields[..|fields| - 1]) + [SanitizedField(modelName, fields[|fields| - 1])]
  }

  function SanitizedModel(m: Model): Model {
    m.(name := SanitizeName(m.name).0,
       databaseName := SanitizeName(m.name).1,
       fields := SanitizedFields(m.name, m.fields),
       idFields := IdFieldsAfter(m, |m.fields|),
       indices := seq(|m.indices|, j requires 0 <= j < |m.indices| => SanitizedIndex(m.indices[j])))
  }

  type Renames = map<string, (string, Option<string>)>

  /** `enum_renames` after the first `k` fields of `m` were processed, starting from `acc`. */
  function FieldRenames(acc: Renames, m: Model, k: nat): Renames
    requires k <= |m.fields|
  {
    if k == 0 then acc
    else
      WithEnumRename(FieldRenames(acc, m, k - 1), m.name, m.fields[k - 1])
  }

  /** The rename an enum-typed field records: keyed by the old enum name. */
  function WithEnumRename(renames: Renames, modelName: string, f: Field): Renames {
    if f.fieldType.Enum? then
      var (n, db) := SanitizeEnumRef(modelName, f.name, f.fieldType.enumName);
      if db.Some? then renames[db.value := (n, db)] else renames
    else renames
  }

  /** `enum_renames` after the first `i` models were processed. */
  function ModelRenames(models: seq<Model>, i: nat): Renames
    requires i <= |models|
  {
    if i == 0 then map[] else FieldRenames(ModelRenames(models, i - 1), models[i - 1], |models[i - 1].fields|)
  }

  /** An enum declaration takes its recorded rename, or is sanitised on its own. */
  function SanitizedEnum(renames: Renames, e: EnumDef): EnumDef {
    if e.name in renames then e.(name := renames[e.name].0, databaseName := renames[e.name].1)
    else e.(name := SanitizeName(e.name).0, databaseName := SanitizeName(e.name).1)
  }

  function SanitizedDatamodel(dm: Datamodel): Datamodel {
    var renames := ModelRenames(dm.models, |dm.models|);
    Datamodel(
      seq(|dm.models|, i requires 0 <= i < |dm.models| => SanitizedModel(dm.models[i])),
      seq(|dm.enums|, i requires 0 <= i < |dm.enums| => SanitizedEnum(renames, dm.enums[i])))
  }

  // ---------------------------------------------------------------------------
  // Properties of the datamodel pass
  // ---------------------------------------------------------------------------

  /**
   * Models, fields, relation information, indexes: what each becomes, stated
   * against the input datamodel.
   */
  lemma SanitizedDatamodelShape(dm: Datamodel)
    ensures var r := SanitizedDatamodel(dm);
      && |r.models| == |dm.models| && |r.enums| == |dm.enums|
      && forall i :: 0 <= i < |dm.models| ==>
        var m, m' := dm.models[i], r.models[i];
        && m'.name == SanitizeName(m.name).0
        && (m'.databaseName.None? <==> !NeedsSanitation(m.name))
        && (m'.databaseName.Some? ==> m'.databaseName.value == m.name)
        && |m'.fields| == |m.fields| && |m'.indices| == |m.indices|
        && (forall j :: 0 <= j < |m.fields| ==>
              var f, f' := m.fields[j], m'.fields[j];
              && f'.name == SanitizeName(f.name).0
              && (f.databaseNames != [] ==> f'.databaseNames == f.databaseNames)
              && (f.databaseNames == [] && NeedsSanitation(f.name) ==> f'.databaseNames == [f.name])
              && (f.databaseNames == [] && !NeedsSanitation(f.name) ==> f'.databaseNames == [])
              && (f.fieldType.Relation? ==>
                    && f'.fieldType.Relation?
                    && f'.fieldType.info.name == SanitizeName(f.fieldType.info.name).0
                    && f'.fieldType.info.to == SanitizeName(f.fieldType.info.to).0
                    && |f'.fieldType.info.toFields| == |f.fieldType.info.toFields|
                    && forall t :: 0 <= t < |f.fieldType.info.toFields| ==>
                         f'.fieldType.info.toFields[t] == SanitizeName(f.fieldType.info.toFields[t]).0)
              && (f.fieldType.Base? || f.fieldType.Unsupported? ==> f'.fieldType == f.fieldType))
        && (forall j :: 0 <= j < |m.indices| ==>
              && |m'.indices[j].fields| == |m.indices[j].fields|
              && m'.indices[j].name == m.indices[j].name
              && m'.indices[j].tpe == m.indices[j].tpe
              && forall t :: 0 <= t < |m.indices[j].fields| ==>
                   m'.indices[j].fields[t] == SanitizeName(m.indices[j].fields[t]).0)
  {
  }

  /**
   * An enum-typed field: an enum named `{model}_{field}` keeps its name when
   * neither the model nor the field name needed sanitising, and otherwise
   * becomes `{sanitizedModel}_{sanitizedField}` with the old name recorded;
   * any other enum name is sanitised on its own.
   */
  lemma SanitizedEnumField(m: Model, f: Field)
    requires f.fieldType.Enum?
    ensures var e := f.fieldType.enumName;
      var ft := SanitizedField(m.name, f).fieldType;
      var (n, db) := SanitizeEnumRef(m.name, f.name, e);
      && ft == Enum(n)
      && (e == m.name + "_" + f.name && !NeedsSanitation(m.name) && !NeedsSanitation(f.name) ==> n == e && db.None?)
      && (e == m.name + "_" + f.name && (NeedsSanitation(m.name) || NeedsSanitation(f.name)) ==>
            n == SanitizeName(m.name).0 + "_" + SanitizeName(f.name).0 && db == Some(e))
      && (e != m.name + "_" + f.name ==> (n, db) == SanitizeName(e))
      && (db.Some? ==> db.value == e)
  {
  }

  /** The field `f` of model `m` records a rename of the enum `key`. */
  predicate RecordsRename(m: Model, f: Field, key: string) {
    f.fieldType.Enum? && SanitizeEnumRef(m.name, f.name, f.fieldType.enumName).1 == Some(key)
  }

  /** Every entry of the rename table records its own key as the database name. */
  predicate RecordsOldNames(renames: Renames) {
    forall key :: key in renames ==> renames[key].1 == Some(key)
  }

  /** The new enum name the enum-typed field `f` of model `m` carries, and records when it records a rename. */
  function RecordedName(m: Model, f: Field): string
    requires f.fieldType.Enum?
  {
    SanitizeEnumRef(m.name, f.name, f.fieldType.enumName).0
  }

  /** Field `j` is the last of the first `k` fields of `m` to record a rename of `key`. */
  predicate LastToRecord(m: Model, k: nat, j: int, key: string) {
    && 0 <= j < k <= |m.fields|
    && RecordsRename(m, m.fields[j], key)
    && forall t :: j < t < k ==> !RecordsRename(m, m.fields[t], key)
  }

  /** The keys of the table after `k` fields, and the database name each carries. */
  lemma {:induction false} FieldRenamesKeys(acc: Renames, m: Model, k: nat)
    requires k <= |m.fields|
    requires RecordsOldNames(acc)
    ensures RecordsOldNames(FieldRenames(acc, m, k))
    ensures forall key :: key in FieldRenames(acc, m, k) <==>
      key in acc || exists j :: 0 <= j < k && RecordsRename(m, m.fields[j], key)
  {
    if k > 0 {
      FieldRenamesKeys(acc, m, k - 1);
      var f := m.fields[k - 1];
      forall key
        ensures key in FieldRenames(acc, m, k) <==>
          key in acc || exists j :: 0 <= j < k && RecordsRename(m, m.fields[j], key)
      {
        if RecordsRename(m, f, key) {
          assert key in FieldRenames(acc, m, k);
        }
        if key in FieldRenames(acc, m, k) && key !in acc && !RecordsRename(m, f, key) {
          assert key in FieldRenames(acc, m, k - 1);
        }
      }
    }
  }

  /** Field `k - 1` overwrites the entry of the key it records and leaves every other entry alone. */
  lemma FieldRenamesStep(acc: Renames, m: Model, k: nat, key: string)
    requires 0 < k <= |m.fields|
    ensures RecordsRename(m, m.fields[k - 1], key) ==>
      key in FieldRenames(acc, m, k) && FieldRenames(acc, m, k)[key] == (RecordedName(m, m.fields[k - 1]), Some(key))
    ensures !RecordsRename(m, m.fields[k - 1], key) ==>
      && (key in FieldRenames(acc, m, k) <==> key in FieldRenames(acc, m, k - 1))
      && (key in FieldRenames(acc, m, k) ==> FieldRenames(acc, m, k)[key] == FieldRenames(acc, m, k - 1)[key])
  {
  }

  /** The entry of a key is the new name recorded by the last field to record it. */
  lemma {:induction false} FieldRenamesLast(acc: Renames, m: Model, k: nat, j: int, key: string)
    requires LastToRecord(m, k, j, key)
    ensures key in FieldRenames(acc, m, k) && FieldRenames(acc, m, k)[key].0 == RecordedName(m, m.fields[j])
  {
    FieldRenamesStep(acc, m, k, key);
    if j < k - 1 {
      assert !RecordsRename(m, m.fields[k - 1], key);
      assert LastToRecord(m, k - 1, j, key);
      FieldRenamesLast(acc, m, k - 1, j, key);
    }
  }

  /** A key no field recorded keeps the entry it had. */
  lemma {:induction false} FieldRenamesKept(acc: Renames, m: Model, k: nat, key: string)
    requires k <= |m.fields| && key in acc
    requires forall j :: 0 <= j < k ==> !RecordsRename(m, m.fields[j], key)
    ensures key in FieldRenames(acc, m, k) && FieldRenames(acc, m, k)[key] == acc[key]
  {
    if k > 0 {
      FieldRenamesStep(acc, m, k, key);
      FieldRenamesKept(acc, m, k - 1, key);
    }
  }

  /**
   * The table after `k` fields: a key is present iff it was already or some
   * field recorded it; the entry is the new name of the last field that
   * recorded the key (a later insert overwrites an earlier one), and an entry
   * no field recorded is the one `acc` had.
   */
  lemma FieldRenamesEntries(acc: Renames, m: Model, k: nat)
    requires k <= |m.fields|
    requires RecordsOldNames(acc)
    ensures RecordsOldNames(FieldRenames(acc, m, k))
    ensures forall key :: key in FieldRenames(acc, m, k) <==>
      key in acc || exists j :: 0 <= j < k && RecordsRename(m, m.fields[j], key)
    ensures forall j, key :: LastToRecord(m, k, j, key) ==>
      key in FieldRenames(acc, m, k) && FieldRenames(acc, m, k)[key].0 == RecordedName(m, m.fields[j])
    ensures forall key :: key in acc && (forall j :: 0 <= j < k ==> !RecordsRename(m, m.fields[j], key)) ==>
      key in FieldRenames(acc, m, k) && FieldRenames(acc, m, k)[key] == acc[key]
  {
    FieldRenamesKeys(acc, m, k);
    forall j, key | LastToRecord(m, k, j, key)
      ensures key in FieldRenames(acc, m, k) && FieldRenames(acc, m, k)[key].0 == RecordedName(m, m.fields[j])
    {
      FieldRenamesLast(acc, m, k, j, key);
    }
    forall key | key in acc && (forall j :: 0 <= j < k ==> !RecordsRename(m, m.fields[j], key))
      ensures key in FieldRenames(acc, m, k) && FieldRenames(acc, m, k)[key] == acc[key]
    {
      FieldRenamesKept(acc, m, k, key);
    }
  }

  /** Some field of one of the first `i` models records a rename of `key`. */
  predicate RenamedByModels(models: seq<Model>, i: nat, key: string)
    requires i <= |models|
  {
    exists a, j :: 0 <= a < i && 0 <= j < |models[a].fields| && RecordsRename(models[a], models[a].fields[j], key)
  }

  /** Some field of `m` records a rename of `key`. */
  predicate RenamedByModel(m: Model, key: string) {
    exists j :: 0 <= j < |m.fields| && RecordsRename(m, m.fields[j], key)
  }

  /** A key is renamed by the first `i` models iff by the first `i - 1` or by a field of model `i - 1`. */
  lemma RenamedByModelsSnoc(models: seq<Model>, i: nat, key: string)
    requires 0 < i <= |models|
    ensures RenamedByModels(models, i, key) <==>
      RenamedByModels(models, i - 1, key) || RenamedByModel(models[i - 1], key)
  {
    var m := models[i - 1];
    if RenamedByModels(models, i, key) {
      var a, j :| 0 <= a < i && 0 <= j < |models[a].fields| && RecordsRename(models[a], models[a].fields[j], key);
      if a < i - 1 {
        assert RenamedByModels(models, i - 1, key);
      } else {
        assert 0 <= j < |m.fields| && RecordsRename(m, m.fields[j], key);
      }
    }
    if RenamedByModels(models, i - 1, key) {
      var a, j :| 0 <= a < i - 1 && 0 <= j < |models[a].fields| && RecordsRename(models[a], models[a].fields[j], key);
      assert RenamedByModels(models, i, key);
    }
    if RenamedByModel(m, key) {
      var j :| 0 <= j < |m.fields| && RecordsRename(m, m.fields[j], key);
      assert RecordsRename(models[i - 1], models[i - 1].fields[j], key);
      assert RenamedByModels(models, i, key);
    }
  }

  /**
   * Field `j` of model `a` is the last field of the first `i` models, in
   * processing order, to record a rename of `key`.
   */
  predicate LastToRecordIn(models: seq<Model>, i: nat, a: int, j: int, key: string) {
    && 0 <= a < i <= |models|
    && LastToRecord(models[a], |models[a].fields|, j, key)
    && forall b :: a < b < i ==> !RenamedByModel(models[b], key)
  }

  /** The keys of the table after `i` models, and the database name each carries. */
  lemma {:induction false} ModelRenamesKeys(models: seq<Model>, i: nat)
    requires i <= |models|
    ensures RecordsOldNames(ModelRenames(models, i))
    ensures forall key :: key in ModelRenames(models, i) <==> RenamedByModels(models, i, key)
  {
    if i > 0 {
      ModelRenamesKeys(models, i - 1);
      var acc := ModelRenames(models, i - 1);
      var m := models[i - 1];
      FieldRenamesKeys(acc, m, |m.fields|);
      forall key
        ensures key in ModelRenames(models, i) <==> RenamedByModels(models, i, key)
      {
        RenamedByModelsSnoc(models, i, key);
      }
    }
  }

  /** After `i` models, the entry of a key is the new name recorded by the last field to record it. */
  lemma {:induction false} ModelRenamesLast(models: seq<Model>, i: nat, a: int, j: int, key: string)
    requires LastToRecordIn(models, i, a, j, key)
    ensures key in ModelRenames(models, i) && ModelRenames(models, i)[key].0 == RecordedName(models[a], models[a].fields[j])
  {
    var acc := ModelRenames(models, i - 1);
    var m := models[i - 1];
    if a == i - 1 {
      FieldRenamesLast(acc, m, |m.fields|, j, key);
    } else {
      assert !RenamedByModel(m, key);
      assert LastToRecordIn(models, i - 1, a, j, key);
      ModelRenamesLast(models, i - 1, a, j, key);
      FieldRenamesKept(acc, m, |m.fields|, key);
    }
  }

  /**
   * The table after `i` models: its keys are exactly the old enum names some
   * field recorded, each entry carries its key as database name, and its new
   * name is that of the last field to record the key.
   */
  lemma ModelRenamesEntries(models: seq<Model>, i: nat)
    requires i <= |models|
    ensures RecordsOldNames(ModelRenames(models, i))
    ensures forall key :: key in ModelRenames(models, i) <==>
      exists a, j :: 0 <= a < i && 0 <= j < |models[a].fields| && RecordsRename(models[a], models[a].fields[j], key)
    ensures forall a, j, key :: LastToRecordIn(models, i, a, j, key) ==>
      key in ModelRenames(models, i) && ModelRenames(models, i)[key].0 == RecordedName(models[a], models[a].fields[j])
  {
    ModelRenamesKeys(models, i);
    forall a, j, key | LastToRecordIn(models, i, a, j, key)
      ensures key in ModelRenames(models, i) && ModelRenames(models, i)[key].0 == RecordedName(models[a], models[a].fields[j])
    {
      ModelRenamesLast(models, i, a, j, key);
    }
  }

  /**
   * Enum declarations: one whose name some enum field recorded a rename for
   * takes that rename, every other one is sanitised on its own; either way
   * its database name is its old name or nothing.
   */
  lemma SanitizedEnumDecls(dm: Datamodel)
    ensures var r := SanitizedDatamodel(dm);
      var renames := ModelRenames(dm.models, |dm.models|);
      forall i :: 0 <= i < |dm.enums| ==>
        var e, e' := dm.enums[i], r.enums[i];
        && (e'.databaseName.None? || e'.databaseName == Some(e.name))
        && (e.name in renames <==>
              exists a, j :: 0 <= a < |dm.models| && 0 <= j < |dm.models[a].fields| &&
                RecordsRename(dm.models[a], dm.models[a].fields[j], e.name))
        && (e.name in renames ==> e'.name == renames[e.name].0 && e'.databaseName == Some(e.name))
        && (e.name !in renames ==> e'.name == SanitizeName(e.name).0)
        && e'.values == e.values
  {
    ModelRenamesEntries(dm.models, |dm.models|);
  }

  /**
   * A renamed enum declaration takes the name its last recording field now
   * refers to: that field's type is `Enum` of the declaration's new name.
   */
  lemma SanitizedEnumDeclFollowsField(dm: Datamodel, i: nat, a: nat, j: nat)
    requires i < |dm.enums|
    requires LastToRecordIn(dm.models, |dm.models|, a, j, dm.enums[i].name)
    ensures var r := SanitizedDatamodel(dm);
      && r.enums[i].name == RecordedName(dm.models[a], dm.models[a].fields[j])
      && r.models[a].fields[j].fieldType == Enum(r.enums[i].name)
      && r.enums[i].databaseName == Some(dm.enums[i].name)
  {
    ModelRenamesEntries(dm.models, |dm.models|);
    SanitizedEnumField(dm.models[a], dm.models[a].fields[j]);
  }

  /** Some field among the first `k` of `m` is named `x`. */
  predicate NamedAmong(m: Model, k: nat, x: string)
    requires k <= |m.fields|
  {
    exists t :: 0 <= t < k && m.fields[t].name == x
  }

  /**
   * What renaming `id_fields` entries one field at a time needs to be
   * unambiguous: distinct field names, distinct `id_fields` entries, and no
   * field sanitised into the name of a later field.
   */
  predicate IdFieldsRenameable(m: Model) {
    && (forall t, u :: 0 <= t < u < |m.fields| ==> m.fields[t].name != m.fields[u].name)
    && (forall a, b :: 0 <= a < b < |m.idFields| ==> m.idFields[a] != m.idFields[b])
    && (forall t, u :: 0 <= t < u < |m.fields| ==> SanitizeName(m.fields[t].name).0 != m.fields[u].name)
  }

  /** `cur` is `id_fields` with exactly the entries naming one of the first `k` fields sanitised. */
  predicate IdFieldsRenamedUpTo(m: Model, k: nat, cur: seq<string>)
    requires k <= |m.fields|
  {
    && |cur| == |m.idFields|
    && forall a :: 0 <= a < |m.idFields| ==>
         cur[a] == if NamedAmong(m, k, m.idFields[a]) then SanitizeName(m.idFields[a]).0 else m.idFields[a]
  }

  /** Before field `k - 1` is processed, only an unrenamed entry can still carry its name. */
  lemma OnlyUnrenamedEntryMatches(m: Model, k: nat, cur: seq<string>)
    requires IdFieldsRenameable(m) && 0 < k <= |m.fields| && IdFieldsRenamedUpTo(m, k - 1, cur)
    ensures forall a :: 0 <= a < |cur| && cur[a] == m.fields[k - 1].name ==> m.idFields[a] == m.fields[k - 1].name
  {
    var n := m.fields[k - 1].name;
    forall a | 0 <= a < |cur| && NamedAmong(m, k - 1, m.idFields[a]) ensures cur[a] != n {
      var t :| 0 <= t < k - 1 && m.fields[t].name == m.idFields[a];
      assert SanitizeName(m.fields[t].name).0 != n;
    }
  }

  /** Field `k - 1` names an `id_fields` entry: that entry, and only it, is renamed. */
  lemma IdFieldsRenameMatched(m: Model, k: nat, cur: seq<string>, a: nat)
    requires IdFieldsRenameable(m) && 0 < k <= |m.fields| && IdFieldsRenamedUpTo(m, k - 1, cur)
    requires a < |m.idFields| && m.idFields[a] == m.fields[k - 1].name
    ensures IdFieldsRenamedUpTo(m, k, RenameFirst(cur, m.fields[k - 1].name, SanitizeName(m.fields[k - 1].name).0))
  {
    var n := m.fields[k - 1].name;
    var ids := m.idFields;
    assert !NamedAmong(m, k - 1, n);
    assert cur[a] == n;
    forall b | 0 <= b < a
      ensures cur[b] != n
    {
      OnlyUnrenamedEntryMatches(m, k, cur);
      assert ids[b] != ids[a];
    }
    FirstIndexOfUnique(cur, n, a);
    var r := cur[a := SanitizeName(n).0];
    assert RenameFirst(cur, n, SanitizeName(n).0) == r;
    forall b | 0 <= b < |ids|
      ensures r[b] == if NamedAmong(m, k, ids[b]) then SanitizeName(ids[b]).0 else ids[b]
    {
      if b == a {
        assert m.fields[k - 1].name == ids[a];
      } else {
        assert ids[b] != n;
        assert NamedAmong(m, k, ids[b]) == NamedAmong(m, k - 1, ids[b]);
      }
    }
  }

  /** Field `k - 1` names no `id_fields` entry: nothing is renamed. */
  lemma IdFieldsRenameUnmatched(m: Model, k: nat, cur: seq<string>)
    requires IdFieldsRenameable(m) && 0 < k <= |m.fields| && IdFieldsRenamedUpTo(m, k - 1, cur)
    requires forall a :: 0 <= a < |m.idFields| ==> m.idFields[a] != m.fields[k - 1].name
    ensures IdFieldsRenamedUpTo(m, k, RenameFirst(cur, m.fields[k - 1].name, SanitizeName(m.fields[k - 1].name).0))
  {
    var n := m.fields[k - 1].name;
    OnlyUnrenamedEntryMatches(m, k, cur);
    FirstIndexOfUnique(cur, n, |cur|);
    forall b | 0 <= b < |m.idFields|
      ensures NamedAmong(m, k, m.idFields[b]) == NamedAmong(m, k - 1, m.idFields[b])
    {
    }
  }

  /**
   * With distinct field names, distinct `id_fields` entries, and no field
   * sanitised into the name of a later field, every `id_fields` entry that
   * names a field ends up as that field's sanitised name; others are kept.
   */
  lemma {:induction false} IdFieldsFollowFieldRenames(m: Model, k: nat)
    requires k <= |m.fields|
    requires forall t, u :: 0 <= t < u < |m.fields| ==> m.fields[t].name != m.fields[u].name
    requires forall a, b :: 0 <= a < b < |m.idFields| ==> m.idFields[a] != m.idFields[b]
    requires forall t, u :: 0 <= t < u < |m.fields| ==> SanitizeName(m.fields[t].name).0 != m.fields[u].name
    ensures |IdFieldsAfter(m, k)| == |m.idFields|
    ensures forall a :: 0 <= a < |m.idFields| ==>
      IdFieldsAfter(m, k)[a] == if NamedAmong(m, k, m.idFields[a]) then SanitizeName(m.idFields[a]).0 else m.idFields[a]
  {
    if k > 0 {
      IdFieldsFollowFieldRenames(m, k - 1);
      var n := m.fields[k - 1].name;
      if a :| 0 <= a < |m.idFields| && m.idFields[a] == n {
        IdFieldsRenameMatched(m, k, IdFieldsAfter(m, k - 1), a);
      } else {
        IdFieldsRenameUnmatched(m, k, IdFieldsAfter(m, k - 1));
      }
    }
  }

  /**
   * The type part of one field iteration: relation information is sanitised,
   * and an enum reference is renamed, recording the old enum name.
   */
  method SanitizeFieldTypeInPlace(modelName: string, field: Field, renames: Renames)
    returns (fieldType: FieldType, newRenames: Renames)
    ensures fieldType == SanitizedFieldType(modelName, field)
    ensures newRenames == WithEnumRename(renames, modelName, field)
  {
    newRenames := renames;
    fieldType := field.fieldType;
    if fieldType.Relation? {
      var info := fieldType.info;
      fieldType := Relation(RelationInfo(SanitizeName(info.name).0, SanitizeName(info.to).0, SanitizeNames(info.toFields)));
    } else if fieldType.Enum? {
      var (sanitizedModelName, modelDbName) := SanitizeName(modelName);
      var (sanitizedFieldName, fieldDbName) := SanitizeName(field.name);
      var enumName := fieldType.enumName;
      var sanitizedEnumName: string, enumDbName: Option<string>;
      if enumName == modelName + "_" + field.name {
        if modelDbName.None? && fieldDbName.None? {
          sanitizedEnumName, enumDbName := enumName, None;
        } else {
          sanitizedEnumName, enumDbName := sanitizedModelName + "_" + sanitizedFieldName, Some(enumName);
        }
      } else {
        sanitizedEnumName, enumDbName := SanitizeName(enumName).0, SanitizeName(enumName).1;
      }
      if enumDbName.Some? {
        newRenames := newRenames[enumDbName.value := (sanitizedEnumName, Some(enumDbName.value))];
      }
      fieldType := Enum(sanitizedEnumName);
    }
  }

  /** `id_fields.iter_mut().find(..)`: the first entry equal to `name`, renamed to `to`. */
  method RenameFirstInPlace(idFields: seq<string>, name: string, to: string) returns (r: seq<string>)
    ensures r == RenameFirst(idFields, name, to)
  {
    var j := 0;
    while j < |idFields| && idFields[j] != name
      invariant 0 <= j <= |idFields|
      invariant forall t :: 0 <= t < j ==> idFields[t] != name
    {
      j := j + 1;
    }
    FirstIndexOfUnique(idFields, name, j);
    r := idFields;
    if j < |idFields| {
      r := idFields[j := to];
    }
  }

  /**
   * One iteration of the field loop: the field's new name, type and database
   * names, the renamed `id_fields` entry and the enum rename recorded.
   */
  method SanitizeFieldInPlace(modelName: string, field: Field, idFields: seq<string>, renames: Renames)
    returns (newField: Field, newIdFields: seq<string>, newRenames: Renames)
    ensures newField == SanitizedField(modelName, field)
    ensures newIdFields == RenameFirst(idFields, field.name, SanitizeName(field.name).0)
    ensures newRenames == WithEnumRename(renames, modelName, field)
  {
    var (sanitizedFieldName, fieldDbName) := SanitizeName(field.name);
    var fieldType;
    fieldType, newRenames := SanitizeFieldTypeInPlace(modelName, field, renames);
    newIdFields := RenameFirstInPlace(idFields, field.name, sanitizedFieldName);
    var databaseNames := field.databaseNames;
    if databaseNames == [] {
      databaseNames := match fieldDbName case Some(db) => [db] case None => [];
    }
    newField := field.(name := sanitizedFieldName, fieldType := fieldType, databaseNames := databaseNames);
  }

  /** One field iteration advances each part of the field loop's state by one field. */
  lemma FieldLoopStep(m: Model, acc: Renames, k: nat)
    requires k < |m.fields|
    ensures IdFieldsAfter(m, k + 1) == RenameFirst(IdFieldsAfter(m, k), m.fields[k].name, SanitizeName(m.fields[k].name).0)
    ensures FieldRenames(acc, m, k + 1) == WithEnumRename(FieldRenames(acc, m, k), m.name, m.fields[k])
    ensures SanitizedFields(m.name, m.fields[..k + 1]) == SanitizedFields(m.name, m.fields[..k]) + [SanitizedField(m.name, m.fields[k])]
  {
    assert m.fields[..k + 1][..k] == m.fields[..k];
  }

  /** The field loop of one model: fields, `id_fields` and enum renames. */
  method SanitizeFieldsInPlace(model: Model, renames: Renames)
    returns (fields: seq<Field>, idFields: seq<string>, newRenames: Renames)
    ensures fields == SanitizedFields(model.name, model.fields)
    ensures idFields == IdFieldsAfter(model, |model.fields|)
    ensures newRenames == FieldRenames(renames, model, |model.fields|)
  {
    newRenames := renames;
    fields := [];
    idFields := model.idFields;
    var k := 0;
    while k < |model.fields|
      invariant 0 <= k <= |model.fields|
      invariant fields == SanitizedFields(model.name, model.fields[..k])
      invariant idFields == IdFieldsAfter(model, k)
      invariant newRenames == FieldRenames(renames, model, k)
    {
      var newField;
      newField, idFields, newRenames := SanitizeFieldInPlace(model.name, model.fields[k], idFields, newRenames);
      FieldLoopStep(model, renames, k);
      fields := fields + [newField];
      k := k + 1;
    }
    assert model.fields[..k] == model.fields;
  }

  /** The index loop of one model: every index field list is sanitised. */
  method SanitizeIndexesInPlace(model: Model) returns (indices: seq<IndexDefinition>)
    ensures |indices| == |model.indices|
    ensures forall j :: 0 <= j < |indices| ==> indices[j] == SanitizedIndex(model.indices[j])
  {
    indices := model.indices;
    var x := 0;
    while x < |indices|
      invariant 0 <= x <= |indices| == |model.indices|
      invariant forall j :: 0 <= j < x ==> indices[j] == SanitizedIndex(model.indices[j])
      invariant forall j :: x <= j < |indices| ==> indices[j] == model.indices[j]
    {
      indices := indices[x := indices[x].(fields := SanitizeNames(indices[x].fields))];
      x := x + 1;
    }
  }

  /** One iteration of the model loop: its fields, then its indexes, then its own name. */
  method SanitizeModelInPlace(model: Model, renames: Renames) returns (newModel: Model, newRenames: Renames)
    ensures newModel == SanitizedModel(model)
    ensures newRenames == FieldRenames(renames, model, |model.fields|)
  {
    var (sanitizedModelName, modelDbName) := SanitizeName(model.name);
    var fields, idFields;
    fields, idFields, newRenames := SanitizeFieldsInPlace(model, renames);
    var indices := SanitizeIndexesInPlace(model);
    assert fields == SanitizedModel(model).fields;
    assert indices == SanitizedModel(model).indices;
    newModel := model.(name := sanitizedModelName, databaseName := modelDbName,
                       fields := fields, idFields := idFields, indices := indices);
  }

  /** The model loop: every model in turn, collecting the enum renames. */
  method SanitizeModelsInPlace(dm: Datamodel) returns (models: seq<Model>, renames: Renames)
    ensures |models| == |dm.models|
    ensures forall j :: 0 <= j < |models| ==> models[j] == SanitizedModel(dm.models[j])
    ensures renames == ModelRenames(dm.models, |dm.models|)
  {
    renames := map[];
    models := dm.models;
    var i := 0;
    while i < |models|
      invariant 0 <= i <= |models| == |dm.models|
      invariant forall j :: 0 <= j < i ==> models[j] == SanitizedModel(dm.models[j])
      invariant forall j :: i <= j < |models| ==> models[j] == dm.models[j]
      invariant renames == ModelRenames(dm.models, i)
    {
      var newModel;
      newModel, renames := SanitizeModelInPlace(models[i], renames);
      models := models[i := newModel];
      i := i + 1;
    }
  }

  /** The enum loop: each enum takes its recorded rename, or is sanitised on its own. */
  method SanitizeEnumsInPlace(dm: Datamodel, renames: Renames) returns (enums: seq<EnumDef>)
    ensures |enums| == |dm.enums|
    ensures forall j :: 0 <= j < |enums| ==> enums[j] == SanitizedEnum(renames, dm.enums[j])
  {
    enums := dm.enums;
    var e := 0;
    while e < |enums|
      invariant 0 <= e <= |enums| == |dm.enums|
      invariant forall j :: 0 <= j < e ==> enums[j] == SanitizedEnum(renames, dm.enums[j])
      invariant forall j :: e <= j < |enums| ==> enums[j] == dm.enums[j]
    {
      var enm := enums[e];
      if enm.name in renames {
        var (sanitizedEnumName, enumDbName) := renames[enm.name];
        enums := enums[e := enm.(name := sanitizedEnumName, databaseName := enumDbName)];
      } else {
        var (sanitizedEnumName, enumDbName) := SanitizeName(enm.name);
        enums := enums[e := enm.(name := sanitizedEnumName, databaseName := enumDbName)];
      }
      e := e + 1;
    }
  }

  /** `sanitize_datamodel_names`: every model in turn, then every enum. */
  method SanitizeDatamodel(dm: Datamodel) returns (r: Datamodel)
    ensures r == SanitizedDatamodel(dm)
  {
    var models, renames := SanitizeModelsInPlace(dm);
    var enums := SanitizeEnumsInPlace(dm, renames);
    r := Datamodel(models, enums);
  }
}
