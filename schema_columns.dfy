/**
 * Column types and column defaults of the SQL schema calculator: how a
 * datamodel field's scalar type and arity become a column type, and the
 * default value text a new column gets in a migration.
 */
module SchemaColumns {
  import opened Wrappers
  import opened Dml
  import opened SqlSchema
  import opened DatamodelHelpers

  /** The SQL family of the connected database; only enum columns depend on it. */
  datatype SqlFamily = Postgres | Mysql | Sqlite

  // ---------------------------------------------------------------------------
  // Column types
  // ---------------------------------------------------------------------------

  /** `column_arity`. */
  function ColumnArityOf(f: Field): (r: ColumnArity)
    ensures r == RequiredColumn <==> f.arity == Required
    ensures r == ListColumn <==> f.arity == List
    ensures r == NullableColumn <==> f.arity == Optional
  {
    match f.arity
    case Required => RequiredColumn
    case List => ListColumn
    case Optional => NullableColumn
  }

  /** Fields `scalar_type_for_field` accepts: scalars and enums. */
  predicate IsScalarField(f: Field) {
    f.fieldType.Base? || f.fieldType.Enum?
  }

  /** `scalar_type_for_field`: an enum is stored as a string. */
  function ScalarTypeForField(f: Field): (r: ScalarType)
    requires IsScalarField(f)
    ensures f.fieldType.Base? ==> r == f.fieldType.scalar
    ensures f.fieldType.Enum? ==> r == StringType
  {
    if f.fieldType.Base? then f.fieldType.scalar else StringType
  }

  /** `column_type_for_scalar_type`; decimals are not implemented. */
  function ColumnTypeForScalar(s: ScalarType, arity: ColumnArity): (r: ColumnType)
    requires s != DecimalType
    ensures r.arity == arity
    ensures r.family == IntColumn <==> s == IntType
    ensures r.family == FloatColumn <==> s == FloatType
    ensures r.family == BooleanColumn <==> s == BooleanType
    ensures r.family == StringColumn <==> s == StringType
    ensures r.family == DateTimeColumn <==> s == DateTimeType
  {
    match s
    case IntType => ColumnType(IntColumn, arity)
    case FloatType => ColumnType(FloatColumn, arity)
    case BooleanType => ColumnType(BooleanColumn, arity)
    case StringType => ColumnType(StringColumn, arity)
    case DateTimeType => ColumnType(DateTimeColumn, arity)
  }

  /** Fields `column_type` accepts without panicking. */
  predicate HasColumnType(f: Field) {
    IsScalarField(f) && ScalarTypeForField(f) != DecimalType
  }

  /** `column_type`: the field's scalar type at the field's arity. */
  function ColumnTypeOf(f: Field): (r: ColumnType)
    requires HasColumnType(f)
    ensures r.arity == ColumnArityOf(f)
    ensures f.fieldType.Enum? ==> r.family == StringColumn
    ensures r == ColumnTypeForScalar(ScalarTypeForField(f), ColumnArityOf(f))
  {
    ColumnTypeForScalar(ScalarTypeForField(f), ColumnArityOf(f))
  }

  /** `enum_column_type`: a native enum on Postgres and MySQL, a string elsewhere. */
  function EnumColumnType(f: Field, family: SqlFamily, enumDbName: string): (r: ColumnType)
    requires f.fieldType.Enum?
    ensures r.arity == ColumnArityOf(f)
    ensures family != Sqlite ==> r.family == EnumColumn(enumDbName)
    ensures family == Sqlite ==> r.family == StringColumn
  {
    match family
    case Postgres => ColumnType(EnumColumn(enumDbName), ColumnArityOf(f))
    case Mysql => ColumnType(EnumColumn(enumDbName), ColumnArityOf(f))
    case Sqlite => ColumnTypeOf(f)
  }

  // ---------------------------------------------------------------------------
  // Decimal text of integers (`format!("{}", i)`)
  // ---------------------------------------------------------------------------

  function DigitChar(d: nat): (c: char)
    requires d < 10
    ensures '0' <= c <= '9'
  {
    ['0', '1', '2', '3', '4', '5', '6', '7', '8', '9'][d]
  }

  function DigitValue(c: char): nat
    requires '0' <= c <= '9'
  {
    (c as int - '0' as int) as nat
  }

  lemma DigitRoundTrip(d: nat)
    requires d < 10
    ensures DigitValue(DigitChar(d)) == d
  {
  }

  predicate AllDigits(s: string) {
    forall i :: 0 <= i < |s| ==> '0' <= s[i] <= '9'
  }

  function NatText(n: nat): (r: string)
    ensures |r| > 0 && AllDigits(r)
    ensures r[0] == '0' ==> n == 0
  {
    if n < 10 then [DigitChar(n)] else NatText(n / 10) + [DigitChar(n % 10)]
  }

  /** The value of a string of decimal digits. */
  function DigitsValue(s: string): nat
    requires AllDigits(s)
  {
    if s == [] then 0 else 10 * DigitsValue(s[..|s| - 1]) + DigitValue(s[|s| - 1])
  }

  /** Reading the digits back gives the number. */
  lemma {:induction false} NatTextRoundTrip(n: nat)
    ensures DigitsValue(NatText(n)) == n
  {
    var s := NatText(n);
    DigitRoundTrip(n % 10);
    if n >= 10 {
      assert s[..|s| - 1] == NatText(n / 10);
      NatTextRoundTrip(n / 10);
    }
  }

  /** The decimal text of an integer: a minus sign for negative values, no leading zeros. */
  function IntText(i: int): (r: string)
    ensures i >= 0 ==> r == NatText(i)
    ensures i < 0 ==> r == ['-'] + NatText(-i)
  {
    if i < 0 then ['-'] + NatText(-i) else NatText(i)
  }

  /** Parse a decimal text with an optional leading minus sign. */
  function ParseIntText(s: string): Option<int> {
    if s != [] && s[0] == '-' && s[1..] != [] && AllDigits(s[1..]) then Some(-(DigitsValue(s[1..]) as int))
    else if s != [] && AllDigits(s) then Some(DigitsValue(s) as int)
    else None
  }

  /** The text of an integer default parses back to the integer. */
  lemma IntTextRoundTrip(i: int)
    ensures ParseIntText(IntText(i)) == Some(i)
  {
    if i < 0 {
      var n: nat := -i;
      assert IntText(i) == ['-'] + NatText(n);
      NegativeTextRoundTrip(n);
    } else {
      var n: nat := i;
      assert IntText(i) == NatText(n);
      NonNegativeTextRoundTrip(n);
    }
  }

  lemma NonNegativeTextRoundTrip(n: nat)
    ensures ParseIntText(NatText(n)) == Some(n as int)
  {
    var t := NatText(n);
    assert '0' <= t[0] <= '9';
    NatTextRoundTrip(n);
  }

  lemma NegativeTextRoundTrip(n: nat)
    requires n > 0
    ensures ParseIntText(['-'] + NatText(n)) == Some(-(n as int))
  {
    var t := NatText(n);
    var s := ['-'] + t;
    assert s[1..] == t;
    NatTextRoundTrip(n);
  }

  // ---------------------------------------------------------------------------
  // Migration values
  // ---------------------------------------------------------------------------

  /** The text `chrono` prints for the Unix epoch in UTC. */
  const EpochText: string := "1970-01-01 00:00:00 UTC"

  /** Field types `default_migration_value` handles: every scalar, and an enum that exists and has a value. */
  predicate HasTypeDefault(dm: Datamodel, t: FieldType) {
    t.Base? || (t.Enum? && FindEnum(dm, t.enumName).Some? && FindEnum(dm, t.enumName).value.values != [])
  }

  /** `default_migration_value`: the zero value of the type, or an enum's first value. */
  function DefaultMigrationValue(dm: Datamodel, t: FieldType): (r: ScalarValue)
    requires HasTypeDefault(dm, t)
    ensures t == Base(BooleanType) ==> r == BooleanValue(false)
    ensures t == Base(IntType) ==> r == IntValue(0)
    ensures t == Base(FloatType) ==> r == FloatValue("0")
    ensures t == Base(StringType) ==> r == StringValue("")
    ensures t == Base(DecimalType) ==> r == DecimalValue("0")
    ensures t == Base(DateTimeType) ==> r == DateTimeValue(EpochText)
    ensures t.Enum? ==> exists e :: e in dm.enums && e.name == t.enumName && e.values != [] && r == StringValue(e.values[0])
  {
    match t
    case Base(s) =>
      (match s
       case BooleanType => BooleanValue(false)
       case IntType => IntValue(0)
       case FloatType => FloatValue("0")
       case StringType => StringValue("")
       case DecimalType => DecimalValue("0")
       case DateTimeType => DateTimeValue(EpochText))
    case Enum(name) => StringValue(FindEnum(dm, name).value.values[0])
  }

  /** A date-time's text ends in the four characters of " UTC", which are cut off. */
  predicate HasMigrationText(v: ScalarValue) {
    v.DateTimeValue? ==> |v.ttext| >= 4
  }

  /** The text of a default value as it appears in the migration. */
  function MigrationText(v: ScalarValue): (r: string)
    requires HasMigrationText(v)
    ensures v == BooleanValue(true) ==> r == "true"
    ensures v == BooleanValue(false) ==> r == "false"
    ensures v.IntValue? ==> ParseIntText(r) == Some(v.i)
    ensures v.StringValue? ==> r == v.s
    ensures v.ConstantLiteral? ==> r == v.literal
    ensures v.DateTimeValue? ==> r + v.ttext[|v.ttext| - 4..] == v.ttext
  {
    match v
    case BooleanValue(b) => if b then "true" else "false"
    case IntValue(i) => IntTextRoundTrip(i); IntText(i)
    case FloatValue(t) => t
    case DecimalValue(t) => t
    case StringValue(s) => s
    case DateTimeValue(t) => t[..|t| - 4]
    case ConstantLiteral(l) => l
  }

  /** The field's default is computed from its type rather than taken from the schema. */
  predicate UsesTypeDefault(f: Field) {
    (f.defaultValue.Some? && f.defaultValue.value.Expression?) || (f.defaultValue.None? && f.arity == Required)
  }

  /** What `migration_value_new` needs not to panic. */
  predicate HasMigrationValue(dm: Datamodel, f: Field) {
    && (UsesTypeDefault(f) ==> HasTypeDefault(dm, f.fieldType))
    && (f.defaultValue.Some? && f.defaultValue.value.Single? ==> HasMigrationText(f.defaultValue.value.value))
  }

  /**
   * `migration_value_new`: the default text of the field's column. Id columns
   * and optional or list columns without a default have none; a required
   * column without a default, or one with a generated default, gets the
   * default of its type.
   */
  function MigrationValueNew(dm: Datamodel, f: Field): (r: Option<string>)
    requires HasMigrationValue(dm, f)
    ensures r.None? <==> f.isId || (f.defaultValue.None? && f.arity != Required)
    ensures r.Some? && f.defaultValue.Some? && f.defaultValue.value.Single? ==>
      r.value == MigrationText(f.defaultValue.value.value)
    ensures r.Some? && UsesTypeDefault(f) ==>
      HasMigrationText(DefaultMigrationValue(dm, f.fieldType))
      && r.value == MigrationText(DefaultMigrationValue(dm, f.fieldType))
  {
    if f.defaultValue.None? && f.arity != Required then None
    else
      var value := if f.defaultValue.Some? && f.defaultValue.value.Single? then f.defaultValue.value.value
                   else DefaultMigrationValue(dm, f.fieldType);
      var text := MigrationText(value);
      if f.isId then None else Some(text)
  }

  /** A required integer column without a default migrates with `0`. */
  lemma RequiredIntDefaultsToZero(dm: Datamodel, f: Field)
    requires f.fieldType == Base(IntType) && f.arity == Required && f.defaultValue.None? && !f.isId
    ensures MigrationValueNew(dm, f) == Some("0")
  {
  }

  /** A required enum column without a default migrates with the enum's first value. */
  lemma RequiredEnumDefaultsToFirstValue(dm: Datamodel, f: Field, e: EnumDef)
    requires f.fieldType.Enum? && f.arity == Required && f.defaultValue.None? && !f.isId
    requires FindEnum(dm, f.fieldType.enumName) == Some(e) && e.values != []
    ensures MigrationValueNew(dm, f) == Some(e.values[0])
  {
  }

  /** A required date-time column without a default migrates with the epoch, without the zone. */
  lemma RequiredDateTimeDefaultsToEpoch(dm: Datamodel, f: Field)
    requires f.fieldType == Base(DateTimeType) && f.arity == Required && f.defaultValue.None? && !f.isId
    ensures MigrationValueNew(dm, f) == Some("1970-01-01 00:00:00")
  {
    assert EpochText[..|EpochText| - 4] == "1970-01-01 00:00:00";
  }
}
