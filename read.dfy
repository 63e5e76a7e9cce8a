/**
 * Reading records (database/operations/read.rs): how a single-record lookup
 * maps "not found" errors to an absent record, which query strategy the
 * related-records read picks, and how each returned row is reshaped into a
 * record carrying its parent identifier.  The database calls themselves are
 * not modelled: their results are inputs.
 */
module Read {
  import opened Wrappers
  import opened Prisma

  datatype SqlError =
    | RecordNotFoundForWhere(info: string)
    | RecordDoesNotExist
    | ColumnDoesNotExist
    | OtherSqlError(message: string)

  /** A record: its values in column order and, for related reads, its parent. */
  datatype Record = Record(values: seq<PrismaValue>, parentId: Option<RecordIdentifier>)

  datatype SingleRecord = SingleRecord(record: Record, fieldNames: seq<string>)

  datatype ManyRecords = ManyRecords(records: seq<Record>, fieldNames: seq<string>)

  // ---------------------------------------------------------------------------
  // get_single_record
  // ---------------------------------------------------------------------------

  predicate IsNotFound(e: SqlError) {
    e.RecordNotFoundForWhere? || e.RecordDoesNotExist?
  }

  /**
   * `get_single_record` after the lookup: the two not-found errors become
   * `Ok(None)`, every other error is passed on, and a row becomes a record
   * labelled with the selected fields' database names.
   */
  function SingleRecordResult(found: Result<seq<PrismaValue>, SqlError>, fieldNames: seq<string>)
    : (r: Result<Option<SingleRecord>, SqlError>)
    ensures r.Ok? && r.value.None? <==> found.Err? && IsNotFound(found.error)
    ensures r.Err? <==> found.Err? && !IsNotFound(found.error)
    ensures r.Err? ==> r.error == found.error
    ensures found.Ok? ==> r == Ok(Some(SingleRecord(Record(found.value, None), fieldNames)))
  {
    match found
    case Ok(row) => Ok(Some(SingleRecord(Record(row, None), fieldNames)))
    case Err(RecordNotFoundForWhere(_)) => Ok(None)
    case Err(RecordDoesNotExist) => Ok(None)
    case Err(e) => Err(e)
  }

  // ---------------------------------------------------------------------------
  // get_related_records: strategy
  // ---------------------------------------------------------------------------

  datatype Strategy = DirectSelect | PaginatedBuilder | UnpaginatedBuilder

  /** `can_skip_joins`. */
  predicate CanSkipJoins(inlinedInChild: bool, withPagination: bool) {
    inlinedInChild && !withPagination
  }

  /** Which query the related-records read sends. */
  function ChooseStrategy(inlinedInChild: bool, withPagination: bool): (r: Strategy)
    ensures r == DirectSelect <==> inlinedInChild && !withPagination
    ensures r == PaginatedBuilder <==> withPagination
    ensures r == UnpaginatedBuilder <==> !inlinedInChild && !withPagination
  {
    if CanSkipJoins(inlinedInChild, withPagination) then DirectSelect
    else if withPagination then PaginatedBuilder
    else UnpaginatedBuilder
  }

  /** The trailing row number is dropped only for paginated row-number reads. */
  predicate DropsRowNumber(withPagination: bool, builderUsesRowNumber: bool) {
    withPagination && builderUsesRowNumber
  }

  // ---------------------------------------------------------------------------
  // get_related_records: reshaping a row
  // ---------------------------------------------------------------------------

  /** A linking field: a scalar field, or a relation field backed by several columns. */
  datatype LinkingField = ScalarLink(column: DataSourceField) | RelationLink(columns: seq<DataSourceField>)

  /** The columns of the linking fields, in field order. */
  function LinkColumns(fields: seq<LinkingField>): (r: seq<DataSourceField>)
  {
    if fields == [] then []
    else
      var f := fields[|fields| - 1];
      LinkColumns(fields[..|fields| - 1]) + FieldColumns(f)
  }

  /** The columns of one linking field: its column, or the columns of its composite. */
  function FieldColumns(f: LinkingField): seq<DataSourceField> {
    if f.ScalarLink? then [f.column] else f.columns
  }

  /** `Vec::pop` that ignores an empty vector. */
  function DropLast<T>(xs: seq<T>): seq<T> {
    if xs == [] then [] else xs[..|xs| - 1]
  }

  function Reversed<T>(xs: seq<T>): (r: seq<T>)
    ensures |r| == |xs|
    ensures forall i :: 0 <= i < |xs| ==> r[i] == xs[|xs| - 1 - i]
  {
    seq(|xs|, i requires 0 <= i < |xs| => xs[|xs| - 1 - i])
  }

  /** The first `c` pops: label `k` goes with the `k`-th value from the end. */
  function Popped(vs: seq<PrismaValue>, labels: seq<DataSourceField>, c: nat): (r: seq<(DataSourceField, PrismaValue)>)
    requires c <= |labels| && c <= |vs|
    ensures |r| == c
  {
    seq(c, k requires 0 <= k < c => (labels[k], vs[|vs| - 1 - k]))
  }

  /**
   * The parent identifier's pairs: the last `n` values in row order, the
   * `j`-th labelled with the linking column `n - 1 - j`.
   */
  function ParentPairs(vs: seq<PrismaValue>, labels: seq<DataSourceField>, n: nat): (r: seq<(DataSourceField, PrismaValue)>)
    requires n <= |labels| && n <= |vs|
    ensures |r| == n
  {
    seq(n, j requires 0 <= j < n => (labels[n - 1 - j], vs[|vs| - n + j]))
  }

  /** Reversing the pops gives the parent identifier's pairs. */
  lemma ReversedPopped(vs: seq<PrismaValue>, labels: seq<DataSourceField>, n: nat)
    requires n <= |labels| && n <= |vs|
    ensures Reversed(Popped(vs, labels, n)) == ParentPairs(vs, labels, n)
  {
    var popped := Popped(vs, labels, n);
    forall j | 0 <= j < n
      ensures Reversed(popped)[j] == ParentPairs(vs, labels, n)[j]
    {
      assert Reversed(popped)[j] == popped[n - 1 - j];
    }
  }

  /** The values of the parent identifier are the last `n` values of the row. */
  lemma ParentPairsValues(vs: seq<PrismaValue>, labels: seq<DataSourceField>, n: nat)
    requires n <= |labels| && n <= |vs|
    ensures Values(RecordIdentifier(ParentPairs(vs, labels, n))) == vs[|vs| - n..]
  {
    var pairs := ParentPairs(vs, labels, n);
    forall j | 0 <= j < n
      ensures Values(RecordIdentifier(pairs))[j] == vs[|vs| - n..][j]
    {
      assert pairs[j].1 == vs[|vs| - n + j];
    }
  }

  /**
   * The reshaped record for one row, or `ColumnDoesNotExist` when the row
   * runs out of values before every linking column has one.
   */
  function Reshaped(row: seq<PrismaValue>, fields: seq<LinkingField>, dropRowNumber: bool): Result<Record, SqlError> {
    var vs := Trimmed(row, dropRowNumber);
    var labels := LinkColumns(fields);
    var n := |labels|;
    if |vs| < n then Err(ColumnDoesNotExist)
    else
      var parentIds := ParentPairs(vs, labels, n);
      var rest := DropLast(vs[..|vs| - n]);
      Ok(Record(rest + Values(RecordIdentifier(parentIds)), Some(RecordIdentifier(parentIds))))
  }

  /**
   * Pop the values of one linking field from the end of `row`, pairing each
   * with its column.
   */
  method PopField(row: seq<PrismaValue>, parentIds: seq<(DataSourceField, PrismaValue)>, columns: seq<DataSourceField>)
    returns (r: Result<(seq<PrismaValue>, seq<(DataSourceField, PrismaValue)>), SqlError>)
    ensures |row| < |columns| <==> r.Err?
    ensures r.Err? ==> r.error == ColumnDoesNotExist
    ensures r.Ok? ==>
      && r.value.0 == row[..|row| - |columns|]
      && r.value.1 == parentIds + PoppedFrom(row, columns)
  {
    var rest := row;
    var ids := parentIds;
    var i := 0;
    while i < |columns|
      invariant 0 <= i <= |columns| && i <= |row|
      invariant rest == row[..|row| - i]
      invariant ids == parentIds + PoppedFrom(row, columns[..i])
    {
      if rest == [] {
        return Err(ColumnDoesNotExist);
      }
      var val := rest[|rest| - 1];
      assert PoppedFrom(row, columns[..i + 1]) == PoppedFrom(row, columns[..i]) + [(columns[i], val)];
      rest := rest[..|rest| - 1];
      ids := ids + [(columns[i], val)];
      i := i + 1;
    }
    assert columns[..i] == columns;
    return Ok((rest, ids));
  }

  /** The next `|columns|` values popped from the end of `row`, each paired with its column. */
  function PoppedFrom(row: seq<PrismaValue>, columns: seq<DataSourceField>): (r: seq<(DataSourceField, PrismaValue)>)
    requires |columns| <= |row|
    ensures |r| == |columns|
  {
    seq(|columns|, k requires 0 <= k < |columns| => (columns[k], row[|row| - 1 - k]))
  }

  lemma LinkColumnsSnoc(fields: seq<LinkingField>, i: nat)
    requires i < |fields|
    ensures LinkColumns(fields[..i + 1]) ==
      LinkColumns(fields[..i]) + FieldColumns(fields[i])
  {
    assert fields[..i + 1][..i] == fields[..i];
  }

  /** The columns of field `i` follow, among all linking columns, those of the fields before it. */
  lemma LinkColumnsStep(fields: seq<LinkingField>, i: nat, c: nat)
    requires i < |fields|
    requires c == |LinkColumns(fields[..i])| && c <= |LinkColumns(fields)| && LinkColumns(fields[..i]) == LinkColumns(fields)[..c]
    ensures var columns := FieldColumns(fields[i]);
      && c + |columns| <= |LinkColumns(fields)|
      && LinkColumns(fields)[c..c + |columns|] == columns
      && LinkColumns(fields[..i + 1]) == LinkColumns(fields)[..c + |columns|]
      && |LinkColumns(fields[..i + 1])| == c + |columns|
  {
    LinkColumnsSnoc(fields, i);
    LinkColumnsPrefix(fields, i + 1);
    var labels := LinkColumns(fields);
    var columns := FieldColumns(fields[i]);
    assert labels[..c + |columns|][c..] == columns;
  }

  /**
   * Popping the next `|columns|` values from what is left of `vs` after `c`
   * pops leaves what is left after `c + |columns|` pops, and extends the
   * pairs popped so far.
   */
  lemma PoppedExtend(vs: seq<PrismaValue>, labels: seq<DataSourceField>, c: nat, columns: seq<DataSourceField>,
                     values: seq<PrismaValue>, parentIds: seq<(DataSourceField, PrismaValue)>,
                     values': seq<PrismaValue>, parentIds': seq<(DataSourceField, PrismaValue)>)
    requires c + |columns| <= |vs| && c + |columns| <= |labels|
    requires labels[c..c + |columns|] == columns
    requires values == vs[..|vs| - c] && parentIds == Popped(vs, labels, c)
    requires values' == values[..|values| - |columns|] && parentIds' == parentIds + PoppedFrom(values, columns)
    ensures values' == vs[..|vs| - (c + |columns|)]
    ensures parentIds' == Popped(vs, labels, c + |columns|)
  {
    forall k | 0 <= k < c + |columns|
      ensures parentIds'[k] == Popped(vs, labels, c + |columns|)[k]
    {
      if k >= c {
        assert labels[k] == labels[c..c + |columns|][k - c];
      }
    }
  }

  /** The state of `pop_linking_fields` after the first `i` fields: what is left of `vs` and the pairs popped. */
  ghost predicate PopState(vs: seq<PrismaValue>, fields: seq<LinkingField>, i: nat, c: nat,
                           values: seq<PrismaValue>, parentIds: seq<(DataSourceField, PrismaValue)>)
    requires i <= |fields|
  {
    && c == |LinkColumns(fields[..i])| && c <= |vs| && c <= |LinkColumns(fields)|
    && LinkColumns(fields[..i]) == LinkColumns(fields)[..c]
    && values == vs[..|vs| - c]
    && parentIds == Popped(vs, LinkColumns(fields), c)
  }

  /** One field of `pop_linking_fields`: popping its columns fails iff too few values are left, else it moves the state on. */
  lemma PopLinkingStep(vs: seq<PrismaValue>, fields: seq<LinkingField>, i: nat, c: nat,
                       values: seq<PrismaValue>, parentIds: seq<(DataSourceField, PrismaValue)>,
                       popped: Result<(seq<PrismaValue>, seq<(DataSourceField, PrismaValue)>), SqlError>)
    requires i < |fields| && PopState(vs, fields, i, c, values, parentIds)
    requires |values| < |FieldColumns(fields[i])| <==> popped.Err?
    requires popped.Ok? ==>
      && popped.value.0 == values[..|values| - |FieldColumns(fields[i])|]
      && popped.value.1 == parentIds + PoppedFrom(values, FieldColumns(fields[i]))
    ensures popped.Err? ==> |vs| < |LinkColumns(fields)|
    ensures popped.Ok? ==> PopState(vs, fields, i + 1, c + |FieldColumns(fields[i])|, popped.value.0, popped.value.1)
  {
    var columns := FieldColumns(fields[i]);
    LinkColumnsStep(fields, i, c);
    if popped.Ok? {
      PoppedExtend(vs, LinkColumns(fields), c, columns, values, parentIds, popped.value.0, popped.value.1);
    }
  }

  /** Once every field is processed, all linking columns have been popped. */
  lemma PopStateDone(vs: seq<PrismaValue>, fields: seq<LinkingField>, c: nat,
                     values: seq<PrismaValue>, parentIds: seq<(DataSourceField, PrismaValue)>)
    requires PopState(vs, fields, |fields|, c, values, parentIds)
    ensures c == |LinkColumns(fields)| <= |vs|
    ensures values == vs[..|vs| - c] && parentIds == Popped(vs, LinkColumns(fields), c)
  {
    assert fields[..|fields|] == fields;
  }

  /** Pop one value per linking column from the end of `vs`, field by field. */
  method PopLinkingFields(vs: seq<PrismaValue>, fields: seq<LinkingField>)
    returns (r: Result<(seq<PrismaValue>, seq<(DataSourceField, PrismaValue)>), SqlError>)
    ensures var n := |LinkColumns(fields)|;
      && (|vs| < n <==> r.Err?)
      && (r.Err? ==> r.error == ColumnDoesNotExist)
      && (r.Ok? ==> r.value.0 == vs[..|vs| - n] && r.value.1 == Popped(vs, LinkColumns(fields), n))
  {
    var values := vs;
    var parentIds: seq<(DataSourceField, PrismaValue)> := [];
    ghost var c: nat := 0;
    var i := 0;
    while i < |fields|
      invariant 0 <= i <= |fields|
      invariant PopState(vs, fields, i, c, values, parentIds)
    {
      var columns := FieldColumns(fields[i]);
      var popped := PopField(values, parentIds, columns);
      PopLinkingStep(vs, fields, i, c, values, parentIds, popped);
      if popped.Err? {
        return Err(popped.error);
      }
      values, parentIds := popped.value.0, popped.value.1;
      c := c + |columns|;
      i := i + 1;
    }
    PopStateDone(vs, fields, c, values, parentIds);
    return Ok((values, parentIds));
  }

  /**
   * The row closure of `get_related_records`: drop the row number when asked
   * to, pop one value per linking column, reverse the collected pairs, drop
   * the relation id, append the parent values to the record and set its
   * parent identifier.
   */
  method ReshapeRow(row: seq<PrismaValue>, fields: seq<LinkingField>, dropRowNumber: bool)
    returns (r: Result<Record, SqlError>)
    ensures r == Reshaped(row, fields, dropRowNumber)
  {
    var values := row;
    if dropRowNumber && values != [] {
      values := values[..|values| - 1];
    }
    ghost var vs := values;
    assert vs == Trimmed(row, dropRowNumber);
    var popped := PopLinkingFields(values, fields);
    if popped.Err? {
      return Err(popped.error);
    }
    ghost var labels := LinkColumns(fields);
    ghost var n := |labels|;
    var parentIds := Reversed(popped.value.1);
    ReversedPopped(vs, labels, n);
    values := popped.value.0;
    if values != [] {
      values := values[..|values| - 1];
    }
    ghost var rest := values;
    values := AppendParentValues(values, parentIds);
    ReshapedOk(row, fields, dropRowNumber, rest, parentIds);
    return Ok(Record(values, Some(RecordIdentifier(parentIds))));
  }

  /** Append the values of the parent identifier's pairs, in order. */
  method AppendParentValues(values: seq<PrismaValue>, parentIds: seq<(DataSourceField, PrismaValue)>)
    returns (r: seq<PrismaValue>)
    ensures r == values + Values(RecordIdentifier(parentIds))
  {
    ghost var parentValues := Values(RecordIdentifier(parentIds));
    r := values;
    var j := 0;
    while j < |parentIds|
      invariant 0 <= j <= |parentIds|
      invariant r == values + parentValues[..j]
    {
      assert parentValues[..j + 1] == parentValues[..j] + [parentIds[j].1];
      r := r + [parentIds[j].1];
      j := j + 1;
    }
    assert parentValues[..j] == parentValues;
  }

  /** A row with enough values reshapes to its remaining values followed by the parent values. */
  lemma ReshapedOk(row: seq<PrismaValue>, fields: seq<LinkingField>, dropRowNumber: bool,
                   rest: seq<PrismaValue>, parentIds: seq<(DataSourceField, PrismaValue)>)
    requires var vs := Trimmed(row, dropRowNumber);
      var n := |LinkColumns(fields)|;
      && n <= |vs|
      && rest == DropLast(vs[..|vs| - n])
      && parentIds == ParentPairs(vs, LinkColumns(fields), n)
    ensures Reshaped(row, fields, dropRowNumber)
      == Ok(Record(rest + Values(RecordIdentifier(parentIds)), Some(RecordIdentifier(parentIds))))
  {
  }


  lemma LinkColumnsPrefix(fields: seq<LinkingField>, i: nat)
    requires i <= |fields|
    ensures |LinkColumns(fields[..i])| <= |LinkColumns(fields)|
    ensures LinkColumns(fields[..i]) == LinkColumns(fields)[..|LinkColumns(fields[..i])|]
    decreases |fields| - i
  {
    if i < |fields| {
      LinkColumnsPrefix(fields, i + 1);
      LinkColumnsSnoc(fields, i);
    } else {
      assert fields[..i] == fields;
    }
  }
  /** The row without its row number, when one is dropped. */
  function Trimmed(row: seq<PrismaValue>, dropRowNumber: bool): seq<PrismaValue> {
    if dropRowNumber then DropLast(row) else row
  }

  /**
   * Reshaping fails, with `ColumnDoesNotExist`, exactly when the row
   * (without its row number) has fewer values than there are linking columns.
   */
  lemma ReshapedFails(row: seq<PrismaValue>, fields: seq<LinkingField>, dropRowNumber: bool)
    ensures var r := Reshaped(row, fields, dropRowNumber);
      && (r.Err? <==> |Trimmed(row, dropRowNumber)| < |LinkColumns(fields)|)
      && (r.Err? ==> r.error == ColumnDoesNotExist)
  {
  }

  /**
   * The parent identifier holds the trailing values in row order, paired
   * with the linking columns in reverse order.
   */
  lemma ReshapedParentId(row: seq<PrismaValue>, fields: seq<LinkingField>, dropRowNumber: bool)
    ensures var vs := Trimmed(row, dropRowNumber);
      var labels := LinkColumns(fields);
      var n := |labels|;
      var r := Reshaped(row, fields, dropRowNumber);
      r.Ok? ==>
        && r.value.parentId.Some?
        && Values(r.value.parentId.value) == vs[|vs| - n..]
        && |r.value.parentId.value.pairs| == n
        && forall j :: 0 <= j < n ==> r.value.parentId.value.pairs[j].0 == labels[n - 1 - j]
  {
    var vs := Trimmed(row, dropRowNumber);
    var labels := LinkColumns(fields);
    var n := |labels|;
    if |vs| >= n {
      ReshapedOk(row, fields, dropRowNumber, DropLast(vs[..|vs| - n]), ParentPairs(vs, labels, n));
      ParentPairsValues(vs, labels, n);
    }
  }


  /**
   * The record's values are the row (without its row number) minus the
   * relation-id column, the one just before the parent values.
   */
  lemma ReshapedRecordValues(row: seq<PrismaValue>, fields: seq<LinkingField>, dropRowNumber: bool)
    ensures var vs := Trimmed(row, dropRowNumber);
      var n := |LinkColumns(fields)|;
      var r := Reshaped(row, fields, dropRowNumber);
      r.Ok? ==> r.value.values == (if |vs| == n then vs else vs[..|vs| - n - 1] + vs[|vs| - n..])
  {
    var vs := Trimmed(row, dropRowNumber);
    var n := |LinkColumns(fields)|;
    if |vs| >= n {
      ReshapedOk(row, fields, dropRowNumber, DropLast(vs[..|vs| - n]), ParentPairs(vs, LinkColumns(fields), n));
      ParentPairsValues(vs, LinkColumns(fields), n);
      if |vs| == n {
        assert vs[|vs| - n..] == vs;
      } else {
        assert DropLast(vs[..|vs| - n]) == vs[..|vs| - n - 1];
      }
    }
  }

  /**
   * Collecting the reshaped rows: the first failing row makes the whole read
   * fail with `ColumnDoesNotExist`; otherwise there is one record per row,
   * in order, labelled with the selected fields' database names only.
   */
  method RelatedRecords(rows: seq<seq<PrismaValue>>, fields: seq<LinkingField>, dropRowNumber: bool, fieldNames: seq<string>)
    returns (r: Result<ManyRecords, SqlError>)
    ensures r.Ok? <==> forall i :: 0 <= i < |rows| ==> Reshaped(rows[i], fields, dropRowNumber).Ok?
    ensures r.Err? ==> r.error == ColumnDoesNotExist
    ensures r.Ok? ==>
      && r.value.fieldNames == fieldNames
      && |r.value.records| == |rows|
      && forall i :: 0 <= i < |rows| ==> r.value.records[i] == Reshaped(rows[i], fields, dropRowNumber).value
  {
    var records: seq<Record> := [];
    var i := 0;
    while i < |rows|
      invariant 0 <= i <= |rows| && |records| == i
      invariant forall k :: 0 <= k < i ==> Reshaped(rows[k], fields, dropRowNumber) == Ok(records[k])
    {
      var rec := ReshapeRow(rows[i], fields, dropRowNumber);
      if rec.Err? {
        ReshapedFails(rows[i], fields, dropRowNumber);
        return Err(rec.error);
      }
      records := records + [rec.value];
      i := i + 1;
    }
    return Ok(ManyRecords(records, fieldNames));
  }
}
