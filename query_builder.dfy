/**
 * Turning record identifiers into SQL conditions (query_builder/mod.rs): one
 * column becomes an `IN` list, several columns an OR of per-record AND
 * chains, and long identifier lists are split into chunks of at most
 * `ParameterLimit` records, one query per chunk.
 */
module QueryBuilder {
  import opened Prisma
  import opened Sql

  /** Most records whose values go into one query. */
  const ParameterLimit: nat := 10000

  function Min(a: nat, b: nat): nat {
    if a <= b then a else b
  }

  /** Every identifier carries at least one value. */
  predicate AllHaveValues(records: seq<RecordIdentifier>) {
    forall id :: id in records ==> |id.pairs| >= 1
  }

  // ---------------------------------------------------------------------------
  // Conditions
  // ---------------------------------------------------------------------------

  /**
   * The fold over `columns.zip(values)` restricted to its first `n` pairs:
   * the first equality replaces `NoCondition`, each later one is ANDed on.
   */
  function AndChain(columns: seq<Column>, values: seq<PrismaValue>, n: nat): (r: ConditionTree)
    requires n <= |columns| && n <= |values|
    ensures n == 0 <==> r.NoCondition?
    ensures r.NoCondition? || r.Single? || r.And?
  {
    if n == 0 then NoCondition
    else
      var acc := AndChain(columns, values, n - 1);
      var eq := Single(ColumnEquals(columns[n - 1], values[n - 1]));
      if acc.NoCondition? then eq else And(acc, eq)
  }

  /** The condition for one identifier: `zip` stops at the shorter side. */
  function IdCondition(columns: seq<Column>, id: RecordIdentifier): ConditionTree {
    var vs := Values(id);
    AndChain(columns, vs, Min(|columns|, |vs|))
  }

  /**
   * The outer fold over the first `n` identifiers: while the accumulator is
   * `NoCondition` the next condition replaces it, afterwards it is ORed on.
   */
  function OrOfIds(columns: seq<Column>, records: seq<RecordIdentifier>, n: nat): ConditionTree
    requires n <= |records|
  {
    if n == 0 then NoCondition
    else
      var acc := OrOfIds(columns, records, n - 1);
      var cond := IdCondition(columns, records[n - 1]);
      if acc.NoCondition? then cond else Or(acc, cond)
  }

  /** The first value of each identifier, in input order. */
  function FirstValues(records: seq<RecordIdentifier>): (r: seq<PrismaValue>)
    requires AllHaveValues(records)
    ensures |r| == |records|
    ensures forall i :: 0 <= i < |records| ==> r[i] == Values(records[i])[0]
  {
    seq(|records|, i requires 0 <= i < |records| => assert records[i] in records; records[i].pairs[0].1)
  }

  /**
   * `conditions`.  In the one-column case every identifier must have a value
   * (the source unwraps the first one).
   */
  function Conditions(columns: seq<Column>, records: seq<RecordIdentifier>): (r: ConditionTree)
    requires |columns| == 1 ==> AllHaveValues(records)
    ensures |columns| == 1 ==> r == Single(InSelection(columns[0], FirstValues(records)))
    ensures |columns| != 1 && records == [] ==> r == NoCondition
  {
    if |columns| == 1 then Single(InSelection(columns[0], FirstValues(records)))
    else OrOfIds(columns, records, |records|)
  }

  /** The AND chain of an identifier lists its equalities in column order. */
  lemma {:induction false} AndChainConjuncts(columns: seq<Column>, values: seq<PrismaValue>, n: nat)
    requires n <= |columns| && n <= |values|
    ensures var cs := Conjuncts(AndChain(columns, values, n));
      |cs| == n && forall j :: 0 <= j < n ==> cs[j] == Single(ColumnEquals(columns[j], values[j]))
  {
    if n > 0 {
      AndChainConjuncts(columns, values, n - 1);
    }
  }

  /** A row satisfies an AND chain iff it holds each of the `n` column values. */
  lemma {:induction false} AndChainEval(columns: seq<Column>, values: seq<PrismaValue>, n: nat, row: SqlRow)
    requires n <= |columns| && n <= |values|
    ensures Eval(AndChain(columns, values, n), row) <==>
      forall j :: 0 <= j < n ==> columns[j] in row && row[columns[j]] == values[j]
  {
    if n > 0 {
      AndChainEval(columns, values, n - 1, row);
    }
  }

  /** The row holds the first `min(columns, values)` values of `id`. */
  predicate IdMatches(columns: seq<Column>, id: RecordIdentifier, row: SqlRow) {
    forall j :: 0 <= j < Min(|columns|, |id.pairs|) ==> columns[j] in row && row[columns[j]] == id.pairs[j].1
  }

  lemma IdConditionEval(columns: seq<Column>, id: RecordIdentifier, row: SqlRow)
    ensures Eval(IdCondition(columns, id), row) <==> IdMatches(columns, id, row)
  {
    AndChainEval(columns, Values(id), Min(|columns|, |id.pairs|), row);
  }

  /**
   * With at least one column and values in every identifier, the OR chain
   * lists one condition per identifier, in input order.
   */
  lemma {:induction false} OrOfIdsDisjuncts(columns: seq<Column>, records: seq<RecordIdentifier>, n: nat)
    requires n <= |records|
    requires |columns| >= 1 && AllHaveValues(records)
    ensures var ds := Disjuncts(OrOfIds(columns, records, n));
      |ds| == n && forall i :: 0 <= i < n ==> ds[i] == IdCondition(columns, records[i])
    ensures n > 0 ==> !OrOfIds(columns, records, n).NoCondition?
  {
    if n > 0 {
      OrOfIdsDisjuncts(columns, records, n - 1);
      assert records[n - 1] in records;
    }
  }

  lemma {:induction false} OrOfIdsEval(columns: seq<Column>, records: seq<RecordIdentifier>, n: nat, row: SqlRow)
    requires n <= |records|
    requires |columns| >= 1 && AllHaveValues(records)
    ensures n > 0 ==> (Eval(OrOfIds(columns, records, n), row) <==>
      exists i :: 0 <= i < n && IdMatches(columns, records[i], row))
  {
    if n > 0 {
      OrOfIdsEval(columns, records, n - 1, row);
      OrOfIdsDisjuncts(columns, records, n - 1);
      IdConditionEval(columns, records[n - 1], row);
      assert records[n - 1] in records;
    }
  }

  /**
   * For a non-empty identifier list a row satisfies `conditions` exactly when
   * it holds all the values of some identifier (up to the column count).
   * With several columns an empty list yields `NoCondition`, which every row
   * satisfies, while with one column it yields an empty `IN` list.
   */
  lemma ConditionsEval(columns: seq<Column>, records: seq<RecordIdentifier>, row: SqlRow)
    requires |columns| >= 1 && AllHaveValues(records)
    ensures records != [] || |columns| == 1 ==>
      (Eval(Conditions(columns, records), row) <==> exists i :: 0 <= i < |records| && IdMatches(columns, records[i], row))
    ensures records == [] ==> Eval(Conditions(columns, records), row) == (|columns| != 1)
  {
    if |columns| == 1 {
      var vs := FirstValues(records);
      if Eval(Conditions(columns, records), row) {
        var i :| 0 <= i < |vs| && vs[i] == row[columns[0]];
        assert records[i] in records;
        assert IdMatches(columns, records[i], row);
      }
      if exists i :: 0 <= i < |records| && IdMatches(columns, records[i], row) {
        var i :| 0 <= i < |records| && IdMatches(columns, records[i], row);
        assert records[i] in records;
        assert Min(|columns|, |records[i].pairs|) == 1;
        assert row[columns[0]] == vs[i];
      }
    } else {
      OrOfIdsEval(columns, records, |records|, row);
    }
  }

  /**
   * With several columns the condition is an OR with one AND chain per
   * identifier, each AND chain holding one equality per zipped column.
   */
  lemma ConditionsShape(columns: seq<Column>, records: seq<RecordIdentifier>)
    requires |columns| >= 2 && AllHaveValues(records)
    ensures var ds := Disjuncts(Conditions(columns, records));
      && |ds| == |records|
      && forall i :: 0 <= i < |records| ==>
           var n := Min(|columns|, |records[i].pairs|);
           var cs := Conjuncts(ds[i]);
           |cs| == n && forall j :: 0 <= j < n ==> cs[j] == Single(ColumnEquals(columns[j], records[i].pairs[j].1))
  {
    OrOfIdsDisjuncts(columns, records, |records|);
    forall i | 0 <= i < |records|
      ensures var n := Min(|columns|, |records[i].pairs|);
        var cs := Conjuncts(IdCondition(columns, records[i]));
        |cs| == n && forall j :: 0 <= j < n ==> cs[j] == Single(ColumnEquals(columns[j], records[i].pairs[j].1))
    {
      AndChainConjuncts(columns, Values(records[i]), Min(|columns|, |records[i].pairs|));
    }
  }

  // ---------------------------------------------------------------------------
  // Chunking
  // ---------------------------------------------------------------------------

  /** `slice.chunks(size)`: consecutive pieces of `size` elements, the last one shorter. */
  function Chunks<T>(xs: seq<T>, size: nat): (r: seq<seq<T>>)
    requires size > 0
    ensures forall i :: 0 <= i < |r| ==> 0 < |r[i]| <= size
    ensures forall i, j :: 0 <= i < |r| && 0 <= j < |r[i]| ==> r[i][j] in xs
    decreases |xs|
  {
    if xs == [] then []
    else if |xs| <= size then [xs]
    else
      var rest := Chunks(xs[size..], size);
      assert forall i, j :: 0 <= i < |rest| && 0 <= j < |rest[i]| ==> rest[i][j] in xs;
      [xs[..size]] + rest
  }

  function Concat<T>(xss: seq<seq<T>>): seq<T> {
    if xss == [] then [] else xss[0] + Concat(xss[1..])
  }

  /** The chunks put back together are the input. */
  lemma {:induction false} ChunksConcat<T>(xs: seq<T>, size: nat)
    requires size > 0
    ensures Concat(Chunks(xs, size)) == xs
    decreases |xs|
  {
    if xs != [] && |xs| > size {
      ChunksConcat(xs[size..], size);
      var r := Chunks(xs, size);
      assert r[1..] == Chunks(xs[size..], size);
    }
  }

  /** There are `ceil(|xs| / size)` chunks, and all but the last are full. */
  lemma {:induction false} ChunksCount<T>(xs: seq<T>, size: nat)
    requires size > 0
    ensures |Chunks(xs, size)| == (|xs| + size - 1) / size
    ensures forall i :: 0 <= i < |Chunks(xs, size)| - 1 ==> |Chunks(xs, size)[i]| == size
    decreases |xs|
  {
    if xs != [] && |xs| > size {
      ChunksCount(xs[size..], size);
      var r := Chunks(xs, size);
      assert r[1..] == Chunks(xs[size..], size);
      assert (|xs| + size - 1) / size == (|xs| - size + size - 1) / size + 1 by {
        DivShift(|xs| - size + size - 1, size);
      }
    } else if xs != [] {
      assert (|xs| + size - 1) / size == 1 by {
        assert size <= |xs| + size - 1 < 2 * size;
      }
    }
  }

  lemma DivShift(a: nat, size: nat)
    requires size > 0
    ensures (a + size) / size == a / size + 1
  {
    var q, m := a / size, a % size;
    assert a + size == (q + 1) * size + m;
    DivOfMultiplePlus(q + 1, m, size);
  }

  lemma DivOfMultiplePlus(q: nat, m: nat, size: nat)
    requires m < size
    ensures (q * size + m) / size == q
  {
    var d := (q * size + m) / size;
    var e := (q * size + m) % size;
    assert d * size + e == q * size + m;
    if d < q {
      MulLe(d + 1, q, size);
      assert false;
    } else if d > q {
      MulLe(q + 1, d, size);
      assert false;
    }
  }

  lemma MulLe(a: nat, b: nat, size: nat)
    requires a <= b
    ensures a * size <= b * size
  {
  }

  /**
   * `chunked_conditions`: one query per chunk of at most `ParameterLimit`
   * identifiers, in order, each built by `f` from that chunk's condition.
   */
  function ChunkedConditions<Q>(columns: seq<Column>, records: seq<RecordIdentifier>, f: ConditionTree -> Q): (r: seq<Q>)
    requires |columns| == 1 ==> AllHaveValues(records)
    ensures |r| == |Chunks(records, ParameterLimit)|
    ensures |r| == (|records| + ParameterLimit - 1) / ParameterLimit
    ensures records == [] <==> r == []
    ensures forall i :: 0 <= i < |r| ==>
      r[i] == f(Conditions(columns, Chunks(records, ParameterLimit)[i]))
  {
    var chunks := Chunks(records, ParameterLimit);
    ChunksCount(records, ParameterLimit);
    assert forall i :: 0 <= i < |chunks| ==> (|columns| == 1 ==> AllHaveValues(chunks[i]));
    seq(|chunks|, i requires 0 <= i < |chunks| => f(Conditions(columns, chunks[i])))
  }
}
