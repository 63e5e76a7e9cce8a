/**
 * Paginated related records as one select per distinct parent identifier,
 * joined with `UNION ALL` (union_all.rs).
 */
module UnionAllBuilder {
  import opened Wrappers
  import opened Prisma
  import opened Sql
  import opened ManyRelatedRecords

  // ---------------------------------------------------------------------------
  // Vec::dedup
  // ---------------------------------------------------------------------------

  /** `Vec::dedup`: drop every element equal to the one right before it. */
  function DedupAdjacent<T(==)>(xs: seq<T>): (r: seq<T>)
    ensures |r| <= |xs|
    ensures xs == [] <==> r == []
    ensures xs != [] ==> r[0] == xs[0]
    ensures forall i :: 0 <= i < |r| - 1 ==> r[i] != r[i + 1]
    ensures forall i :: 0 <= i < |r| ==> r[i] in xs
    ensures forall i :: 0 <= i < |xs| ==> xs[i] in r
  {
    if |xs| <= 1 then xs
    else
      var rest := DedupAdjacent(xs[1..]);
      assert xs == [xs[0]] + xs[1..];
      if xs[0] == xs[1] then rest else [xs[0]] + rest
  }

  /**
   * Reference definition: the elements from index `k` on that differ from
   * their predecessor (the first element always stays), in order.
   */
  function KeptFrom<T(==)>(xs: seq<T>, k: nat): (r: seq<T>)
    requires k <= |xs|
    decreases |xs| - k
  {
    if k == |xs| then []
    else (if k == 0 || xs[k] != xs[k - 1] then [xs[k]] else []) + KeptFrom(xs, k + 1)
  }

  lemma {:induction false} DedupAdjacentFrom<T>(xs: seq<T>, k: nat)
    requires 0 < k <= |xs|
    ensures DedupAdjacent(xs[k - 1..]) == [xs[k - 1]] + KeptFrom(xs, k)
    decreases |xs| - k
  {
    if k < |xs| {
      DedupAdjacentFrom(xs, k + 1);
      assert xs[k - 1..][1..] == xs[k..];
    }
  }

  /** `dedup` keeps exactly the elements that differ from their predecessor. */
  lemma DedupAdjacentKeeps<T>(xs: seq<T>)
    ensures DedupAdjacent(xs) == KeptFrom(xs, 0)
  {
    if xs != [] {
      DedupAdjacentFrom(xs, 1);
      assert xs[0..] == xs;
    }
  }

  /** Without adjacent duplicates, every element from index `k` on is kept. */
  lemma {:induction false} KeptFromDistinctNeighbours<T>(xs: seq<T>, k: nat)
    requires forall i :: 0 <= i < |xs| - 1 ==> xs[i] != xs[i + 1]
    requires k <= |xs|
    ensures KeptFrom(xs, k) == xs[k..]
    decreases |xs| - k
  {
    if k < |xs| {
      KeptFromDistinctNeighbours(xs, k + 1);
      if k > 0 {
        assert xs[k - 1] != xs[k];
      }
      assert xs[k..] == [xs[k]] + xs[k + 1..];
    }
  }

  /** A sequence without adjacent duplicates is left as it is. */
  lemma DedupAdjacentOfDistinctNeighbours<T>(xs: seq<T>)
    requires forall i :: 0 <= i < |xs| - 1 ==> xs[i] != xs[i + 1]
    ensures DedupAdjacent(xs) == xs
  {
    DedupAdjacentKeeps(xs);
    KeptFromDistinctNeighbours(xs, 0);
  }

  /** De-duplicating twice is the same as once. */
  lemma DedupAdjacentIdempotent<T>(xs: seq<T>)
    ensures DedupAdjacent(DedupAdjacent(xs)) == DedupAdjacent(xs)
  {
    DedupAdjacentOfDistinctNeighbours(DedupAdjacent(xs));
  }

  // ---------------------------------------------------------------------------
  // with_pagination
  // ---------------------------------------------------------------------------

  /** Skip and limit: `limit` then `offset` when a limit is present, else `offset` only. */
  function Paged(q: Select, sl: SkipAndLimit): (r: Select)
    ensures r.offset == Some(sl.skip)
    ensures r.limit == (if sl.limit.Some? then sl.limit else q.limit)
    ensures r.source == q.source && r.values == q.values && r.condition == q.condition && r.orderings == q.orderings
  {
    match sl.limit
    case Some(l) => q.(limit := Some(l), offset := Some(sl.skip))
    case None => q.(offset := Some(sl.skip))
  }

  /** The base select every branch shares: paged, then ordered internally. */
  function BranchBase(base: BaseQuery): Select {
    var paged := Paged(base.query, base.skipAndLimit);
    paged.(orderings := paged.orderings + [Internal([RelatedModelAlias], base.orderDirections)])
  }

  /** `(condition AND cursor) AND relation_column = id`. */
  function BranchCondition(base: BaseQuery, id: RecordIdentifier): ConditionTree
    requires |id.pairs| >= 1
  {
    And(And(base.condition, base.cursor), Single(ColumnEquals(base.relationColumn, SingleValue(id))))
  }

  predicate IdsHaveValues(base: BaseQuery) {
    forall id :: id in base.fromRecordIds ==> |id.pairs| >= 1
  }

  /**
   * `ManyRelatedRecordsWithUnionAll::with_pagination`: one branch per
   * de-duplicated identifier, in order; no identifiers give the empty union.
   */
  function WithPagination(base: BaseQuery): (r: Query)
    requires IdsHaveValues(base)
    ensures r.UnionAll?
    ensures var ids := DedupAdjacent(base.fromRecordIds);
      && |r.branches| == |ids|
      && (base.fromRecordIds == [] <==> r.branches == [])
      && forall i :: 0 <= i < |ids| ==>
           r.branches[i] == BranchBase(base).(condition := BranchCondition(base, ids[i]))
  {
    var ids := DedupAdjacent(base.fromRecordIds);
    assert forall i :: 0 <= i < |ids| ==> ids[i] in base.fromRecordIds;
    UnionAll(seq(|ids|, i requires 0 <= i < |ids| =>
      BranchBase(base).(condition := BranchCondition(base, ids[i]))))
  }

  /**
   * A row answers branch `i` exactly when it satisfies the condition and
   * the cursor and its relation column holds that identifier's value; every
   * branch carries the requested skip and limit.
   */
  lemma BranchSemantics(base: BaseQuery, i: nat, row: SqlRow)
    requires IdsHaveValues(base)
    requires i < |DedupAdjacent(base.fromRecordIds)|
    ensures var ids := DedupAdjacent(base.fromRecordIds);
      var b := WithPagination(base).branches[i];
      && (Eval(b.condition, row) <==>
            Eval(base.condition, row) && Eval(base.cursor, row)
            && base.relationColumn in row && row[base.relationColumn] == ids[i].pairs[0].1)
      && b.offset == Some(base.skipAndLimit.skip)
      && (base.skipAndLimit.limit.Some? ==> b.limit == base.skipAndLimit.limit)
  {
    var ids := DedupAdjacent(base.fromRecordIds);
    assert ids[i] in base.fromRecordIds;
    assert WithPagination(base).branches[i] == BranchBase(base).(condition := BranchCondition(base, ids[i]));
    BranchConditionEval(base, ids[i], row);
  }

  lemma BranchConditionEval(base: BaseQuery, id: RecordIdentifier, row: SqlRow)
    requires |id.pairs| >= 1
    ensures Eval(BranchCondition(base, id), row) <==>
      Eval(base.condition, row) && Eval(base.cursor, row)
      && base.relationColumn in row && row[base.relationColumn] == id.pairs[0].1
  {
  }

  /** The union-all builder never adds a row-number column. */
  function UsesRowNumber(): (r: bool)
    ensures !r
  {
    false
  }
}
