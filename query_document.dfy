/**
 * The query document: the protocol-independent intermediate representation
 * of an incoming request (query_document.rs).  A document is one operation or
 * a batch of them; an operation reads or writes one selection; a selection
 * has a name, an optional alias, arguments and nested selections.
 */
module QueryDocument {
  import opened Wrappers

  /**
   * Argument values.  `Int` is a 64-bit integer in the source; no operation
   * modelled here does arithmetic on it.  `Float` is kept as a real.
   */
  datatype QueryValue =
    | Int(i: int)
    | Float(f: real)
    | String(s: string)
    | Boolean(b: bool)
    | Null
    | Enum(e: string)
    | List(items: seq<QueryValue>)
    | Object(entries: map<string, QueryValue>)

  datatype Selection = Selection(
    name: string,
    alias: Option<string>,
    arguments: seq<(string, QueryValue)>,
    nestedSelections: seq<Selection>)

  datatype Operation = Read(selection: Selection) | Write(selection: Selection)

  datatype BatchDocument = BatchDocument(operations: seq<Operation>)

  datatype QueryDocument = Single(operation: Operation) | Multi(batch: BatchDocument)

  // ---------------------------------------------------------------------------
  // De-duplication of nested selections
  // ---------------------------------------------------------------------------

  predicate NamesDistinct(xs: seq<Selection>) {
    forall i, j :: 0 <= i < j < |xs| ==> xs[i].name != xs[j].name
  }

  function NameSet(xs: seq<Selection>): set<string> {
    set x | x in xs :: x.name
  }

  lemma NameSetSplit(xs: seq<Selection>)
    requires xs != []
    ensures NameSet(xs) == {xs[0].name} + NameSet(xs[1..])
  {
    assert forall x :: x in xs <==> x == xs[0] || x in xs[1..];
  }

  lemma NameSetSnoc(xs: seq<Selection>, k: nat)
    requires k < |xs|
    ensures NameSet(xs[..k + 1]) == NameSet(xs[..k]) + {xs[k].name}
  {
    assert forall x :: x in xs[..k + 1] <==> x == xs[k] || x in xs[..k];
  }

  /**
   * `unique_by(|s| s.name)`: walk the sequence front to back, keeping an
   * element only when no element with its name has been kept (or, through
   * `seen`, passed over) before.
   */
  function UniqueByName(xs: seq<Selection>, seen: set<string>): (r: seq<Selection>)
    ensures NamesDistinct(r)
    ensures forall i :: 0 <= i < |r| ==> r[i] in xs
    ensures NameSet(r) == NameSet(xs) - seen
    decreases |xs|
  {
    if xs == [] then []
    else
      NameSetSplit(xs);
      if xs[0].name in seen then UniqueByName(xs[1..], seen)
      else
        var rest := UniqueByName(xs[1..], seen + {xs[0].name});
        NameSetSplit([xs[0]] + rest);
        assert ([xs[0]] + rest)[1..] == rest;
        [xs[0]] + rest
  }

  /** No element before index `i` has the name of `xs[i]`. */
  predicate IsFirstOccurrence(xs: seq<Selection>, i: nat)
    requires i < |xs|
  {
    forall j :: 0 <= j < i ==> xs[j].name != xs[i].name
  }

  /**
   * Reference definition: the elements of `xs` from index `k` on that are
   * the first of their name in the whole of `xs`, in their original order.
   */
  function FirstOccurrencesFrom(xs: seq<Selection>, k: nat): (r: seq<Selection>)
    requires k <= |xs|
    ensures |r| <= |xs| - k
    decreases |xs| - k
  {
    if k == |xs| then []
    else (if IsFirstOccurrence(xs, k) then [xs[k]] else []) + FirstOccurrencesFrom(xs, k + 1)
  }

  lemma {:induction false} UniqueByNameFrom(xs: seq<Selection>, k: nat)
    requires k <= |xs|
    ensures UniqueByName(xs[k..], NameSet(xs[..k])) == FirstOccurrencesFrom(xs, k)
    decreases |xs| - k
  {
    if k < |xs| {
      UniqueByNameFrom(xs, k + 1);
      assert xs[k..][1..] == xs[k + 1..];
      assert xs[..k + 1][..k] == xs[..k];
      NameSetSnoc(xs, k);
      var seen := NameSet(xs[..k]);
      assert xs[k..][0] == xs[k];
      if xs[k].name in seen {
        var x :| x in xs[..k] && x.name == xs[k].name;
        assert !IsFirstOccurrence(xs, k);
        assert UniqueByName(xs[k..], seen) == UniqueByName(xs[k + 1..], seen);
        assert NameSet(xs[..k + 1]) == seen;
      } else {
        assert IsFirstOccurrence(xs, k);
        assert UniqueByName(xs[k..], seen) == [xs[k]] + UniqueByName(xs[k + 1..], seen + {xs[k].name});
      }
    }
  }

  /**
   * `unique_by` keeps exactly the first selection of each name, in the
   * original order, and drops every later one.
   */
  lemma UniqueByNameKeepsFirstOccurrences(xs: seq<Selection>)
    ensures UniqueByName(xs, {}) == FirstOccurrencesFrom(xs, 0)
  {
    UniqueByNameFrom(xs, 0);
    assert xs[0..] == xs;
    assert NameSet(xs[..0]) == {};
  }

  /** On selections whose names are already distinct `unique_by` changes nothing. */
  lemma {:induction false} UniqueByNameOfDistinct(xs: seq<Selection>, seen: set<string>)
    requires NamesDistinct(xs)
    requires forall i :: 0 <= i < |xs| ==> xs[i].name !in seen
    ensures UniqueByName(xs, seen) == xs
    decreases |xs|
  {
    if xs != [] {
      assert forall i :: 1 <= i < |xs| ==> xs[i].name != xs[0].name;
      UniqueByNameOfDistinct(xs[1..], seen + {xs[0].name});
    }
  }

  /** `Selection::dedup`: only the nested selections change. */
  function Dedup(s: Selection): (r: Selection)
    ensures r.name == s.name && r.alias == s.alias && r.arguments == s.arguments
    ensures NamesDistinct(r.nestedSelections)
    ensures NameSet(r.nestedSelections) == NameSet(s.nestedSelections)
  {
    s.(nestedSelections := UniqueByName(s.nestedSelections, {}))
  }

  /** De-duplicating twice is the same as de-duplicating once. */
  lemma DedupIdempotent(s: Selection)
    ensures Dedup(Dedup(s)) == Dedup(s)
  {
    UniqueByNameOfDistinct(Dedup(s).nestedSelections, {});
  }

  /** `Operation::dedup_selections`: the Read/Write tag is preserved. */
  function DedupSelections(op: Operation): (r: Operation)
    ensures r.Read? <==> op.Read?
    ensures r.selection == Dedup(op.selection)
  {
    match op
    case Read(s) => Read(Dedup(s))
    case Write(s) => Write(Dedup(s))
  }

  /** `QueryDocument::dedup_operations`; batches are not implemented (`todo!`). */
  function DedupOperations(doc: QueryDocument): (r: QueryDocument)
    requires doc.Single?
    ensures r.Single? && r.operation == DedupSelections(doc.operation)
    ensures NamesDistinct(r.operation.selection.nestedSelections)
  {
    Single(DedupSelections(doc.operation))
  }

  // ---------------------------------------------------------------------------
  // findOne and batch collapsing
  // ---------------------------------------------------------------------------

  const FindOnePrefix: string := "findOne"

  /** `Selection::is_find_one`: the name starts with "findOne". */
  predicate SelectionIsFindOne(s: Selection) {
    FindOnePrefix <= s.name
  }

  /** `Operation::is_find_one`: only reads can be find-one. */
  function IsFindOne(op: Operation): (r: bool)
    ensures r <==> op.Read? && |op.selection.name| >= 7 && op.selection.name[..7] == "findOne"
    ensures op.Write? ==> !r
  {
    match op
    case Read(s) => SelectionIsFindOne(s)
    case _ => false
  }

  /** `rest.all(...)`: each operation of `rest` can be merged with `first`. */
  function AllLike(first: Operation, rest: seq<Operation>): bool {
    if rest == [] then true
    else
      var op := rest[0];
      IsFindOne(op) && first.selection.name == op.selection.name
      && first.selection.nestedSelections == op.selection.nestedSelections
      && AllLike(first, rest[1..])
  }

  /** `can_optimize_into_single_operation`. */
  function CanOptimize(b: BatchDocument): (r: bool)
    ensures b.operations == [] ==> !r
    ensures b.operations != [] && !IsFindOne(b.operations[0]) ==> !r
  {
    if b.operations == [] then false
    else
      var first, rest := b.operations[0], b.operations[1..];
      if IsFindOne(first) then AllLike(first, rest) else false
  }

  lemma {:induction false} AllLikeIff(first: Operation, rest: seq<Operation>)
    ensures AllLike(first, rest) <==> forall i :: 0 <= i < |rest| ==>
      IsFindOne(rest[i]) && rest[i].selection.name == first.selection.name
      && rest[i].selection.nestedSelections == first.selection.nestedSelections
  {
    if rest != [] {
      AllLikeIff(first, rest[1..]);
      assert forall i :: 1 <= i < |rest| ==> rest[1..][i - 1] == rest[i];
    }
  }

  /**
   * A batch collapses into one operation exactly when it is non-empty, its
   * first operation is find-one, and every operation is find-one with the
   * first one's name and nested selections.
   */
  lemma CanOptimizeIff(b: BatchDocument)
    ensures CanOptimize(b) <==>
      && |b.operations| > 0
      && IsFindOne(b.operations[0])
      && forall i :: 1 <= i < |b.operations| ==>
           var op := b.operations[i];
           IsFindOne(op) && op.selection.name == b.operations[0].selection.name
           && op.selection.nestedSelections == b.operations[0].selection.nestedSelections
  {
    if b.operations != [] {
      var ops := b.operations;
      AllLikeIff(ops[0], ops[1..]);
      assert forall i :: 1 <= i < |ops| ==> ops[1..][i - 1] == ops[i];
    }
  }

  /** A one-element batch whose operation is find-one can be collapsed. */
  lemma SingleFindOneOptimizable(op: Operation)
    requires IsFindOne(op)
    ensures CanOptimize(BatchDocument([op]))
  {
    CanOptimizeIff(BatchDocument([op]));
  }

  /**
   * `optimize_into_single_operation`: the collapsing itself is not
   * implemented (`todo!`), so only batches that cannot be collapsed are
   * admitted, and for those the answer is `None`.
   */
  function OptimizeIntoSingleOperation(b: BatchDocument): (r: Option<Operation>)
    requires !CanOptimize(b)
    ensures r.None?
  {
    None
  }
}
