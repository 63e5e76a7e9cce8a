/**
 * The conversions and checks the nested-write builders apply to parsed
 * input: `try_into` a map, `assert_size` and `assert_non_null`, and the
 * unique `where` filter built from a checked map.
 */
module InputAssertions {
  import opened Wrappers
  import opened Prisma
  import opened QueryGraph

  /** `ParsedInputValue` into `ParsedInputMap`: only a map converts. */
  function AsMap(v: ParsedInputValue): (r: Result<ParsedInputMap, GraphError>)
    ensures r.Ok? <==> v.MapInput?
    ensures r.Ok? ==> r.value == v.entries
    ensures r.Err? ==> r.error == NotAMap
  {
    match v
    case MapInput(m) => Ok(m)
    case _ => Err(NotAMap)
  }

  /** `assert_size(n)`: the map has exactly `n` entries. */
  function AssertSize(m: ParsedInputMap, n: nat): (r: Result<ParsedInputMap, GraphError>)
    ensures r.Ok? <==> |m| == n
    ensures r.Ok? ==> r.value == m
    ensures r.Err? ==> r.error == WrongSize(n, |m|)
  {
    if |m| == n then Ok(m) else Err(WrongSize(n, |m|))
  }

  /** No entry of the map is a null scalar. */
  predicate NonNull(m: ParsedInputMap) {
    forall k :: k in m ==> m[k] != SingleInput(Null)
  }

  /** `assert_non_null`. */
  function AssertNonNull(m: ParsedInputMap): (r: Result<ParsedInputMap, GraphError>)
    ensures r.Ok? <==> NonNull(m)
    ensures r.Ok? ==> r.value == m
    ensures r.Err? ==> r.error == NullValue
  {
    if NonNull(m) then Ok(m) else Err(NullValue)
  }

  /**
   * The `where` argument of a nested write on a list relation: a map with
   * exactly one non-null entry, turned into a (non-unique) filter on the
   * child model.  Checks run in the order map, size, non-null.
   */
  function WhereFilter(whereArg: ParsedInputValue, childModel: string): (r: Result<Filter, GraphError>)
    ensures r.Ok? <==> whereArg.MapInput? && |whereArg.entries| == 1 && NonNull(whereArg.entries)
    ensures r.Ok? ==> r.value == Extracted(whereArg.entries, childModel, false)
    ensures !whereArg.MapInput? ==> r == Err(NotAMap)
    ensures whereArg.MapInput? && |whereArg.entries| != 1 ==> r == Err(WrongSize(1, |whereArg.entries|))
    ensures whereArg.MapInput? && |whereArg.entries| == 1 && !NonNull(whereArg.entries) ==> r == Err(NullValue)
  {
    var m :- AsMap(whereArg);
    var m1 :- AssertSize(m, 1);
    var m2 :- AssertNonNull(m1);
    Ok(Extracted(m2, childModel, false))
  }
}
