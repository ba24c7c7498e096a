/**
 * The deferred-join paginator: the shared body of `fastPaginate` and
 * `simpleFastPaginate`. A compatible query is paginated as a key-only clone;
 * the page's keys then filter the original query, which is fetched as page 1;
 * the result joins the clone's page statistics to the outer query's rows.
 * Any other query goes to the plain pagination method unchanged.
 */
module FastPaginate {
  import opened Php
  import opened Query
  import opened InnerColumns
  import opened ClearConstraints

  /** Which pagination method of the builder an entry point delegates to. */
  datatype PaginationMethod = Paginate | SimplePaginate

  /** `($perPage, $columns, $pageName, $page)` as the caller passed them. */
  datatype PageArgs = PageArgs(perPage: Value, columns: seq<string>, pageName: string, page: Value)

  /** A fetched row, by its raw (uncast) attributes. */
  type Row = map<string, Value>

  /** A `LengthAwarePaginator` (with a total) or a simple `Paginator` (with "has more pages"). */
  datatype Paginator =
    | LengthAwarePaginator(items: seq<Row>, total: int, perPage: int, currentPage: int, options: map<string, Value>)
    | SimplePaginator(items: seq<Row>, perPage: int, currentPage: int, options: map<string, Value>, hasMorePages: bool)

  type LengthAware = p: Paginator | p.LengthAwarePaginator? witness LengthAwarePaginator([], 0, 0, 0, map[])
  type Simple = p: Paginator | p.SimplePaginator? witness SimplePaginator([], 0, 0, map[], false)

  /** The database behind the builder's two pagination primitives, as seen from the query it is given. */
  datatype Database = Database(
    paginate: (QueryState, PageArgs) -> LengthAware,
    simplePaginate: (QueryState, PageArgs) -> Simple)

  /** One invocation of a pagination primitive: which one, on which query, with which arguments. */
  datatype Call = Call(via: PaginationMethod, query: QueryState, args: PageArgs)

  /** `$builder->{$paginationMethod}(...)`. */
  function Run(db: Database, via: PaginationMethod, q: QueryState, args: PageArgs): (p: Paginator)
    ensures p.LengthAwarePaginator? <==> via == Paginate
  {
    match via
    case Paginate => db.paginate(q, args)
    case SimplePaginate => db.simplePaginate(q, args)
  }

  /** `getRawOriginal($key)`: the attribute as fetched, or null. */
  function RawOriginal(row: Row, key: string): Value
  {
    if key in row then row[key] else Null
  }

  /** `$paginator->getCollection()->map->getRawOriginal($key)->toArray()`. */
  function KeyValues(rows: seq<Row>, key: string): (ids: seq<Value>)
    ensures |ids| == |rows|
    ensures forall i :: 0 <= i < |rows| ==> ids[i] == RawOriginal(rows[i], key)
  {
    if rows == [] then [] else [RawOriginal(rows[0], key)] + KeyValues(rows[1..], key)
  }

  /** `in_array($model->getKeyType(), ['int', 'integer'])`. */
  predicate IsIntegerKeyType(keyType: string)
  {
    keyType == "int" || keyType == "integer"
  }

  /** The predicate appended to the outer query. */
  function KeyFilter(model: Model, ids: seq<Value>): (w: Where)
    ensures w.In? || w.IntegerInRaw?
    ensures w.column == KeyColumnName(model) && w.values == ids
    ensures w.IntegerInRaw? <==> IsIntegerKeyType(model.keyType)
  {
    if IsIntegerKeyType(model.keyType) then IntegerInRaw(KeyColumnName(model), ids)
    else In(KeyColumnName(model), ids)
  }

  /**
   * The two output closures: a paginator of the inner one's kind, with the
   * inner one's total, page size, current page, options and "has more pages",
   * holding the outer query's rows.
   */
  function Assemble(items: seq<Row>, inner: Paginator): (r: Paginator)
    ensures r == inner.(items := items)
  {
    match inner
    case LengthAwarePaginator(_, total, perPage, currentPage, options) =>
      LengthAwarePaginator(items, total, perPage, currentPage, options)
    case SimplePaginator(_, perPage, currentPage, options, hasMorePages) =>
      SimplePaginator(items, perPage, currentPage, options, hasMorePages)
  }

  /** The cases that go to the plain pagination method. */
  predicate FallsBack(q: QueryState, model: Model, wrap: string -> string, perPage: Value)
  {
    || |q.havings| > 0 || |q.groups| > 0 || |q.unions| > 0
    || perPage == Int(-1)
    || InnerSelectColumns(wrap, q, model).Incompatible?
  }

  /**
   * The inner, key-only query: the clone with the inner select list (which
   * empties its `select` bindings) and no eager loads.
   */
  function InnerQuery(q: QueryState, cols: seq<Column>): QueryState
  {
    q.(columns := cols, bindings := q.bindings["select" := []], eagerLoads := [])
  }

  /** The outer query: the cleared original with the key filter appended. */
  function OuterQuery(cleared: QueryState, model: Model, ids: seq<Value>): QueryState
  {
    cleared.(wheres := cleared.wheres + [KeyFilter(model, ids)])
  }

  /**
   * The inner query loads no relations; the outer query keeps the original
   * eager loads, so relations load once, for the final page.
   */
  lemma EagerLoadsDeferredToOuterQuery(q: QueryState, cols: seq<Column>, options: map<string, Value>, model: Model, ids: seq<Value>)
    ensures InnerQuery(q, cols).eagerLoads == []
    ensures OuterQuery(Cleared(q, options), model, ids).eagerLoads == q.eagerLoads
  {
  }

  /**
   * The inner query keeps the original's orders, wheres, joins, grouping and
   * unions; it selects the given columns, has no `select` bindings, and keeps
   * every other binding category as it was.
   */
  lemma InnerQueryShape(q: QueryState, cols: seq<Column>)
    ensures var inner := InnerQuery(q, cols);
      && inner.columns == cols
      && inner.orders == q.orders && inner.wheres == q.wheres && inner.joins == q.joins
      && inner.havings == q.havings && inner.groups == q.groups && inner.unions == q.unions
      && "select" in inner.bindings && inner.bindings["select"] == []
      && inner.bindings.Keys == q.bindings.Keys + {"select"}
      && (forall c :: c in q.bindings && c != "select" ==> inner.bindings[c] == q.bindings[c])
  {
  }

  /**
   * The outer query keeps the original select list, orders, grouping and
   * eager loads, and its wheres are the cleared ones followed by exactly one
   * key filter.
   */
  lemma OuterQueryShape(q: QueryState, options: map<string, Value>, model: Model, ids: seq<Value>)
    ensures var cleared, outer := Cleared(q, options), OuterQuery(Cleared(q, options), model, ids);
      && outer.columns == q.columns && outer.orders == q.orders
      && outer.havings == q.havings && outer.groups == q.groups && outer.unions == q.unions
      && outer.joins == cleared.joins && outer.bindings == cleared.bindings
      && |outer.wheres| == |cleared.wheres| + 1
      && outer.wheres[..|cleared.wheres|] == cleared.wheres
      && outer.wheres[|cleared.wheres|] == KeyFilter(model, ids)
  {
    var cleared := Cleared(q, options);
    assert (cleared.wheres + [KeyFilter(model, ids)])[..|cleared.wheres|] == cleared.wheres;
  }

  /**
   * The closure that `paginate($paginationMethod, $paginatorOutput)` builds,
   * applied to the builder `b`. `calls` lists the pagination primitives it
   * invokes, in order.
   */
  method FastPaginate(b: Builder, via: PaginationMethod, db: Database, args: PageArgs, options: map<string, Value>)
    returns (result: Paginator, calls: seq<Call>)
    modifies b
    ensures var q := old(b.State());
      FallsBack(q, b.model, b.grammar, args.perPage) ==>
        && calls == [Call(via, q, args)]
        && result == Run(db, via, q, args)
        && b.State() == q
    ensures var q := old(b.State());
      !FallsBack(q, b.model, b.grammar, args.perPage) ==>
        var innerQuery := InnerQuery(q, InnerSelectColumns(b.grammar, q, b.model).columns);
        var innerArgs := args.(columns := ["*"]);
        var inner := Run(db, via, innerQuery, innerArgs);
        var outerQuery := OuterQuery(Cleared(q, options), b.model, KeyValues(inner.items, b.model.keyName));
        var outerArgs := args.(page := Int(1));
        && calls == [Call(via, innerQuery, innerArgs), Call(SimplePaginate, outerQuery, outerArgs)]
        && b.State() == outerQuery
        && result == inner.(items := db.simplePaginate(outerQuery, outerArgs).items)
  {
    calls := [];
    var base := b.State();
    if |base.havings| > 0 || |base.groups| > 0 || |base.unions| > 0 {
      result := Run(db, via, base, args);
      calls := calls + [Call(via, base, args)];
      return;
    }

    var model := b.model;
    var key, table := model.keyName, model.table;

    if args.perPage == Int(-1) {
      result := Run(db, via, base, args);
      calls := calls + [Call(via, base, args)];
      return;
    }

    var selection := InnerSelectColumns(b.grammar, base, model);
    if selection.Incompatible? {
      result := Run(db, via, base, args);
      calls := calls + [Call(via, base, args)];
      return;
    }

    var clone := b.Clone();
    clone.Select(selection.columns);
    clone.SetEagerLoads([]);
    var innerArgs := args.(columns := ["*"]);
    var paginator := Run(db, via, clone.State(), innerArgs);
    calls := calls + [Call(via, clone.State(), innerArgs)];

    var ids := KeyValues(paginator.items, key);

    ClearQueryAfterPaginationRetrieved(b, options);

    if IsIntegerKeyType(model.keyType) {
      b.WhereIntegerInRaw(table + "." + key, ids);
    } else {
      b.WhereIn(table + "." + key, ids);
    }

    var outerArgs := args.(page := Int(1));
    var outer := db.simplePaginate(b.State(), outerArgs);
    calls := calls + [Call(SimplePaginate, b.State(), outerArgs)];

    result := Assemble(outer.items, paginator);
  }
}
