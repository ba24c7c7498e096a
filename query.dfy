/**
 * The query builder the pagination core consumes and changes: the clause lists
 * it reads and writes, the model's table and key, and the few builder
 * mutators it calls (clone, select, eager loads, the two "where in" forms).
 */
module Query {
  import opened Wrappers
  import opened Php

  /** A select-list or order-by entry: a column name, or an `Expression` holding raw SQL. */
  datatype Column = Plain(name: string) | Raw(value: string)

  /** An entry of `$query->orders`: `orderBy` records a column, `orderByRaw` only SQL. */
  datatype Order = ColumnOrder(column: Column, direction: string) | RawOrder(sql: string)

  /** An entry of `$query->wheres`; the two key filters the core adds, and any other predicate. */
  datatype Where =
    | In(column: string, values: seq<Value>)
    | IntegerInRaw(column: string, values: seq<Value>)
    | Clause(sql: string)

  /**
   * The value of a builder at one moment. A `null` list of columns, orders,
   * havings, groups or unions is the empty sequence; `joins` keeps the
   * difference between `null` and `[]`, because the core tests for both.
   */
  datatype QueryState = QueryState(
    columns: seq<Column>,
    orders: seq<Order>,
    wheres: seq<Where>,
    joins: Option<seq<string>>,
    bindings: map<string, seq<Value>>,
    havings: seq<string>,
    groups: seq<Column>,
    unions: seq<string>,
    eagerLoads: seq<string>)

  /** The model bound to the builder: `getTable()`, `getKeyName()`, `getKeyType()`. */
  datatype Model = Model(table: string, keyName: string, keyType: string)

  /** `"$table.$key"`. */
  function KeyColumnName(model: Model): string
  {
    model.table + "." + model.keyName
  }

  function KeyColumn(model: Model): Column
  {
    Plain(KeyColumnName(model))
  }

  /** The SQL text of a column as the grammar writes it: an Expression's value, a name wrapped. */
  function Render(wrap: string -> string, c: Column): string
  {
    match c
    case Plain(name) => wrap(name)
    case Raw(value) => value
  }

  /** The text of a column before wrapping: an Expression's value, or the name itself. */
  function Text(c: Column): string
  {
    match c
    case Plain(name) => name
    case Raw(value) => value
  }

  /** An Eloquent builder together with its base query, updated in place. */
  class Builder {
    var columns: seq<Column>
    var orders: seq<Order>
    var wheres: seq<Where>
    var joins: Option<seq<string>>
    var bindings: map<string, seq<Value>>
    var havings: seq<string>
    var groups: seq<Column>
    var unions: seq<string>
    var eagerLoads: seq<string>
    /** `newModelInstance()`: the same table, key name and key type for the builder's lifetime. */
    const model: Model
    /** `$base->grammar->wrap`. */
    const grammar: string -> string

    function State(): QueryState
      reads this
    {
      QueryState(columns, orders, wheres, joins, bindings, havings, groups, unions, eagerLoads)
    }

    constructor (s: QueryState, model: Model, grammar: string -> string)
      ensures State() == s && this.model == model && this.grammar == grammar
    {
      columns, orders, wheres, joins, bindings := s.columns, s.orders, s.wheres, s.joins, s.bindings;
      havings, groups, unions, eagerLoads := s.havings, s.groups, s.unions, s.eagerLoads;
      this.model, this.grammar := model, grammar;
    }

    /** `clone()`: a new, independent builder with the same state. */
    method Clone() returns (c: Builder)
      ensures fresh(c)
      ensures c.State() == State() && c.model == model && c.grammar == grammar
    {
      c := new Builder(State(), model, grammar);
    }

    /** `select($columns)`: replaces the select list and empties the `select` bindings. */
    method Select(cols: seq<Column>)
      modifies this
      ensures State() == old(State()).(columns := cols, bindings := old(bindings)["select" := []])
    {
      columns := cols;
      bindings := bindings["select" := []];
    }

    /** `setEagerLoads($loads)`. */
    method SetEagerLoads(loads: seq<string>)
      modifies this
      ensures State() == old(State()).(eagerLoads := loads)
    {
      eagerLoads := loads;
    }

    /** `whereIn($column, $values)`: appends one "in" predicate. */
    method WhereIn(column: string, values: seq<Value>)
      modifies this
      ensures State() == old(State()).(wheres := old(wheres) + [In(column, values)])
    {
      wheres := wheres + [In(column, values)];
    }

    /** `whereIntegerInRaw($column, $values)`: appends one integer "in" predicate. */
    method WhereIntegerInRaw(column: string, values: seq<Value>)
      modifies this
      ensures State() == old(State()).(wheres := old(wheres) + [IntegerInRaw(column, values)])
    {
      wheres := wheres + [IntegerInRaw(column, values)];
    }
  }
}
