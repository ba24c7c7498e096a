/**
 * Concrete cases: the `users` table of the integration tests, with a grammar
 * that wraps identifiers in double quotes.
 */
module Scenarios {
  import opened Wrappers
  import opened Php
  import opened Query
  import opened InnerColumns
  import opened ClearConstraints
  import opened FastPaginate

  /** A double-quoting identifier wrapper, as the SQLite grammar of the tests writes `"users"`. */
  function QuoteIdentifier(s: string): string
  {
    "\"" + s + "\""
  }

  function Users(): Model
  {
    Model("users", "id", "int")
  }

  /** `User::query()`: nothing selected, ordered, joined or filtered. */
  function UsersQuery(): QueryState
  {
    QueryState([], [], [], None, map["join" := [], "where" := []], [], [], [], [])
  }

  /** `User::query()->orderBy('name')`: with nothing selected, the inner query selects `users.id` alone. */
  lemma OrderByNameSelectsKeyOnly(wrap: string -> string)
    ensures var q := UsersQuery().(orders := [ColumnOrder(Plain("name"), "asc")]);
      InnerSelectColumns(wrap, q, Users()) == Columns([Plain("users.id")])
  {
    var q := UsersQuery().(orders := [ColumnOrder(Plain("name"), "asc")]);
    assert KeyColumn(Users()) == Plain("users.id");
    assert KeptColumns(wrap, q.orders, q.columns) == [];
    assert ArrayUnique([Plain("users.id")]) == [Plain("users.id")] by {
      assert [Plain("users.id")][..0] == [];
    }
  }

  /** The outer query of that call keeps the order and is filtered by the fetched keys alone, in the integer form. */
  lemma OrderIsPropagated(ids: seq<Value>)
    ensures var q := UsersQuery().(orders := [ColumnOrder(Plain("name"), "asc")]);
      var outer := OuterQuery(Cleared(q, map[]), Users(), ids);
      outer.orders == q.orders && outer.wheres == [IntegerInRaw("users.id", ids)]
  {
    var q := UsersQuery().(orders := [ColumnOrder(Plain("name"), "asc")]);
    assert KeyColumnName(Users()) == "users.id";
    assert !ShouldPreserveWheres(map[]);
    assert Cleared(q, map[]).wheres == [];
  }

  /** An aliased expression the order uses survives next to the key; a plain `*` does not. */
  lemma AliasedExpressionSurvives()
    ensures var full := Raw("concat(first, last) as \"full\"");
      var q := UsersQuery().(columns := [Plain("*"), full], orders := [ColumnOrder(Plain("full"), "asc")]);
      InnerSelectColumns(QuoteIdentifier, q, Users()) == Columns([Plain("users.id"), full])
  {
    var full := Raw("concat(first, last) as \"full\"");
    var q := UsersQuery().(columns := [Plain("*"), full], orders := [ColumnOrder(Plain("full"), "asc")]);
    assert KeyColumn(Users()) == Plain("users.id");
    KeptIsFull(q.orders, q.columns, full);
    NoPlaceholderIn(full.value);
    UniqueOfTwo(Plain("users.id"), full);
  }

  lemma UniqueOfTwo(a: Column, b: Column)
    requires a != b
    ensures ArrayUnique([a, b]) == [a, b]
  {
    assert [a][..0] == [];
    assert ArrayUnique([a]) == [a];
    assert [a, b][..1] == [a];
  }

  lemma KeptIsFull(orders: seq<Order>, cols: seq<Column>, full: Column)
    requires orders == [ColumnOrder(Plain("full"), "asc")]
    requires full == Raw("concat(first, last) as \"full\"") && cols == [Plain("*"), full]
    ensures KeptColumns(QuoteIdentifier, orders, cols) == [full]
  {
    FullOrderColumns(orders);
    var ws := OrderColumns(QuoteIdentifier, orders);
    StarIsDropped(orders);
    assert "as \"full\"" <= full.value[20..];
    assert "as " + ws[0] == "as \"full\"";
    assert Retained(QuoteIdentifier, orders, full);
    assert cols[1..] == [full];
    assert cols[1..][1..] == [];
  }

  lemma StarIsDropped(orders: seq<Order>)
    requires orders == [ColumnOrder(Plain("full"), "asc")]
    ensures !Retained(QuoteIdentifier, orders, Plain("*"))
  {
    FullOrderColumns(orders);
    var ws := OrderColumns(QuoteIdentifier, orders);
    assert Render(QuoteIdentifier, Plain("*")) == "\"*\"";
    assert !StrContains("\"*\"", "as \"full\"");
    assert "as " + ws[0] == "as \"full\"";
    assert ws[1..] == [];
    AliasesSomeOrderIff(Render(QuoteIdentifier, Plain("*")), ws);
  }

  lemma NoPlaceholderIn(v: string)
    requires v == "concat(first, last) as \"full\""
    ensures !StrContains(v, "?")
  {
    StrContainsChar(v, '?');
    assert '?' !in v;
  }

  /** A placeholder in an entry the order uses makes the query incompatible. */
  lemma PlaceholderInAliasIsIncompatible()
    ensures var q := UsersQuery().(columns := [Raw("(select ?) as \"full\"")], orders := [ColumnOrder(Plain("full"), "asc")]);
      InnerSelectColumns(QuoteIdentifier, q, Users()) == Incompatible
  {
    var c := Raw("(select ?) as \"full\"");
    var q := UsersQuery().(columns := [c], orders := [ColumnOrder(Plain("full"), "asc")]);
    FullOrderColumns(q.orders);
    assert "as \"full\"" <= c.value[11..];
    assert "?" <= c.value[8..];
    assert KeptColumns(QuoteIdentifier, q.orders, q.columns) == [c];
  }

  /** A placeholder in an entry that is dropped does not reject the query. */
  lemma PlaceholderInDroppedColumnIsIgnored()
    ensures var q := UsersQuery().(columns := [Raw("? as x")], orders := [ColumnOrder(Plain("full"), "asc")]);
      InnerSelectColumns(QuoteIdentifier, q, Users()) == Columns([Plain("users.id")])
  {
    var q := UsersQuery().(columns := [Raw("? as x")], orders := [ColumnOrder(Plain("full"), "asc")]);
    FullOrderColumns(q.orders);
    assert ["\"full\""][1..] == [];
    assert KeyColumn(Users()) == Plain("users.id");
    assert KeptColumns(QuoteIdentifier, q.orders, q.columns) == [];
    assert ArrayUnique([Plain("users.id")]) == [Plain("users.id")] by {
      assert [Plain("users.id")][..0] == [];
    }
  }

  lemma FullOrderColumns(orders: seq<Order>)
    requires orders == [ColumnOrder(Plain("full"), "asc")]
    ensures OrderColumns(QuoteIdentifier, orders) == ["\"full\""]
  {
    assert HasFilledColumn(orders[0]) by {
      assert |"full"| == 4;
    }
    assert orders[1..] == [];
    assert OrderColumns(QuoteIdentifier, orders[1..]) == [];
    assert Render(QuoteIdentifier, orders[0].column) == "\"full\"";
  }
}
