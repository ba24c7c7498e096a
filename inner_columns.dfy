/**
 * `getInnerSelectColumns`: which select-list entries the
 * key-only inner query keeps (the primary key, and the aliased columns some
 * ORDER BY depends on), or that the query cannot be rewritten.
 */
module InnerColumns {
  import opened Php
  import opened Query

  /** The outcome of the selector; `Incompatible` stands for the exception the source throws. */
  datatype Selection = Columns(columns: seq<Column>) | Incompatible

  /** An order that `pluck('column')->filter()` keeps: it has a column, and PHP reads it as truthy. */
  predicate HasFilledColumn(o: Order)
  {
    o.ColumnOrder? && (o.column.Raw? || !IsFalsyString(o.column.name))
  }

  /** The order-by columns, rendered by the grammar, in order; orders without a column are skipped. */
  function OrderColumns(wrap: string -> string, orders: seq<Order>): (ws: seq<string>)
    ensures |ws| <= |orders|
    ensures forall w :: w in ws <==> exists o :: o in orders && HasFilledColumn(o) && Render(wrap, o.column) == w
  {
    if orders == [] then []
    else
      var rest := OrderColumns(wrap, orders[1..]);
      assert forall o :: o in orders <==> o == orders[0] || o in orders[1..];
      if HasFilledColumn(orders[0]) then [Render(wrap, orders[0].column)] + rest else rest
  }

  /** The `foreach` over the wrapped orders: does the column text contain `"as $order"` for one of them. */
  predicate AliasesSomeOrder(text: string, ws: seq<string>)
  {
    ws != [] && (StrContains(text, "as " + ws[0]) || AliasesSomeOrder(text, ws[1..]))
  }

  lemma {:induction false} AliasesSomeOrderIff(text: string, ws: seq<string>)
    ensures AliasesSomeOrder(text, ws) <==> exists w :: w in ws && StrContains(text, "as " + w)
  {
    if ws != [] {
      AliasesSomeOrderIff(text, ws[1..]);
      assert forall w :: w in ws <==> w == ws[0] || w in ws[1..];
    }
  }

  /** The filter callback: a select entry survives when its rendered form is an alias an order uses. */
  predicate Retained(wrap: string -> string, orders: seq<Order>, c: Column)
  {
    AliasesSomeOrder(Render(wrap, c), OrderColumns(wrap, orders))
  }

  /** Survival stated against the orders themselves rather than the intermediate list of wrapped names. */
  lemma RetainedIff(wrap: string -> string, orders: seq<Order>, c: Column)
    ensures Retained(wrap, orders, c) <==>
      exists o :: o in orders && HasFilledColumn(o) && StrContains(Render(wrap, c), "as " + Render(wrap, o.column))
  {
    var ws := OrderColumns(wrap, orders);
    AliasesSomeOrderIff(Render(wrap, c), ws);
    if Retained(wrap, orders, c) {
      var w :| w in ws && StrContains(Render(wrap, c), "as " + w);
      var o :| o in orders && HasFilledColumn(o) && Render(wrap, o.column) == w;
    }
  }

  /** `collect($base->columns)->filter(...)`: the surviving entries, in their original order. */
  function KeptColumns(wrap: string -> string, orders: seq<Order>, cols: seq<Column>): (kept: seq<Column>)
    ensures |kept| <= |cols|
    ensures forall c :: c in kept <==> c in cols && Retained(wrap, orders, c)
  {
    if cols == [] then []
    else
      var rest := KeptColumns(wrap, orders, cols[1..]);
      assert forall c :: c in cols <==> c == cols[0] || c in cols[1..];
      if Retained(wrap, orders, cols[0]) then [cols[0]] + rest else rest
  }

  /** Filtering keeps the relative order of first occurrences. */
  lemma {:induction false} KeptColumnsKeepOrder(wrap: string -> string, orders: seq<Order>, cols: seq<Column>, x: Column, y: Column)
    requires x in KeptColumns(wrap, orders, cols) && y in KeptColumns(wrap, orders, cols)
    ensures FirstIndex(KeptColumns(wrap, orders, cols), x) < FirstIndex(KeptColumns(wrap, orders, cols), y)
        <==> FirstIndex(cols, x) < FirstIndex(cols, y)
  {
    var kept, rest := KeptColumns(wrap, orders, cols), KeptColumns(wrap, orders, cols[1..]);
    if x != cols[0] && y != cols[0] {
      KeptColumnsKeepOrder(wrap, orders, cols[1..], x, y);
      if Retained(wrap, orders, cols[0]) {
        assert kept == [cols[0]] + rest;
        assert FirstIndex(kept, x) == 1 + FirstIndex(rest, x);
        assert FirstIndex(kept, y) == 1 + FirstIndex(rest, y);
      }
    } else {
      assert Retained(wrap, orders, cols[0]) && kept[0] == cols[0];
    }
  }

  /** The `each` callback: some kept entry's text holds a `?` placeholder. */
  predicate HasPlaceholder(kept: seq<Column>)
  {
    kept != [] && (StrContains(Text(kept[0]), "?") || HasPlaceholder(kept[1..]))
  }

  lemma {:induction false} HasPlaceholderIff(kept: seq<Column>)
    ensures HasPlaceholder(kept) <==> exists c :: c in kept && StrContains(Text(c), "?")
  {
    if kept != [] {
      HasPlaceholderIff(kept[1..]);
      assert forall c :: c in kept <==> c == kept[0] || c in kept[1..];
    }
  }

  /**
   * `FastPaginate::getInnerSelectColumns`: the key column, then the surviving
   * entries, without duplicates; `Incompatible` when a surviving entry holds a
   * placeholder.
   */
  function InnerSelectColumns(wrap: string -> string, q: QueryState, model: Model): Selection
  {
    var kept := KeptColumns(wrap, q.orders, q.columns);
    if HasPlaceholder(kept) then Incompatible
    else Columns(ArrayUnique([KeyColumn(model)] + kept))
  }

  /** The query is rejected exactly when a surviving select entry holds a `?`; a `?` in a dropped entry does not count. */
  lemma IncompatibleIffRetainedPlaceholder(wrap: string -> string, q: QueryState, model: Model)
    ensures InnerSelectColumns(wrap, q, model).Incompatible? <==>
      exists c :: c in q.columns && Retained(wrap, q.orders, c) && StrContains(Text(c), "?")
  {
    HasPlaceholderIff(KeptColumns(wrap, q.orders, q.columns));
  }

  /** The inner select list starts with `"$table.$key"` and has no duplicates. */
  lemma InnerColumnsStartWithKey(wrap: string -> string, q: QueryState, model: Model)
    requires InnerSelectColumns(wrap, q, model).Columns?
    ensures var cols := InnerSelectColumns(wrap, q, model).columns;
      |cols| > 0 && cols[0] == KeyColumn(model) && NoDuplicates(cols)
  {
    UniqueKeepsHead([KeyColumn(model)] + KeptColumns(wrap, q.orders, q.columns));
  }

  /** An entry is in the inner select list iff it is the key column or a surviving select entry. */
  lemma InnerColumnsMembership(wrap: string -> string, q: QueryState, model: Model, c: Column)
    requires InnerSelectColumns(wrap, q, model).Columns?
    ensures c in InnerSelectColumns(wrap, q, model).columns <==>
      c == KeyColumn(model) || (c in q.columns && Retained(wrap, q.orders, c))
  {
    var s := [KeyColumn(model)] + KeptColumns(wrap, q.orders, q.columns);
    var cols := ArrayUnique(s);
    if c in cols {
      var i :| 0 <= i < |cols| && cols[i] == c;
      assert cols[i] in s;
    }
    if c in s {
      var i :| 0 <= i < |s| && s[i] == c;
      assert s[i] in cols;
    }
  }

  /** After the key column, the surviving entries keep the relative order they had in the select list. */
  lemma InnerColumnsKeepOrder(wrap: string -> string, q: QueryState, model: Model, i: int, j: int)
    requires InnerSelectColumns(wrap, q, model).Columns?
    requires 1 <= i < j < |InnerSelectColumns(wrap, q, model).columns|
    ensures var cols := InnerSelectColumns(wrap, q, model).columns;
      cols[i] in q.columns && cols[j] in q.columns && FirstIndex(q.columns, cols[i]) < FirstIndex(q.columns, cols[j])
  {
    var kept := KeptColumns(wrap, q.orders, q.columns);
    var s := [KeyColumn(model)] + kept;
    var cols := ArrayUnique(s);
    InnerColumnsStartWithKey(wrap, q, model);
    assert cols[i] != KeyColumn(model) && cols[j] != KeyColumn(model);
    assert cols[i] in s && cols[j] in s;
    assert cols[i] in kept && cols[j] in kept;
    FirstIndexBehindHead(KeyColumn(model), kept, cols[i]);
    FirstIndexBehindHead(KeyColumn(model), kept, cols[j]);
    assert FirstIndex(s, cols[i]) < FirstIndex(s, cols[j]);
    KeptColumnsKeepOrder(wrap, q.orders, q.columns, cols[i], cols[j]);
  }

  lemma FirstIndexBehindHead(h: Column, t: seq<Column>, x: Column)
    requires x in t && x != h
    ensures FirstIndex([h] + t, x) == 1 + FirstIndex(t, x)
  {
    assert ([h] + t)[1..] == t;
  }

  /** Without an order that names a column, the inner query selects the key column alone. */
  lemma {:induction false} OnlyKeyWithoutOrderColumns(wrap: string -> string, q: QueryState, model: Model)
    requires forall o :: o in q.orders ==> !HasFilledColumn(o)
    ensures InnerSelectColumns(wrap, q, model) == Columns([KeyColumn(model)])
  {
    var kept := KeptColumns(wrap, q.orders, q.columns);
    NoOrderColumns(wrap, q.orders);
    NothingKeptWithoutOrderColumns(wrap, q.orders, q.columns);
    assert [KeyColumn(model)] + kept == [KeyColumn(model)];
    assert ArrayUnique([KeyColumn(model)]) == [KeyColumn(model)] by {
      assert [KeyColumn(model)][..0] == [];
    }
  }

  lemma {:induction false} NoOrderColumns(wrap: string -> string, orders: seq<Order>)
    requires forall o :: o in orders ==> !HasFilledColumn(o)
    ensures OrderColumns(wrap, orders) == []
  {
    if orders != [] {
      NoOrderColumns(wrap, orders[1..]);
    }
  }

  lemma {:induction false} NothingKeptWithoutOrderColumns(wrap: string -> string, orders: seq<Order>, cols: seq<Column>)
    requires OrderColumns(wrap, orders) == []
    ensures KeptColumns(wrap, orders, cols) == []
  {
    if cols != [] {
      NothingKeptWithoutOrderColumns(wrap, orders, cols[1..]);
    }
  }
}
