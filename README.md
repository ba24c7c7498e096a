# fast-paginate, modelled in Dafny

This project models the deferred-join pagination of `Hammerstone\FastPaginate`.
A normal paginated query makes the database sort, filter and limit full rows.
`fastPaginate` and `simpleFastPaginate` work in two steps instead:

1. They paginate a clone of the query that selects only the primary key, plus any aliased column that an
   ORDER BY depends on.
2. They filter the original query to exactly those keys and fetch it as page 1.

The result carries the page statistics of the first step and the rows of the second. A query with HAVING,
GROUP BY or UNION, a page size of `-1`, or a kept column with a `?` placeholder goes to the builder's plain
pagination method unchanged.

Modules, one per component:

- `Wrappers` (wrappers.dfy): `Option`, for PHP's `null`.
- `Php` (php.dfy): the PHP behaviour the core depends on. This covers scalar values, `str_contains`, and
  the strings that `Collection::filter()` treats as falsy. It also covers `Collection::unique()`, which keeps
  first occurrences.
- `Query` (query.dfy): the builder state as a value (`QueryState`) and the model's table, key name and key
  type. It also holds the `Builder` class, whose fields are the clause lists the core reads and reassigns.
  Its methods stand in for the Laravel mutators the core calls: `clone`, `select`, `setEagerLoads`,
  `whereIn` and `whereIntegerInRaw`.
- `InnerColumns` (inner_columns.dfy): `getInnerSelectColumns`, as a pure function. It returns
  `Columns(...)` or `Incompatible`. `Incompatible` stands for the exception the source throws.
- `ClearConstraints` (clear_constraints.dfy): `clearQueryAfterPaginationRetrieved`. It has two parts. The
  pure function `Cleared` says what the outer query becomes. The imperative method is proved to leave the
  builder in exactly that state.
- `FastPaginate` (fast_paginate.dfy): the rewrite/fallback closure that both entry points share, as one
  method parameterised by the pagination method (`Paginate` or `SimplePaginate`). Besides the paginator, it
  returns the list of pagination-primitive invocations it made, in order.
- `Scenarios` (scenarios.dfy): concrete cases on the `users` table of the integration tests. They use a
  grammar that wraps identifiers in double quotes.

Outside collaborators are parameters:

- The grammar's `wrap` is an arbitrary function `string -> string`, held by the builder.
- The database is a `Database` value holding two total functions. `paginate` returns a length-aware
  paginator and `simplePaginate` returns a simple paginator, each as a function of the query state and the
  page arguments.

So every property below, except the `Scenarios` lemmas, holds for every grammar and every database. Three
`Scenarios` lemmas fix the grammar to double-quote wrapping (`QuoteIdentifier`).

The placeholder check (src/FastPaginate.php:141-149) reads an Expression's value or a plain column's name as
written. It does not read the grammar-wrapped form that the alias test at lines 127-140 uses.
`InnerColumns.IncompatibleIffRetainedPlaceholder` follows the code.

## Model

| member | source | states |
|---|---|---|
| `Php.ArrayUnique` | src/FastPaginate.php:150-153 | The result has no duplicates and the same elements as the input, ordered by their first occurrence in the input. |
| `Php.UniqueKeepsHead` | src/FastPaginate.php:150-151 | De-duplication keeps the input's first element first, so the prepended key column stays at the head. |
| `Php.StrContainsChar` | src/FastPaginate.php:146 | `str_contains($column, '?')` holds exactly when the character `?` occurs in the text. |
| `InnerColumns.InnerSelectColumns` | src/FastPaginate.php:108-154 | `getInnerSelectColumns`: `Incompatible` for the exception, otherwise the de-duplicated key column plus surviving entries. Its contract is the lemmas `IncompatibleIffRetainedPlaceholder`, `InnerColumnsStartWithKey`, `InnerColumnsMembership`, `InnerColumnsKeepOrder` and `OnlyKeyWithoutOrderColumns`. |
| `InnerColumns.OrderColumns` | src/FastPaginate.php:118-125 | A string is a wrapped order column iff some order has a column that PHP reads as truthy (not `""`, not `"0"`) and that renders to that string. Orders without a column are skipped. |
| `InnerColumns.AliasesSomeOrderIff` | src/FastPaginate.php:130-139 | The `foreach` returns true iff the column text contains `"as "` followed by one of the wrapped orders. |
| `InnerColumns.RetainedIff` | src/FastPaginate.php:118-140 | A select entry survives iff its rendered form contains `"as "` followed by the rendered column of some order that has a truthy column. The rendered form is the Expression's value or the wrapped name. |
| `InnerColumns.KeptColumns` | src/FastPaginate.php:127-140 | An entry is kept iff it is in the select list and survives the filter. The kept list is no longer than the select list. |
| `InnerColumns.KeptColumnsKeepOrder` | src/FastPaginate.php:127-140 | Filtering keeps the relative order of first occurrences. |
| `InnerColumns.HasPlaceholderIff` | src/FastPaginate.php:141-149 | The `each` pass throws iff some kept entry's text contains `?`. |
| `InnerColumns.IncompatibleIffRetainedPlaceholder` | src/FastPaginate.php:127-149 | The query is incompatible iff some select entry that survives the filter holds a `?`. A `?` in a dropped entry does not count. |
| `InnerColumns.InnerColumnsStartWithKey` | src/FastPaginate.php:150-153 | The inner select list starts with `"$table.$key"` and has no duplicates. |
| `InnerColumns.InnerColumnsMembership` | src/FastPaginate.php:127-153 | An entry is in the inner select list iff it is the key column or a surviving select entry. |
| `InnerColumns.InnerColumnsKeepOrder` | src/FastPaginate.php:127-153 | After the key column, the surviving entries appear in the relative order they had in the select list. |
| `InnerColumns.OnlyKeyWithoutOrderColumns` | src/FastPaginate.php:118-153 | When no order has a truthy column, the inner select list is exactly `["$table.$key"]`. |
| `InnerColumns.NoOrderColumns` | src/FastPaginate.php:118-125 | Orders that all lack a truthy column give no wrapped order columns. |
| `ClearConstraints.Cleared` | src/FastPaginate.php:163-189 | The outer query's state after clearing. Its contract is the lemmas `ClearingTouchesOnlyConstraints`, `JoinsClearedIff`, `WheresClearedIff`, `PreserveOverridesOmit`, `NonTrueOptionIsAbsent` and `ClearingIdempotent`. |
| `ClearConstraints.ClearQueryAfterPaginationRetrieved` | src/FastPaginate.php:163-189 | The builder's new state is `Cleared` of its old state under the given options. |
| `ClearConstraints.ClearingTouchesOnlyConstraints` | src/FastPaginate.php:163-189 | Clearing changes only the joins, the wheres and the `join`/`where` bindings. Every other binding category is unchanged, and no category is created or removed. |
| `ClearConstraints.JoinsClearedIff` | src/FastPaginate.php:167-177 | Null joins stay null. Joins change iff `should_omit_joins` is literally true and they are a non-empty list; they then become empty. `bindings['join']`, when set, is emptied whenever that option is literally true and the joins are not null, including when they are already `[]`. |
| `ClearConstraints.WheresClearedIff` | src/FastPaginate.php:165-188 | The wheres, and `bindings['where']` when set, are emptied iff the wheres are not preserved and one of three holds: they are omitted, joins are omitted, or the original joins are null or empty. Otherwise they are unchanged. |
| `ClearConstraints.PreserveOverridesOmit` | src/FastPaginate.php:179-188 | With `should_preserve_wheres` true, the wheres and their bindings are kept, whatever the other options. |
| `ClearConstraints.NonTrueOptionIsAbsent` | src/FastPaginate.php:165-167 | An option set to any value but the literal `true` has the same effect as an absent option. |
| `ClearConstraints.ClearingIdempotent` | src/FastPaginate.php:163-189 | Clearing a second time with the same options changes nothing. |
| `Query.Builder.Clone` | src/FastPaginate.php:73 | `clone()` yields a fresh builder with the same state, model and grammar. |
| `Query.Builder.Select` | src/FastPaginate.php:76 | `select` replaces the select list and sets `bindings['select']` to `[]`, and changes nothing else. |
| `Query.Builder.SetEagerLoads` | src/FastPaginate.php:80 | `setEagerLoads` replaces only the eager loads. |
| `Query.Builder.WhereIntegerInRaw` | src/FastPaginate.php:89 | Appends exactly one integer "in" predicate and changes nothing else. |
| `Query.Builder.WhereIn` | src/FastPaginate.php:91 | Appends exactly one generic "in" predicate and changes nothing else. |
| `FastPaginate.Run` | src/FastPaginate.php:49-50 | `$this->{$paginationMethod}(...)` gives a length-aware paginator iff the method is `paginate`. |
| `FastPaginate.KeyValues` | src/FastPaginate.php:84 | The ids are the raw key attributes of the inner page's rows (null when missing), one per row, in page order. |
| `FastPaginate.KeyFilter` | src/FastPaginate.php:88-92 | The appended predicate is on `"$table.$key"` with the ids. It is in the integer form iff the key type is `'int'` or `'integer'`. |
| `FastPaginate.Assemble` | src/FastPaginate.php:15-35 | The result is the inner paginator with its items replaced by the outer rows. It keeps the inner paginator's kind, total, perPage, currentPage, options and hasMorePages. |
| `FastPaginate.FallsBack` | src/FastPaginate.php:49-69 | The fallback condition: HAVING, GROUP BY or UNION present, `perPage === -1`, or an incompatible inner selection. Its contract is the fallback case of `FastPaginate.FastPaginate`. |
| `FastPaginate.InnerQuery` | src/FastPaginate.php:73-81 | The key-only inner query. Its contract is `InnerQueryShape` and `EagerLoadsDeferredToOuterQuery`. |
| `FastPaginate.OuterQuery` | src/FastPaginate.php:86-92 | The cleared query with the key filter appended. Its contract is `OuterQueryShape` and `EagerLoadsDeferredToOuterQuery`. |
| `FastPaginate.InnerQueryShape` | src/FastPaginate.php:73-81 | The inner query selects the given columns and has `bindings['select'] == []`. It keeps the orders, wheres, joins, havings, groups, unions and every other binding category. |
| `FastPaginate.EagerLoadsDeferredToOuterQuery` | src/FastPaginate.php:73-92 | The inner query has no eager loads. The outer query keeps the original eager loads. |
| `FastPaginate.OuterQueryShape` | src/FastPaginate.php:86-92 | The outer query keeps the select list, orders, havings, groups and unions. Its wheres are the cleared wheres followed by exactly one key filter. |
| `FastPaginate.FastPaginate` | src/FastPaginate.php:38-101 | Two cases. (1) HAVING/GROUP BY/UNION present, `perPage === -1`, or an incompatible column: one call of the plain method with the unmodified arguments, its result returned and the modelled builder state unchanged. (2) Otherwise exactly two calls, in this order. First the same method on the key-only clone (inner columns, no eager loads) with `['*']`. Then `simplePaginate` at page 1, with the same perPage, columns and pageName, on the cleared builder plus the key filter. The modelled builder state ends as that outer query. The result is the inner paginator holding the outer rows. |
| `Scenarios.OrderByNameSelectsKeyOnly` | tests/Integration/BuilderTest.php:60-70 | `User::query()->orderBy('name')` selects only `users.id` in the inner query, for every grammar. |
| `Scenarios.OrderIsPropagated` | tests/Integration/BuilderTest.php:60-70 | The outer query of that call keeps `order by name` and has the single where `users.id in (ids)`, in the integer form. |
| `Scenarios.AliasedExpressionSurvives` | src/FastPaginate.php:127-153 | Under double-quote wrapping, an Expression aliased `as "full"` survives an order by `full`, after `users.id`; `*` is dropped. |
| `Scenarios.PlaceholderInAliasIsIncompatible` | src/FastPaginate.php:141-149 | A surviving aliased Expression that holds `?` makes the query incompatible. |
| `Scenarios.PlaceholderInDroppedColumnIsIgnored` | src/FastPaginate.php:127-149 | A `?` in an Expression that does not survive leaves the selection at `users.id`. |

## Left out

- SQL execution is out of scope. So are the database's ORDER BY / LIMIT / OFFSET semantics and the SQL
  strings logged in the integration tests. The database appears only as the two functions of `Database`, so
  the model does not prove that the outer page holds the same keys, in the same order, as the plain
  paginator would.
- Laravel internals are left out: the grammar's actual wrapping rules, `Expression::getValue`, `filled()`,
  and how paginators compute `lastPage` or slice their items. `wrap` is an arbitrary function. An
  Expression renders as its value.
- The builder's limit and offset are not modelled. Neither are the writes that Laravel's `paginate` and
  `simplePaginate` make to them. `QueryState` holds only the clauses the deferred join reads or rewrites. So
  "unchanged" and "ends in that state" in the `FastPaginate.FastPaginate` row concern those clauses only.
- `Query.Builder.Select` does not model the `select` bindings that Laravel's `select` adds for subquery
  columns. The inner select list holds only column names and Expressions, which add none.
- `Query.Builder.WhereIn` does not add the `where` bindings that Laravel's `whereIn` adds, and
  `Query.Builder.WhereIntegerInRaw` does not cast the ids with `(int)`. Both only record the predicate and
  the raw ids.
- `Php.ArrayUnique` compares with structural equality. PHP's loose comparison (`SORT_REGULAR`) also treats
  numeric strings such as `"1"` and `"01"` as equal. On Laravel versions whose `Expression` has
  `__toString`, it also treats an Expression as equal to a string with the same text.
- `null` select lists, orders, havings, groups and unions are the empty sequence. Only `joins` keeps
  `null` apart from `[]`, because the code tests both.
- ORM hydration (`newCollection`, `getRawOriginal` casts), eager loading itself and relationship queries are
  framework behaviour. A row is its map of raw attributes, and eager loads are a list of relation names.
- `Closure::fromCallable(...)->call($this, ...)`, macro registration and the two public entry points'
  argument defaults are PHP runtime plumbing. Both entry points are one method parameterised by the
  pagination method.
- Concurrency and timing are single-threaded and synchronous in the source and are not modelled.
