/**
 * `clearQueryAfterPaginationRetrieved`: after the inner query has run, the
 * outer query may drop its joins and its wheres (and their bindings), as the
 * three caller options decide.
 */
module ClearConstraints {
  import opened Wrappers
  import opened Php
  import opened Query

  /** `($options[$name] ?? false) === true`: only the literal `true` switches an option on. */
  predicate Flag(options: map<string, Value>, name: string)
  {
    name in options && options[name] == Bool(true)
  }

  predicate ShouldPreserveWheres(options: map<string, Value>) { Flag(options, "should_preserve_wheres") }
  predicate ShouldOmitWheres(options: map<string, Value>) { Flag(options, "should_omit_wheres") }
  predicate ShouldOmitJoins(options: map<string, Value>) { Flag(options, "should_omit_joins") }

  /** Empties a binding category that is already set; never creates one. */
  function ResetBinding(bindings: map<string, seq<Value>>, category: string): map<string, seq<Value>>
  {
    if category in bindings then bindings[category := []] else bindings
  }

  /** The join step: joins that are not null become empty, with their bindings. */
  function WithoutJoins(q: QueryState, options: map<string, Value>): QueryState
  {
    if ShouldOmitJoins(options) && q.joins.Some? then
      q.(joins := Some([]), bindings := ResetBinding(q.bindings, "join"))
    else q
  }

  /** The where-clearing condition, read after the join step. */
  predicate ShouldClearWheres(afterJoins: QueryState, options: map<string, Value>)
  {
    !ShouldPreserveWheres(options)
    && (ShouldOmitWheres(options) || afterJoins.joins.None? || |afterJoins.joins.value| == 0)
  }

  /** The state `clearQueryAfterPaginationRetrieved` leaves behind. */
  function Cleared(q: QueryState, options: map<string, Value>): QueryState
  {
    var afterJoins := WithoutJoins(q, options);
    if ShouldClearWheres(afterJoins, options) then
      afterJoins.(wheres := [], bindings := ResetBinding(afterJoins.bindings, "where"))
    else afterJoins
  }

  /** `FastPaginate::clearQueryAfterPaginationRetrieved($builder, $options)`. */
  method ClearQueryAfterPaginationRetrieved(b: Builder, options: map<string, Value>)
    modifies b
    ensures b.State() == Cleared(old(b.State()), options)
  {
    var shouldPreserveWheres := Flag(options, "should_preserve_wheres");
    var shouldOmitWheres := Flag(options, "should_omit_wheres");
    var shouldOmitJoins := Flag(options, "should_omit_joins");

    if shouldOmitJoins && b.joins.Some? {
      b.joins := Some([]);
      if "join" in b.bindings {
        b.bindings := b.bindings["join" := []];
      }
    }

    var shouldClearWheres := !shouldPreserveWheres
      && (shouldOmitWheres || b.joins.None? || |b.joins.value| == 0);

    if shouldClearWheres {
      b.wheres := [];
      if "where" in b.bindings {
        b.bindings := b.bindings["where" := []];
      }
    }
  }

  /** Clearing changes only the joins, the wheres and their two binding categories; no category appears or disappears. */
  lemma ClearingTouchesOnlyConstraints(q: QueryState, options: map<string, Value>)
    ensures var r := Cleared(q, options);
      && r == q.(joins := r.joins, wheres := r.wheres, bindings := r.bindings)
      && r.bindings.Keys == q.bindings.Keys
      && forall k :: k in q.bindings && k != "join" && k != "where" ==> r.bindings[k] == q.bindings[k]
  {
  }

  /** Joins never go from null to a list or back; they become empty only under `should_omit_joins`. */
  lemma JoinsClearedIff(q: QueryState, options: map<string, Value>)
    ensures var r := Cleared(q, options);
      && (r.joins.None? <==> q.joins.None?)
      && (r.joins != q.joins <==> ShouldOmitJoins(options) && q.joins.Some? && q.joins.value != [])
      && (r.joins.Some? ==> r.joins.value == [] || r.joins == q.joins)
      && ("join" in q.bindings ==>
            r.bindings["join"] == if ShouldOmitJoins(options) && q.joins.Some? then [] else q.bindings["join"])
  {
  }

  /** The wheres are cleared iff they are not preserved and either omitted, or no join is left after the join step. */
  lemma WheresClearedIff(q: QueryState, options: map<string, Value>)
    ensures var r := Cleared(q, options);
      var clear := !ShouldPreserveWheres(options)
        && (ShouldOmitWheres(options) || ShouldOmitJoins(options) || q.joins.None? || q.joins.value == []);
      && r.wheres == (if clear then [] else q.wheres)
      && ("where" in q.bindings ==> r.bindings["where"] == if clear then [] else q.bindings["where"])
  {
  }

  /** `should_preserve_wheres` overrides `should_omit_wheres` and the emptied joins. */
  lemma PreserveOverridesOmit(q: QueryState, options: map<string, Value>)
    requires ShouldPreserveWheres(options)
    ensures Cleared(q, options).wheres == q.wheres
    ensures "where" in q.bindings ==> Cleared(q, options).bindings["where"] == q.bindings["where"]
  {
  }

  /** An option set to anything but the literal `true` acts as if it were absent. */
  lemma NonTrueOptionIsAbsent(q: QueryState, options: map<string, Value>, name: string, v: Value)
    requires v != Bool(true)
    ensures Cleared(q, options[name := v]) == Cleared(q, options - {name})
  {
    var on, off := options[name := v], options - {name};
    assert forall n :: Flag(on, n) <==> Flag(off, n);
  }

  /** Clearing twice with the same options is clearing once. */
  lemma ClearingIdempotent(q: QueryState, options: map<string, Value>)
    ensures Cleared(Cleared(q, options), options) == Cleared(q, options)
  {
  }
}
