/**
 * The PHP runtime behaviour the pagination core relies on: scalar values,
 * `str_contains`, the truthiness rule of `Collection::filter()` for strings,
 * and the first-occurrence de-duplication of `Collection::unique()`.
 */
module Php {

  /** A PHP scalar as it appears in option arrays, bindings and raw row attributes. */
  datatype Value = Null | Bool(b: bool) | Int(i: int) | Str(s: string)

  /** `str_contains($haystack, $needle)`: the needle occurs at some offset; the empty needle occurs everywhere. */
  predicate StrContains(haystack: string, needle: string)
  {
    exists i :: 0 <= i <= |haystack| - |needle| && needle <= haystack[i..]
  }

  /** A one-character needle occurs exactly when the character does. */
  lemma StrContainsChar(haystack: string, ch: char)
    ensures StrContains(haystack, [ch]) <==> ch in haystack
  {
    if StrContains(haystack, [ch]) {
      var i :| 0 <= i <= |haystack| - 1 && [ch] <= haystack[i..];
      assert haystack[i..][0] == haystack[i];
    }
    if ch in haystack {
      var i :| 0 <= i < |haystack| && haystack[i] == ch;
      assert haystack[i..][0] == haystack[i];
    }
  }

  /** The strings that `Collection::filter()` without a callback drops. */
  predicate IsFalsyString(s: string)
  {
    s == "" || s == "0"
  }

  predicate NoDuplicates<T(==)>(s: seq<T>)
  {
    forall i, j :: 0 <= i < j < |s| ==> s[i] != s[j]
  }

  /** The position of the first occurrence of `x` in `s`. */
  function FirstIndex<T(==)>(s: seq<T>, x: T): (k: nat)
    requires x in s
    ensures k < |s| && s[k] == x && x !in s[..k]
  {
    if s[0] == x then 0 else 1 + FirstIndex(s[1..], x)
  }

  /** Appending elements does not move the first occurrence of an element already present. */
  lemma {:induction false} FirstIndexOfPrefix<T>(s: seq<T>, t: seq<T>, x: T)
    requires x in s
    ensures FirstIndex(s + t, x) == FirstIndex(s, x)
  {
    if s[0] != x {
      assert (s + t)[1..] == s[1..] + t;
      FirstIndexOfPrefix(s[1..], t, x);
    }
  }

  /**
   * `collect($s)->unique()->values()`: the distinct elements of `s`, each at
   * the place of its first occurrence, in the order of those occurrences.
   */
  function ArrayUnique<T(==)>(s: seq<T>): (r: seq<T>)
    ensures NoDuplicates(r)
    ensures forall i :: 0 <= i < |r| ==> r[i] in s
    ensures forall i :: 0 <= i < |s| ==> s[i] in r
    ensures forall i, j :: 0 <= i < j < |r| ==> FirstIndex(s, r[i]) < FirstIndex(s, r[j])
  {
    if s == [] then []
    else
      var init, last := s[..|s| - 1], s[|s| - 1];
      assert s == init + [last];
      var u := ArrayUnique(init);
      if last in u then UniqueWhenPresent(init, last, u); u
      else UniqueWhenAbsent(init, last, u); u + [last]
  }

  /** The step of ArrayUnique: the last element is already present, and the sequence stays as it is. */
  lemma UniqueWhenPresent<T>(init: seq<T>, last: T, u: seq<T>)
    requires last in u
    requires forall i :: 0 <= i < |u| ==> u[i] in init
    requires forall i :: 0 <= i < |init| ==> init[i] in u
    requires forall i, j :: 0 <= i < j < |u| ==> FirstIndex(init, u[i]) < FirstIndex(init, u[j])
    ensures forall i :: 0 <= i < |u| ==> u[i] in init + [last]
    ensures forall i :: 0 <= i < |init + [last]| ==> (init + [last])[i] in u
    ensures forall i, j :: 0 <= i < j < |u| ==> FirstIndex(init + [last], u[i]) < FirstIndex(init + [last], u[j])
  {
    UniquePrefixIndices(init, last, u);
    assert forall i :: 0 <= i < |init| ==> (init + [last])[i] == init[i];
  }

  /** The step of ArrayUnique: the last element is new, and it goes at the end. */
  lemma UniqueWhenAbsent<T>(init: seq<T>, last: T, u: seq<T>)
    requires last !in u && NoDuplicates(u)
    requires forall i :: 0 <= i < |u| ==> u[i] in init
    requires forall i :: 0 <= i < |init| ==> init[i] in u
    requires forall i, j :: 0 <= i < j < |u| ==> FirstIndex(init, u[i]) < FirstIndex(init, u[j])
    ensures NoDuplicates(u + [last])
    ensures forall i :: 0 <= i < |u + [last]| ==> (u + [last])[i] in init + [last]
    ensures forall i :: 0 <= i < |init + [last]| ==> (init + [last])[i] in u + [last]
    ensures forall i, j :: 0 <= i < j < |u + [last]| ==>
      FirstIndex(init + [last], (u + [last])[i]) < FirstIndex(init + [last], (u + [last])[j])
  {
    var r, s := u + [last], init + [last];
    assert last !in init;
    UniquePrefixIndices(init, last, u);
    assert forall i :: 0 <= i < |init| ==> s[i] == init[i];
    assert forall i :: 0 <= i < |u| ==> r[i] == u[i];
    forall i, j | 0 <= i < j < |r|
      ensures FirstIndex(s, r[i]) < FirstIndex(s, r[j])
    {
      if j < |u| {
        assert FirstIndex(init, u[i]) < FirstIndex(init, u[j]);
      } else {
        assert FirstIndex(s, r[j]) == |init|;
        assert FirstIndex(s, r[i]) == FirstIndex(init, u[i]) < |init|;
      }
    }
  }

  /** Helper for ArrayUnique: first occurrences in `init` are first occurrences in `init + [last]`. */
  lemma UniquePrefixIndices<T>(init: seq<T>, last: T, u: seq<T>)
    requires forall i :: 0 <= i < |u| ==> u[i] in init
    ensures forall i :: 0 <= i < |u| ==> FirstIndex(init + [last], u[i]) == FirstIndex(init, u[i])
    ensures last !in init ==> FirstIndex(init + [last], last) == |init|
  {
    forall i | 0 <= i < |u|
      ensures FirstIndex(init + [last], u[i]) == FirstIndex(init, u[i])
    {
      FirstIndexOfPrefix(init, [last], u[i]);
    }
    assert forall j :: 0 <= j < |init| ==> (init + [last])[j] == init[j];
  }

  /** The de-duplicated sequence starts with the first element of the input. */
  lemma UniqueKeepsHead<T>(s: seq<T>)
    requires |s| > 0
    ensures |ArrayUnique(s)| > 0 && ArrayUnique(s)[0] == s[0]
  {
    var r := ArrayUnique(s);
    assert s[0] in r;
    var k :| 0 <= k < |r| && r[k] == s[0];
    assert FirstIndex(s, r[k]) == 0 && FirstIndex(s, r[0]) >= 0;
  }
}
