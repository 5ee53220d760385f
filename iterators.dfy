/**
 The iterator adapters the change filter is built from (`Iterator::filter`,
 `Iterator::filter_map`, `Iterator::find`), modelled as functions on finite
 sequences. A Rust iterator chain is lazy, but every stage here is pure, so
 evaluating a stage eagerly gives the same answer.
 */
module Iterators {

  datatype Option<+T> = None | Some(value: T)

  /** `filter`: the elements of `s` that satisfy `keep`, in their original order. */
  function Filter<T>(s: seq<T>, keep: T -> bool): (r: seq<T>)
    ensures |r| <= |s|
    ensures forall i :: 0 <= i < |r| ==> r[i] in s && keep(r[i])
    ensures forall i :: 0 <= i < |s| && keep(s[i]) ==> s[i] in r
  {
    if s == [] then []
    else
      var rest := Filter(s[1..], keep);
      assert forall i :: 0 < i < |s| ==> s[i] == s[1..][i - 1];
      if keep(s[0]) then [s[0]] + rest else rest
  }

  /** `filter_map`: the `Some` payloads of `f` over `s`, in order; `None` results are dropped. */
  function FilterMap<T, U>(s: seq<T>, f: T -> Option<U>): (r: seq<U>)
    ensures |r| <= |s|
    ensures forall i :: 0 <= i < |r| ==> exists j :: 0 <= j < |s| && f(s[j]) == Some(r[i])
    ensures forall j :: 0 <= j < |s| && f(s[j]).Some? ==> f(s[j]).value in r
  {
    if s == [] then []
    else
      var rest := FilterMap(s[1..], f);
      assert forall i :: 0 < i < |s| ==> s[i] == s[1..][i - 1];
      match f(s[0])
      case Some(y) => [y] + rest
      case None => rest
  }

  /**
   `find`: the first element of `s` satisfying `p`, or `None` when no element
   does.
   */
  function Find<T>(s: seq<T>, p: T -> bool): (r: Option<T>)
    ensures r.None? <==> forall i :: 0 <= i < |s| ==> !p(s[i])
    ensures r.Some? ==>
      exists i :: 0 <= i < |s| && s[i] == r.value && p(s[i]) &&
        forall j :: 0 <= j < i ==> !p(s[j])
  {
    if s == [] then None
    else if p(s[0]) then Some(s[0])
    else
      var r := Find(s[1..], p);
      assert forall i :: 0 < i < |s| ==> s[i] == s[1..][i - 1];
      r
  }

  /** Once `find` has a hit in `s`, whatever follows `s` is never consulted. */
  lemma {:induction false} FindOfAppend<T>(s: seq<T>, t: seq<T>, p: T -> bool)
    requires Find(s, p).Some?
    ensures Find(s + t, p) == Find(s, p)
  {
    assert (s + t)[0] == s[0];
    if !p(s[0]) {
      assert (s + t)[1..] == s[1..] + t;
      FindOfAppend(s[1..], t, p);
    }
  }

  /** `filter` works element by element: it keeps order and multiplicity across a concatenation. */
  lemma {:induction false} FilterAppend<T>(s: seq<T>, t: seq<T>, keep: T -> bool)
    ensures Filter(s + t, keep) == Filter(s, keep) + Filter(t, keep)
  {
    if s != [] {
      assert (s + t)[0] == s[0];
      assert (s + t)[1..] == s[1..] + t;
      FilterAppend(s[1..], t, keep);
    } else {
      assert s + t == t;
    }
  }

  /** `filter_map` works element by element: it keeps order and multiplicity across a concatenation. */
  lemma {:induction false} FilterMapAppend<T, U>(s: seq<T>, t: seq<T>, f: T -> Option<U>)
    ensures FilterMap(s + t, f) == FilterMap(s, f) + FilterMap(t, f)
  {
    if s != [] {
      assert (s + t)[0] == s[0];
      assert (s + t)[1..] == s[1..] + t;
      FilterMapAppend(s[1..], t, f);
    } else {
      assert s + t == t;
    }
  }

  /** Whatever `filter` lets through came from its input and satisfies `keep`. */
  lemma FilterMember<T>(s: seq<T>, keep: T -> bool, x: T)
    requires x in Filter(s, keep)
    ensures x in s && keep(x)
  {
    var r := Filter(s, keep);
    var i :| 0 <= i < |r| && r[i] == x;
  }

  /** Whatever `filter_map` yields is the payload of some input. */
  lemma FilterMapMember<T, U>(s: seq<T>, f: T -> Option<U>, y: U) returns (x: T)
    requires y in FilterMap(s, f)
    ensures x in s && f(x) == Some(y)
  {
    var r := FilterMap(s, f);
    var i :| 0 <= i < |r| && r[i] == y;
    var j :| 0 <= j < |s| && f(s[j]) == Some(r[i]);
    x := s[j];
  }
}
