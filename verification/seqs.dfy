// Sequence helpers shared by the server and client models: the list
// comprehension with a condition (a SQL WHERE over rows kept in memory, or
// JavaScript's Array.filter) and the first-match search (SQL `.first()`,
// Array.find).

module Seqs {
  import opened Types

  /** The elements of `s` satisfying `f`, in their original order. */
  function Filter<T(!new)>(f: T -> bool, s: seq<T>): (r: seq<T>)
    ensures |r| <= |s|
    ensures forall x :: x in r <==> x in s && f(x)
    ensures forall i :: 0 <= i < |r| ==> f(r[i])
  {
    if |s| == 0 then []
    else if f(s[0]) then [s[0]] + Filter(f, s[1..])
    else Filter(f, s[1..])
  }

  /** Filtering keeps everything when every element passes. */
  lemma {:induction false} FilterAll<T(!new)>(f: T -> bool, s: seq<T>)
    requires forall i :: 0 <= i < |s| ==> f(s[i])
    ensures Filter(f, s) == s
  {
    if |s| > 0 {
      FilterAll(f, s[1..]);
      assert [s[0]] + s[1..] == s;
    }
  }

  /** Filtering keeps nothing when no element passes. */
  lemma {:induction false} FilterNone<T(!new)>(f: T -> bool, s: seq<T>)
    requires forall i :: 0 <= i < |s| ==> !f(s[i])
    ensures Filter(f, s) == []
  {
    if |s| > 0 {
      FilterNone(f, s[1..]);
    }
  }

  /** Filtering distributes over concatenation. */
  lemma {:induction false} FilterAppend<T(!new)>(f: T -> bool, a: seq<T>, b: seq<T>)
    ensures Filter(f, a + b) == Filter(f, a) + Filter(f, b)
  {
    if |a| > 0 {
      assert (a + b)[1..] == a[1..] + b;
      FilterAppend(f, a[1..], b);
    } else {
      assert a + b == b;
    }
  }

  /** The index of the first element of `s` from `from` on that satisfies `f`. */
  function IndexFrom<T>(f: T -> bool, s: seq<T>, from: nat): (r: Option<nat>)
    requires from <= |s|
    ensures r.Some? ==> from <= r.value < |s| && f(s[r.value])
    ensures r.Some? ==> forall j :: from <= j < r.value ==> !f(s[j])
    ensures r.None? ==> forall j :: from <= j < |s| ==> !f(s[j])
    decreases |s| - from
  {
    if from == |s| then None
    else if f(s[from]) then Some(from)
    else IndexFrom(f, s, from + 1)
  }

  /** The index of the first element satisfying `f`, if any. */
  function IndexWhere<T>(f: T -> bool, s: seq<T>): (r: Option<nat>)
    ensures r.Some? ==> r.value < |s| && f(s[r.value])
    ensures r.Some? ==> forall j :: 0 <= j < r.value ==> !f(s[j])
    ensures r.None? ==> forall j :: 0 <= j < |s| ==> !f(s[j])
  {
    IndexFrom(f, s, 0)
  }

  /** The first element satisfying `f`, if any. */
  function Find<T>(f: T -> bool, s: seq<T>): (r: Option<T>)
    ensures r.Some? <==> exists i :: 0 <= i < |s| && f(s[i])
    ensures r.Some? ==> r.value in s && f(r.value)
  {
    match IndexWhere(f, s)
    case Some(i) => Some(s[i])
    case None => None
  }
}
