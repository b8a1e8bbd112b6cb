/** Sequence counterparts of the LINQ operators and List<T> members the
    handlers use: FirstOrDefault (by position and by value), Where, Select,
    Max and Remove. Predicates are total functions, as C# lambdas over
    plain records are. */
module Linq {

  /** A value or its absence; stands in for C# null. */
  datatype Option<+T> = None | Some(value: T)

  /** Position of the first element satisfying p, or None when there is none. */
  function FirstIndex<T>(s: seq<T>, p: T -> bool): (r: Option<nat>)
    ensures r.Some? ==> r.value < |s| && p(s[r.value])
    ensures r.Some? ==> forall j :: 0 <= j < r.value ==> !p(s[j])
    ensures r.None? <==> forall j :: 0 <= j < |s| ==> !p(s[j])
  {
    if s == [] then None
    else if p(s[0]) then Some(0)
    else
      match FirstIndex(s[1..], p)
      case None => None
      case Some(k) => Some(k + 1)
  }

  /** FirstOrDefault(p): the first element satisfying p, or None (null). */
  function First<T(!new)>(s: seq<T>, p: T -> bool): (r: Option<T>)
    ensures r.None? <==> forall x :: x in s ==> !p(x)
    ensures r.Some? ==> exists i :: 0 <= i < |s| && s[i] == r.value && p(s[i]) &&
                                    forall j :: 0 <= j < i ==> !p(s[j])
  {
    match FirstIndex(s, p)
    case None => None
    case Some(i) => Some(s[i])
  }

  /** Where(p).ToList(): the elements satisfying p, in their original order. */
  function Where<T(!new)>(s: seq<T>, p: T -> bool): (r: seq<T>)
    ensures |r| <= |s|
    ensures forall x :: x in r <==> x in s && p(x)
  {
    if s == [] then []
    else if p(s[0]) then [s[0]] + Where(s[1..], p)
    else Where(s[1..], p)
  }

  /** Select(f).ToList(): f applied to every element, position by position. */
  function Select<T, U>(s: seq<T>, f: T -> U): (r: seq<U>)
    ensures |r| == |s|
    ensures forall k :: 0 <= k < |s| ==> r[k] == f(s[k])
  {
    if s == [] then [] else [f(s[0])] + Select(s[1..], f)
  }

  /** Max(key): the largest key in a non-empty sequence (Max throws on an
      empty one, which callers handle before calling). */
  function MaxOf<T(!new)>(s: seq<T>, key: T -> int): (m: int)
    requires |s| > 0
    ensures forall x :: x in s ==> key(x) <= m
    ensures exists x :: x in s && key(x) == m
  {
    if |s| == 1 then key(s[0])
    else
      var rest := MaxOf(s[1..], key);
      assert s[1] in s[1..];
      if key(s[0]) >= rest then key(s[0]) else rest
  }

  /** List<T>.Remove(x): drops the first element equal to x; leaves the
      sequence as it is when x does not occur. */
  function Remove<T(==)>(s: seq<T>, x: T): (r: seq<T>)
    ensures x !in s ==> r == s
    ensures x in s ==> |r| == |s| - 1
  {
    if s == [] then []
    else if s[0] == x then s[1..]
    else [s[0]] + Remove(s[1..], x)
  }

  /** Remove cuts out exactly the first occurrence and keeps the order of the rest. */
  lemma {:induction false} RemoveFirst<T>(s: seq<T>, x: T, i: nat)
    requires i < |s| && s[i] == x
    requires forall j :: 0 <= j < i ==> s[j] != x
    ensures Remove(s, x) == s[..i] + s[i + 1..]
  {
    if i > 0 {
      RemoveFirst(s[1..], x, i - 1);
      assert s[1..][..i - 1] + s[1..][i..] == s[1..i] + s[i + 1..];
      assert [s[0]] + s[1..i] == s[..i];
    }
  }

  /** Filtering distributes over concatenation: Where keeps store order. */
  lemma {:induction false} WhereAppend<T(!new)>(a: seq<T>, b: seq<T>, p: T -> bool)
    ensures Where(a + b, p) == Where(a, p) + Where(b, p)
  {
    if a == [] {
      assert a + b == b;
    } else {
      assert (a + b)[1..] == a[1..] + b;
      WhereAppend(a[1..], b, p);
    }
  }

  /** Where keeps every matching element as often as it occurs, and no other. */
  lemma {:induction false} WhereCount<T(!new)>(s: seq<T>, p: T -> bool, x: T)
    ensures multiset(Where(s, p))[x] == if p(x) then multiset(s)[x] else 0
  {
    if s != [] {
      assert s == [s[0]] + s[1..];
      WhereCount(s[1..], p, x);
    }
  }

  /** Replacing the element at the first match with another matching one
      leaves the first match where it was. */
  lemma FirstIndexAfterReplace<T>(s: seq<T>, p: T -> bool, i: nat, v: T)
    requires FirstIndex(s, p) == Some(i)
    requires p(v)
    ensures FirstIndex(s[i := v], p) == Some(i)
  {
    var t := s[i := v];
    assert p(t[i]);
    assert forall j :: 0 <= j < i ==> t[j] == s[j];
  }
}
