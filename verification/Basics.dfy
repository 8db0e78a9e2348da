/** Sequences without repetition, prefixes, options and rounding. */
module Basics {

  datatype Option<+T> = None | Some(value: T) {
    function GetOr(default: T): T {
      match this
      case Some(v) => v
      case None => default
    }
  }

  function Max(a: int, b: int): (m: int)
    ensures a <= m && b <= m
  {
    if a < b then b else a
  }

  function MaxReal(a: real, b: real): real {
    if a < b then b else a
  }

  /** math.ceil */
  function Ceil(x: real): (n: int)
    ensures (n - 1) as real < x <= n as real
  {
    -((-x).Floor)
  }

  lemma {:induction false} Element<T>(s: set<T>) returns (x: T)
    requires s != {}
    ensures x in s
  {
    x :| x in s;
  }

  function Init<T>(s: seq<T>): seq<T>
    requires s != []
  {
    s[..|s| - 1]
  }

  function Last<T>(s: seq<T>): T
    requires s != []
  {
    s[|s| - 1]
  }

  lemma {:induction false} InitSnoc<T>(s: seq<T>, x: T)
    ensures Init(s + [x]) == s && Last(s + [x]) == x
  {
  }

  lemma {:induction false} PrefixSnoc<T>(s: seq<T>, n: nat)
    requires n < |s|
    ensures s[..n + 1] == s[..n] + [s[n]]
  {
  }

  predicate Apart<T(==)>(s: seq<T>, i: int, j: int)
    requires 0 <= i < j < |s|
  {
    s[i] != s[j]
  }

  predicate NoDup<T(==)>(s: seq<T>) {
    forall i, j :: 0 <= i < j < |s| ==> Apart(s, i, j)
  }

  function IndexOf<T(==)>(s: seq<T>, x: T): (i: nat)
    requires x in s
    ensures i < |s| && s[i] == x
    ensures forall j :: 0 <= j < i ==> s[j] != x
  {
    if s[0] == x then 0 else 1 + IndexOf(s[1..], x)
  }

  /** `s` without the first occurrence of `x`. */
  function Without<T(==,!new)>(s: seq<T>, x: T): (r: seq<T>)
    ensures x in s ==> |r| == |s| - 1
    ensures x !in s ==> r == s
    ensures NoDup(s) ==> NoDup(r) && forall y :: y in r <==> y in s && y != x
  {
    if x in s then
      var p := IndexOf(s, x);
      var r := s[..p] + s[p + 1..];
      assert NoDup(s) ==> NoDup(r) && forall y :: y in r <==> y in s && y != x by {
        if NoDup(s) { RemoveAt(s, p); }
      }
      r
    else s
  }

  lemma {:induction false} RemoveAt<T(!new)>(s: seq<T>, p: nat)
    requires p < |s| && NoDup(s)
    ensures NoDup(s[..p] + s[p + 1..])
    ensures forall y :: y in s[..p] + s[p + 1..] <==> y in s && y != s[p]
  {
    var r := s[..p] + s[p + 1..];
    forall i, j | 0 <= i < j < |r|
      ensures Apart(r, i, j)
    {
      assert Apart(s, if i < p then i else i + 1, if j < p then j else j + 1);
    }
    forall y
      ensures y in r <==> y in s && y != s[p]
    {
      if y in s && y != s[p] {
        var i :| 0 <= i < |s| && s[i] == y;
        assert y == r[if i < p then i else i - 1];
      }
      if y in r {
        var i :| 0 <= i < |r| && r[i] == y;
        if i < p { assert Apart(s, i, p); } else { assert Apart(s, p, i + 1); }
      }
    }
  }

  lemma {:induction false} FreshAt<T(!new)>(s: seq<T>, n: nat)
    requires n < |s| && NoDup(s)
    ensures s[n] !in s[..n]
  {
    forall i | 0 <= i < n
      ensures s[i] != s[n]
    {
      assert Apart(s, i, n);
    }
  }

  lemma {:induction false} ConsNoDup<T(!new)>(x: T, s: seq<T>)
    requires NoDup(s) && x !in s
    ensures NoDup([x] + s)
  {
    forall i, j | 0 <= i < j < |[x] + s|
      ensures Apart([x] + s, i, j)
    {
      if i > 0 { assert Apart(s, i - 1, j - 1); }
    }
  }

  lemma {:induction false} TailNoDup<T(!new)>(s: seq<T>)
    requires NoDup(s) && s != []
    ensures NoDup(s[1..]) && s[0] !in s[1..]
  {
    forall i, j | 0 <= i < j < |s[1..]|
      ensures Apart(s[1..], i, j)
    {
      assert Apart(s, i + 1, j + 1);
    }
    forall j | 1 <= j < |s|
      ensures s[0] != s[j]
    {
      assert Apart(s, 0, j);
    }
  }

  lemma {:induction false} ConcatNoDup<T(!new)>(a: seq<T>, b: seq<T>)
    requires NoDup(a) && NoDup(b) && forall x :: x in a ==> x !in b
    ensures NoDup(a + b)
  {
    forall i, j | 0 <= i < j < |a + b|
      ensures Apart(a + b, i, j)
    {
      if j < |a| { assert Apart(a, i, j); }
      else if i >= |a| { assert Apart(b, i - |a|, j - |a|); }
      else { assert a[i] in a; }
    }
  }

  lemma {:induction false} NoElements<T(!new)>(s: seq<T>)
    requires forall x :: x !in s
    ensures s == []
  {
    if s != [] {
      FirstIsIn(s);
    }
  }

  lemma {:induction false} FirstIsIn<T(!new)>(s: seq<T>)
    requires s != []
    ensures s[0] in s
  {
  }

  lemma {:induction false} ConcatAssociates<T>(a: seq<T>, b: seq<T>, c: seq<T>)
    ensures (a + b) + c == a + (b + c)
  {
  }
}
