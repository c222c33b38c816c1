/** Shared result types and sequence helpers. */
module Prelude {

  datatype Option<+T> = None | Some(value: T) {
    function GetOr(default: T): T {
      match this
      case Some(v) => v
      case None => default
    }
  }

  datatype Result<+T, +E> = Ok(value: T) | Err(error: E)

  function Min(a: int, b: int): int { if a < b then a else b }

  function Max(a: int, b: int): int { if a < b then b else a }

  /** The first `k` elements, or all of them: `slice(0, k)`. */
  function Take<T>(s: seq<T>, k: nat): seq<T> {
    if k < |s| then s[..k] else s
  }

  function Filter<T(!new)>(s: seq<T>, p: T -> bool): (r: seq<T>)
    ensures forall x :: x in r <==> x in s && p(x)
    ensures |r| <= |s|
  {
    if s == [] then []
    else if p(s[0]) then [s[0]] + Filter(s[1..], p)
    else Filter(s[1..], p)
  }

  function Map<T, U>(f: T -> U, s: seq<T>): (r: seq<U>)
    ensures |r| == |s| && forall i :: 0 <= i < |s| ==> r[i] == f(s[i])
  {
    if s == [] then [] else [f(s[0])] + Map(f, s[1..])
  }

  function OptionSeq<T>(o: Option<T>): seq<T> { if o == None then [] else [o.value] }

  function Flatten<T>(s: seq<seq<T>>): seq<T> {
    if s == [] then [] else s[0] + Flatten(s[1..])
  }

  ghost predicate Distinct<T(!new)>(s: seq<T>) {
    forall i, j :: 0 <= i < j < |s| ==> s[i] != s[j]
  }

  function SetOf<T(!new)>(s: seq<T>): (r: set<T>)
    ensures forall x :: x in r <==> x in s
  {
    set x | x in s
  }

  lemma {:induction false} FilterAppend<T(!new)>(a: seq<T>, b: seq<T>, p: T -> bool)
    ensures Filter(a + b, p) == Filter(a, p) + Filter(b, p)
  {
    if a == [] {
      assert a + b == b;
    } else {
      assert (a + b)[1..] == a[1..] + b;
      FilterAppend(a[1..], b, p);
    }
  }

  lemma {:induction false} FilterAll<T(!new)>(s: seq<T>, p: T -> bool)
    requires forall x :: x in s ==> p(x)
    ensures Filter(s, p) == s
  {
    if s != [] { FilterAll(s[1..], p); }
  }

  lemma {:induction false} FilterNone<T(!new)>(s: seq<T>, p: T -> bool)
    requires forall x :: x in s ==> !p(x)
    ensures Filter(s, p) == []
  {
    if s != [] { FilterNone(s[1..], p); }
  }

  lemma {:induction false} FilterFilter<T(!new)>(s: seq<T>, p: T -> bool, q: T -> bool)
    requires forall x :: x in s && q(x) ==> p(x)
    ensures Filter(Filter(s, p), q) == Filter(s, q)
  {
    if s != [] {
      FilterFilter(s[1..], p, q);
      if p(s[0]) {
        var rest := Filter(s[1..], p);
        assert ([s[0]] + rest)[1..] == rest;
      }
    }
  }

  lemma {:induction false} FilterCongruent<T(!new)>(s: seq<T>, p: T -> bool, q: T -> bool)
    requires forall x :: x in s ==> p(x) == q(x)
    ensures Filter(s, p) == Filter(s, q)
  {
    if s != [] { FilterCongruent(s[1..], p, q); }
  }

  lemma {:induction false} FlattenAppend<T>(a: seq<seq<T>>, b: seq<seq<T>>)
    ensures Flatten(a + b) == Flatten(a) + Flatten(b)
  {
    if a == [] {
      assert a + b == b;
    } else {
      assert (a + b)[1..] == a[1..] + b;
      FlattenAppend(a[1..], b);
    }
  }

  lemma {:induction false} FlattenFilter<T(!new)>(s: seq<seq<T>>, p: T -> bool)
    ensures Filter(Flatten(s), p) == Flatten(Map((x: seq<T>) => Filter(x, p), s))
  {
    var f := (x: seq<T>) => Filter(x, p);
    if s != [] {
      FlattenFilter(s[1..], p);
      FilterAppend(s[0], Flatten(s[1..]), p);
      assert Map(f, s)[1..] == Map(f, s[1..]);
    }
  }

  lemma {:induction false} InFlatten<T(!new)>(s: seq<seq<T>>, x: T)
    ensures x in Flatten(s) <==> exists i :: 0 <= i < |s| && x in s[i]
  {
    if s != [] {
      InFlatten(s[1..], x);
      if x in Flatten(s[1..]) {
        var i :| 0 <= i < |s[1..]| && x in s[1..][i];
        assert x in s[i + 1];
      }
      if i :| 0 <= i < |s| && x in s[i] {
        if i > 0 { assert x in s[1..][i - 1]; }
      }
    }
  }

  lemma {:induction false} FilterDistinct<T(!new)>(s: seq<T>, p: T -> bool)
    requires Distinct(s)
    ensures Distinct(Filter(s, p))
  {
    if s != [] {
      FilterDistinct(s[1..], p);
      assert forall x :: x in s[1..] ==> x != s[0];
    }
  }

  lemma {:induction false} CountOnce<T(!new)>(s: seq<T>, x: T)
    requires Distinct(s)
    ensures multiset(s)[x] == if x in s then 1 else 0
  {
    if s != [] {
      assert s == [s[0]] + s[1..];
      CountOnce(s[1..], x);
      if x == s[0] { assert x !in s[1..]; }
    }
  }

  lemma DistinctSameElements<T(!new)>(a: seq<T>, b: seq<T>)
    requires Distinct(a) && Distinct(b) && forall x :: x in a <==> x in b
    ensures multiset(a) == multiset(b)
  {
    forall x ensures multiset(a)[x] == multiset(b)[x] {
      CountOnce(a, x);
      CountOnce(b, x);
    }
  }

  /** A whole run: the actions applied one after the other. */
  function RunSteps<S, A>(step: (S, A) -> S, s: S, actions: seq<A>): S
    decreases actions
  {
    if actions == [] then s else RunSteps(step, step(s, actions[0]), actions[1..])
  }

  /** What every allowed step keeps, every run of allowed steps keeps. */
  lemma {:induction false} RunInvariant<S(!new), A(!new)>(
    step: (S, A) -> S, s: S, actions: seq<A>, inv: S -> bool, allowed: A -> bool)
    requires inv(s) && forall a :: a in actions ==> allowed(a)
    requires forall t, a :: inv(t) && allowed(a) ==> inv(step(t, a))
    ensures inv(RunSteps(step, s, actions))
    decreases actions
  {
    if actions != [] {
      assert actions[0] in actions;
      RunInvariant(step, step(s, actions[0]), actions[1..], inv, allowed);
    }
  }

  lemma TwoSteps<S, A>(step: (S, A) -> S, s: S, run: seq<A>)
    requires |run| >= 2
    ensures RunSteps(step, s, run) == RunSteps(step, step(step(s, run[0]), run[1]), run[2..])
  {
    assert run[1..][1..] == run[2..];
  }

  lemma FourSteps<S, A>(step: (S, A) -> S, s: S, run: seq<A>)
    requires |run| == 4
    ensures RunSteps(step, s, run) == step(step(step(step(s, run[0]), run[1]), run[2]), run[3])
  {
    TwoSteps(step, s, run);
    TwoSteps(step, step(step(s, run[0]), run[1]), run[2..]);
  }
}
