/** Sets of texts listed in ascending order. */
module TextSets {
  import opened Prelude
  import opened StableSort
  import opened TextOrder

  lemma {:induction false} LeastTextExists(s: set<string>)
    requires s != {}
    ensures exists m :: m in s && forall x :: x in s ==> TextLe(m, x)
  {
    var m :| m in s;
    if s == {m} {
      TextLeReflexive(m);
    } else {
      LeastTextExists(s - {m});
      var l :| l in s - {m} && forall x :: x in s - {m} ==> TextLe(l, x);
      TextLeTotal(l, m);
      TextLeReflexive(m);
      var least := if TextLe(l, m) then l else m;
      forall x | x in s ensures TextLe(least, x) {
        if x != m {
          assert x in s - {m};
          if !TextLe(l, m) { TextLeTransitive(m, l, x); }
        }
      }
      assert least in s;
    }
  }

  function LeastText(s: set<string>): (m: string)
    requires s != {}
    ensures m in s && forall x :: x in s ==> TextLe(m, x)
  {
    LeastTextExists(s);
    TextOrderLaws();
    var m :| m in s && forall x :: x in s ==> TextLe(m, x);
    m
  }

  ghost predicate Increasing(s: seq<string>) { forall i, j :: 0 <= i < j < |s| ==> TextLt(s[i], s[j]) }

  /** `[...set].sort(compareText)`. */
  function SortedSet(s: set<string>): (r: seq<string>)
    ensures forall x :: x in r <==> x in s
    ensures Increasing(r)
    decreases |s|
  {
    if s == {} then [] else
      var m := LeastText(s);
      var rest := SortedSet(s - {m});
      assert forall i :: 0 <= i < |rest| ==> rest[i] in rest;
      [m] + rest
  }

  const TEXT_ORDER: (string, string) -> bool := (a: string, b: string) => TextLe(a, b)

  lemma IncreasingUnique(a: seq<string>, b: seq<string>)
    requires Increasing(a) && Increasing(b) && forall x :: x in a <==> x in b
    ensures a == b
  {
    TextOrderLaws();
    DistinctSameElements(a, b);
    SortedUnique(a, b, TEXT_ORDER);
  }

  lemma FilterIncreasing(s: seq<string>, p: string -> bool)
    requires Increasing(s)
    ensures Increasing(Filter(s, p))
  {
    FilterSorted(s, TEXT_ORDER, p);
    FilterDistinct(s, p);
  }
}
