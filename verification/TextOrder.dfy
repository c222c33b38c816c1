/** `compareText`: strings in lexicographic order, the order every comparator of the store is built from. */
module TextOrder {

  predicate TextLe(a: string, b: string) {
    if a == "" then true
    else if b == "" then false
    else if a[0] == b[0] then TextLe(a[1..], b[1..])
    else a[0] < b[0]
  }

  predicate TextLt(a: string, b: string) { TextLe(a, b) && a != b }

  lemma {:induction false} TextLeReflexive(a: string)
    ensures TextLe(a, a)
  {
    if a != "" { TextLeReflexive(a[1..]); }
  }

  lemma {:induction false} TextLeTotal(a: string, b: string)
    ensures TextLe(a, b) || TextLe(b, a)
  {
    if a != "" && b != "" && a[0] == b[0] { TextLeTotal(a[1..], b[1..]); }
  }

  lemma {:induction false} TextLeTransitive(a: string, b: string, c: string)
    requires TextLe(a, b) && TextLe(b, c)
    ensures TextLe(a, c)
  {
    if a != "" && b != "" && c != "" && a[0] == b[0] == c[0] {
      TextLeTransitive(a[1..], b[1..], c[1..]);
    }
  }

  lemma {:induction false} TextLeAntisymmetric(a: string, b: string)
    requires TextLe(a, b) && TextLe(b, a)
    ensures a == b
  {
    if a != "" && b != "" {
      TextLeAntisymmetric(a[1..], b[1..]);
      assert a == [a[0]] + a[1..] && b == [b[0]] + b[1..];
    }
  }

  /** All four order laws at once, for comparators that combine several keys. */
  lemma TextOrderLaws()
    ensures forall a :: TextLe(a, a)
    ensures forall a, b :: TextLe(a, b) || TextLe(b, a)
    ensures forall a, b, c :: TextLe(a, b) && TextLe(b, c) ==> TextLe(a, c)
    ensures forall a, b :: TextLe(a, b) && TextLe(b, a) ==> a == b
  {
    forall a ensures TextLe(a, a) { TextLeReflexive(a); }
    forall a, b ensures TextLe(a, b) || TextLe(b, a) { TextLeTotal(a, b); }
    forall a, b, c | TextLe(a, b) && TextLe(b, c) ensures TextLe(a, c) { TextLeTransitive(a, b, c); }
    forall a, b | TextLe(a, b) && TextLe(b, a) ensures a == b { TextLeAntisymmetric(a, b); }
  }

  /** What the order means: a prefix comes first, and else the first difference decides. */
  lemma {:induction false} TextLeIff(a: string, b: string)
    ensures TextLe(a, b) <==>
            || (|a| <= |b| && b[..|a|] == a)
            || exists i :: 0 <= i < |a| && i < |b| && a[..i] == b[..i] && a[i] < b[i]
  {
    if a != "" && b != "" && a[0] == b[0] {
      TextLeIff(a[1..], b[1..]);
      if |a| <= |b| { assert b[1..][..|a| - 1] == b[..|a|][1..] && a == [a[0]] + a[1..] && b[..|a|] == [b[0]] + b[..|a|][1..]; }
      if i :| 0 <= i < |a[1..]| && i < |b[1..]| && a[1..][..i] == b[1..][..i] && a[1..][i] < b[1..][i] {
        assert a[..i + 1] == [a[0]] + a[1..][..i] && b[..i + 1] == [b[0]] + b[1..][..i];
        assert a[i + 1] < b[i + 1];
      }
      if i :| 0 <= i < |a| && i < |b| && a[..i] == b[..i] && a[i] < b[i] {
        assert i > 0 && a[1..][..i - 1] == a[..i][1..] && b[1..][..i - 1] == b[..i][1..];
        assert a[1..][i - 1] < b[1..][i - 1];
      }
    } else if a != "" && b != "" {
      assert a[..0] == b[..0];
      assert |a| <= |b| ==> b[..|a|][0] == b[0];
      assert forall i :: 0 < i < |a| && i < |b| ==> a[..i][0] == a[0] && b[..i][0] == b[0];
    }
  }
}
