/** Anchor normalisation: the text rules behind every bundle identity, and exactly when they are idempotent. */
module Anchors {
  import opened Prelude

  datatype Anchor =
    | Page(route: string)
    | Flow(name: string)
    | El(role: string, name: string, ordinal: Option<int>)
    | Platform(platform: string)
    | Selector(literal: string)
    | ErrorText(message: string)

  // ----- text rules -----

  /** The characters of `\s`, which are also those `trim` removes. */
  predicate IsSpace(c: char) {
    || '\t' <= c <= '\r'
    || c == ' '
    || c == '\U{00a0}' || c == '\U{1680}' || '\U{2000}' <= c <= '\U{200a}'
    || c == '\U{2028}' || c == '\U{2029}' || c == '\U{202f}'
    || c == '\U{205f}' || c == '\U{3000}' || c == '\U{feff}'
  }

  predicate IsDigit(c: char) { '0' <= c <= '9' }

  predicate IsBullet(c: char) { c == '\U{2022}' || c == '\U{00b7}' || c == '\U{25cf}' }

  function LowerChar(c: char): char {
    if 'A' <= c <= 'Z' then (c as int + 32) as char else c
  }

  function Lower(s: string): (r: string)
    ensures |r| == |s| && forall i :: 0 <= i < |s| ==> r[i] == LowerChar(s[i])
  {
    if s == "" then "" else [LowerChar(s[0])] + Lower(s[1..])
  }

  function TrimStart(s: string): (r: string)
    ensures |r| <= |s| && r == s[|s| - |r|..]
    ensures r != "" ==> !IsSpace(r[0])
    ensures s != "" && IsSpace(s[0]) ==> |r| < |s|
    ensures s != "" && !IsSpace(s[|s| - 1]) ==> r != ""
  {
    if s != "" && IsSpace(s[0]) then TrimStart(s[1..]) else s
  }

  function TrimEnd(s: string): (r: string)
    ensures |r| <= |s| && r == s[..|r|]
    ensures r != "" ==> !IsSpace(r[|r| - 1])
    ensures s != "" && IsSpace(s[|s| - 1]) ==> |r| < |s|
    ensures s != "" && !IsSpace(s[|s| - 1]) ==> r == s
  {
    if s != "" && IsSpace(s[|s| - 1]) then TrimEnd(s[..|s| - 1]) else s
  }

  function Trim(s: string): string { TrimEnd(TrimStart(s)) }

  /** `replace(/\s+/g, ' ')`. */
  function Collapse(s: string): string
    decreases |s|
  {
    if s == "" then ""
    else if IsSpace(s[0]) then " " + Collapse(TrimStart(s))
    else [s[0]] + Collapse(s[1..])
  }

  function HumanText(s: string): string { Lower(Collapse(Trim(s))) }

  /** The part before the first `c`: `slice(0, indexOf(c))`, or everything. */
  function Before(s: string, c: char): (r: string)
    ensures |r| <= |s| && r == s[..|r|] && c !in r
    ensures |r| < |s| ==> s[|r|] == c
  {
    if s == "" || s[0] == c then "" else [s[0]] + Before(s[1..], c)
  }

  /** `replace(/\/+$/, '')`. */
  function StripSlashes(s: string): (r: string)
    ensures |r| <= |s| && r == s[..|r|]
    ensures r != "" ==> r[|r| - 1] != '/'
    ensures s != "" && s[|s| - 1] != '/' ==> r == s
    ensures forall i :: |r| <= i < |s| ==> s[i] == '/'
  {
    if s != "" && s[|s| - 1] == '/' then StripSlashes(s[..|s| - 1]) else s
  }

  function RoutePath(s: string): string {
    var path := Before(s, '?');
    if path == "/" then path else StripSlashes(path)
  }

  /** The route part of clean text: no fragment, no trailing slash on the path, the query as it is. */
  function RouteOf(h: string): string {
    var withoutHash := Before(h, '#');
    RoutePath(withoutHash) + withoutHash[|Before(withoutHash, '?')|..]
  }

  function NormalizeRoute(route: string): string { RouteOf(HumanText(route)) }

  /** Start of the run of characters satisfying `p` that ends just before `end`. */
  function RunStart(s: string, end: nat, p: char -> bool): (i: nat)
    requires end <= |s|
    ensures i <= end
  {
    if end > 0 && p(s[end - 1]) then RunStart(s, end - 1, p) else end
  }

  function HasDigit(s: string): bool { exists i :: 0 <= i < |s| && IsDigit(s[i]) }

  /** `(12)` or `[12]`, given that the text ends in a closing bracket. */
  function BracketBadge(s: string): (r: Option<nat>)
    requires s != ""
    ensures r.Some? ==> r.value < |s|
  {
    var last := |s| - 1;
    var i := RunStart(s, last, (d: char) => IsSpace(d) || IsDigit(d));
    if i > 0 && s[i - 1] == (if s[last] == ')' then '(' else '[') && HasDigit(s[i..last]) then Some(i - 1) else None
  }

  /** A space and a number, given that the text ends in a digit. */
  function DigitBadge(s: string): (r: Option<nat>)
    ensures r.Some? ==> r.value < |s|
  {
    var i := RunStart(s, |s|, (d: char) => IsDigit(d));
    if i > 0 && IsSpace(s[i - 1]) then Some(i - 1) else None
  }

  /** Where a trailing badge starts: `(12)`, `[12]`, a bullet, or a space and a number. */
  function BadgeStart(s: string): (r: Option<nat>)
    ensures r.Some? ==> r.value < |s|
  {
    if s == "" then None
    else
      var c := s[|s| - 1];
      if IsBullet(c) then Some(|s| - 1)
      else if c == ')' || c == ']' then BracketBadge(s)
      else if IsDigit(c) then DigitBadge(s)
      else None
  }

  function StripBadge(s: string): string {
    match BadgeStart(s)
    case None => s
    case Some(i) => s[..i]
  }

  function NameOf(c: string): string { Lower(TrimEnd(StripBadge(c))) }

  function AccessibleName(raw: string): string { NameOf(Collapse(Trim(raw))) }

  /** `replace(/\d+/g, '#')`. */
  function DigitsToHash(s: string): string {
    if s == "" then ""
    else if IsDigit(s[0]) then
      if |s| > 1 && IsDigit(s[1]) then DigitsToHash(s[1..]) else "#" + DigitsToHash(s[1..])
    else [s[0]] + DigitsToHash(s[1..])
  }

  function Normalize(a: Anchor): Anchor {
    match a
    case Page(route) => Page(NormalizeRoute(route))
    case Flow(name) => Flow(AccessibleName(name))
    case El(role, name, ordinal) => El(HumanText(role), AccessibleName(name), ordinal)
    case Platform(_) => a
    case Selector(literal) => Selector(Trim(literal))
    case ErrorText(message) => ErrorText(DigitsToHash(HumanText(message)))
  }

  // ----- normal forms -----

  ghost predicate Collapsed(s: string) {
    && (forall i :: 0 <= i < |s| && IsSpace(s[i]) ==> s[i] == ' ')
    && (forall i, j :: 0 <= i < j < |s| && j == i + 1 && IsSpace(s[i]) ==> !IsSpace(s[j]))
  }

  ghost predicate Lowered(s: string) { forall i :: 0 <= i < |s| ==> !('A' <= s[i] <= 'Z') }

  predicate OpenEnded(s: string) { s != "" && IsSpace(s[|s| - 1]) }

  /** Collapsed, lower-case and without a leading space: all that is left to remove is a trailing space. */
  ghost predicate NearForm(s: string) {
    Collapsed(s) && Lowered(s) && (s != "" ==> !IsSpace(s[0]))
  }

  /**
   * A clean route whose normal form will end in a space: up to the fragment, the route ends in a space, or,
   * when it has no query to protect them, in a space and slashes.
   */
  predicate DanglingSpace(clean: string) {
    var w := Before(clean, '#');
    exists i :: 0 <= i < |w| && IsSpace(w[i]) && if '?' in w then i == |w| - 1 else forall k :: i < k < |w| ==> w[k] == '/'
  }

  /** A clean name with a trailing badge in front of its trailing badge. */
  predicate TwoBadges(clean: string) {
    BadgeStart(clean).Some? && BadgeStart(TrimEnd(clean[..BadgeStart(clean).value])).Some?
  }

  /** The anchors whose normal form is one: no route with a dangling space, no name with two badges. */
  predicate Stable(a: Anchor) {
    match a
    case Page(route) => !DanglingSpace(HumanText(route))
    case Flow(name) => !TwoBadges(Collapse(Trim(name)))
    case El(_, name, _) => !TwoBadges(Collapse(Trim(name)))
    case _ => true
  }

  /** An anchor already normalised comes back unchanged exactly in this form. */
  predicate StableForm(a: Anchor) {
    match a
    case Page(route) => !OpenEnded(route)
    case Flow(name) => BadgeStart(name) == None
    case El(_, name, _) => BadgeStart(name) == None
    case _ => true
  }

  lemma ConsCollapsed(c: char, t: string)
    requires Collapsed(t)
    requires IsSpace(c) ==> c == ' ' && (t == "" || !IsSpace(t[0]))
    ensures Collapsed([c] + t)
  {
    var r := [c] + t;
    forall i | 0 <= i < |r| ensures r[i] == (if i == 0 then c else t[i - 1]) {}
  }

  lemma {:induction false} CollapseIsCollapsed(s: string)
    ensures Collapsed(Collapse(s))
    ensures |Collapse(s)| <= |s|
    ensures s != "" && !IsSpace(s[0]) ==> Collapse(s) != "" && Collapse(s)[0] == s[0]
    decreases |s|
  {
    if s != "" {
      var rest := if IsSpace(s[0]) then TrimStart(s) else s[1..];
      CollapseIsCollapsed(rest);
      if rest == "" { assert Collapse(rest) == ""; }
      ConsCollapsed(if IsSpace(s[0]) then ' ' else s[0], Collapse(rest));
    }
  }

  lemma {:induction false} CollapseKeepsEnd(s: string)
    requires s != "" && !IsSpace(s[|s| - 1])
    ensures Collapse(s) != "" && Collapse(s)[|Collapse(s)| - 1] == s[|s| - 1]
    decreases |s|
  {
    var rest := if IsSpace(s[0]) then TrimStart(s) else s[1..];
    if rest != "" { CollapseKeepsEnd(rest); }
  }

  lemma {:induction false} CollapseFixed(s: string)
    requires Collapsed(s)
    ensures Collapse(s) == s
    decreases |s|
  {
    if s != "" {
      CollapseFixed(s[1..]);
      if IsSpace(s[0]) {
        assert TrimStart(s) == s[1..] by {
          if |s| > 1 { assert !IsSpace(s[1]); }
        }
      }
    }
  }

  lemma LowerFixed(s: string)
    requires Lowered(s)
    ensures Lower(s) == s
  {
  }

  lemma LowerKeepsForm(s: string)
    requires Collapsed(s)
    ensures Collapsed(Lower(s)) && Lowered(Lower(s))
    ensures s != "" && !IsSpace(s[0]) ==> !IsSpace(Lower(s)[0])
    ensures OpenEnded(Lower(s)) == OpenEnded(s)
  {
    var r := Lower(s);
    forall i | 0 <= i < |s| ensures IsSpace(r[i]) == IsSpace(s[i]) && !('A' <= r[i] <= 'Z') {}
  }

  lemma TrimmedForm(s: string)
    ensures Trim(s) != "" ==> !IsSpace(Trim(s)[0]) && !IsSpace(Trim(s)[|Trim(s)| - 1])
    ensures |Trim(s)| <= |s|
    ensures OpenEnded(s) ==> |Trim(s)| < |s|
    ensures !OpenEnded(s) && (s != "" ==> !IsSpace(s[0])) ==> Trim(s) == s
  {
    var t := TrimStart(s);
    if OpenEnded(s) && t != "" { assert t[|t| - 1] == s[|s| - 1]; }
  }

  lemma CollapseLowerForm(t: string)
    requires t == "" || (!IsSpace(t[0]) && !IsSpace(t[|t| - 1]))
    ensures NearForm(Lower(Collapse(t))) && !OpenEnded(Lower(Collapse(t)))
    ensures |Lower(Collapse(t))| <= |t|
  {
    CollapseIsCollapsed(t);
    if t != "" { CollapseKeepsEnd(t); }
    LowerKeepsForm(Collapse(t));
  }

  lemma HumanTextForm(s: string)
    ensures NearForm(HumanText(s)) && !OpenEnded(HumanText(s))
    ensures |HumanText(s)| <= |Trim(s)|
  {
    hide Trim, Collapse, Lower, NearForm;
    TrimmedForm(s);
    CollapseLowerForm(Trim(s));
  }

  lemma HumanTextFixed(s: string)
    requires NearForm(s) && !OpenEnded(s)
    ensures HumanText(s) == s
  {
    TrimmedForm(s);
    CollapseFixed(s);
    LowerFixed(s);
  }

  lemma PrefixKeepsForm(s: string, n: nat)
    requires NearForm(s) && n <= |s|
    ensures NearForm(s[..n])
  {
  }

  // ----- routes -----

  /** The normal form of a route splits as a stripped path and the untouched query. */
  lemma RouteSplit(h: string)
    requires NearForm(h)
    ensures NearForm(RouteOf(h)) && '#' !in RouteOf(h) && |RouteOf(h)| <= |h|
    ensures !OpenEnded(RouteOf(h)) ==> RouteOf(RouteOf(h)) == RouteOf(h)
  {
    hide NearForm;
    var w := Before(h, '#');
    var full := Before(w, '?');
    var p := RoutePath(w);
    var q := w[|full|..];
    var r := p + q;
    assert w == full + q;
    assert p == full[..|p|] == h[..|p|];
    assert q == h[|full|..|w|];
    JoinForm(h, |p|, |full|, |w|);
    NoHash(r);
    BeforeUnique(p, q, '?');
    assert RoutePath(r) == p;
    assert r[|p|..] == q;
  }

  lemma {:induction false} BeforeUnique(p: string, q: string, c: char)
    requires c !in p && (q == "" || q[0] == c)
    ensures Before(p + q, c) == p
  {
    if p == "" {
      assert p + q == q;
    } else {
      assert (p + q)[1..] == p[1..] + q;
      BeforeUnique(p[1..], q, c);
    }
  }

  /** Cutting the stretch between `i` and `j` keeps the form when the cut ends at a visible character. */
  lemma JoinForm(h: string, i: nat, j: nat, k: nat)
    requires NearForm(h) && i <= j <= k <= |h|
    requires j < k ==> !IsSpace(h[j])
    ensures NearForm(h[..i] + h[j..k])
  {
    var r := h[..i] + h[j..k];
    forall x | 0 <= x < |r| ensures r[x] == (if x < i then h[x] else h[x - i + j]) {}
    forall x | 0 <= x < |r| - 1 && IsSpace(r[x]) ensures !IsSpace(r[x + 1]) {
      if x + 1 < i { assert r[x + 1] == h[x + 1]; }
      else if x + 1 == i { assert r[x + 1] == h[j]; }
      else { assert r[x + 1] == h[x - i + j + 1]; }
    }
  }

  lemma RouteStableIff(route: string)
    ensures
      var r := NormalizeRoute(route);
      NormalizeRoute(r) == r <==> !OpenEnded(r)
  {
    HumanTextForm(route);
    RouteSplit(HumanText(route));
    var r := NormalizeRoute(route);
    if OpenEnded(r) {
      TrimmedForm(r);
      HumanTextForm(r);
      RouteSplit(HumanText(r));
    } else {
      HumanTextFixed(r);
    }
  }

  lemma NoHash(r: string)
    requires '#' !in r
    ensures Before(r, '#') == r
  {
    BeforeUnique(r, "", '#');
    assert r + "" == r;
  }

  // ----- accessible names -----

  lemma NameOfForm(c: string)
    requires Collapsed(c) && (c != "" ==> !IsSpace(c[0]))
    ensures NearForm(NameOf(c)) && !OpenEnded(NameOf(c))
  {
    var t := TrimEnd(StripBadge(c));
    assert t == c[..|t|];
    LowerKeepsForm(t);
  }

  lemma NameForm(raw: string)
    ensures NearForm(AccessibleName(raw)) && !OpenEnded(AccessibleName(raw))
  {
    TrimmedForm(raw);
    CollapseIsCollapsed(Trim(raw));
    NameOfForm(Collapse(Trim(raw)));
  }

  lemma NameStableIff(raw: string)
    ensures
      var n := AccessibleName(raw);
      AccessibleName(n) == n <==> BadgeStart(n) == None
  {
    hide AccessibleName, NearForm, BadgeStart;
    NameForm(raw);
    NameAgain(AccessibleName(raw));
  }

  /** A name in near form loses its trailing badge and nothing else. */
  lemma NameAgain(n: string)
    requires NearForm(n) && !OpenEnded(n)
    ensures AccessibleName(n) == n <==> BadgeStart(n) == None
  {
    hide BadgeStart, Collapse, TrimStart;
    TrimmedForm(n);
    CollapseFixed(n);
    if BadgeStart(n) == None { LowerFixed(n); }
  }

  // ----- error messages -----

  lemma {:induction false} DigitsToHashForm(s: string)
    requires Collapsed(s) && Lowered(s)
    ensures Collapsed(DigitsToHash(s)) && Lowered(DigitsToHash(s))
    ensures s == "" <==> DigitsToHash(s) == ""
    ensures s != "" ==> DigitsToHash(s)[0] == (if IsDigit(s[0]) then '#' else s[0])
  {
    if s != "" {
      var rest := s[1..];
      DigitsToHashForm(rest);
      if !(IsDigit(s[0]) && |s| > 1 && IsDigit(s[1])) {
        ConsCollapsed(if IsDigit(s[0]) then '#' else s[0], DigitsToHash(rest));
      }
    }
  }

  lemma {:induction false} DigitsToHashFree(s: string)
    ensures forall i :: 0 <= i < |DigitsToHash(s)| ==> !IsDigit(DigitsToHash(s)[i])
    ensures s != "" ==> DigitsToHash(s) != "" && OpenEnded(DigitsToHash(s)) == OpenEnded(s)
  {
    if s != "" { DigitsToHashFree(s[1..]); }
  }

  lemma {:induction false} DigitFreeFixed(s: string)
    requires forall i :: 0 <= i < |s| ==> !IsDigit(s[i])
    ensures DigitsToHash(s) == s
  {
    if s != "" { DigitFreeFixed(s[1..]); }
  }

  // ----- the law and its limit -----

  lemma NormalizeTwice(a: Anchor)
    ensures Normalize(Normalize(a)) == Normalize(a) <==> StableForm(Normalize(a))
  {
    match a
    case Page(route) => RouteStableIff(route);
    case Flow(name) => NameStableIff(name);
    case El(role, name, _) =>
      NameStableIff(name);
      HumanTextForm(role);
      HumanTextFixed(HumanText(role));
    case Platform(_) =>
    case Selector(literal) =>
      TrimmedForm(literal);
      TrimmedForm(Trim(literal));
    case ErrorText(message) =>
      var h := HumanText(message);
      HumanTextForm(message);
      DigitsToHashForm(h);
      DigitsToHashFree(h);
      HumanTextFixed(DigitsToHash(h));
      DigitFreeFixed(DigitsToHash(h));
  }

  lemma BeforeWhole(s: string, c: char)
    ensures |Before(s, c)| == |s| <==> c !in s
  {
    var r := Before(s, c);
    assert |r| == |s| ==> r == s;
    assert |r| < |s| ==> s[|r|] in s;
  }

  /** Stripping the route leaves a space at its end exactly when the space was dangling. */
  lemma RouteEndIff(h: string)
    ensures OpenEnded(RouteOf(h)) <==> DanglingSpace(h)
  {
    var w := Before(h, '#');
    var path := Before(w, '?');
    BeforeWhole(w, '?');
    if '?' in w {
      assert RouteOf(h)[|RouteOf(h)| - 1] == w[|w| - 1];
    } else {
      assert path == w && w[|w|..] == "" && RouteOf(h) == RoutePath(w);
      if OpenEnded(RouteOf(h)) { assert IsSpace(w[|RouteOf(h)| - 1]); }
    }
  }

  /** Lower-casing moves no character into or out of the classes that badges are made of. */
  lemma LowerClass(c: char)
    ensures IsSpace(LowerChar(c)) == IsSpace(c) && IsDigit(LowerChar(c)) == IsDigit(c)
    ensures IsBullet(LowerChar(c)) == IsBullet(c)
    ensures (LowerChar(c) == '(' <==> c == '(') && (LowerChar(c) == ')' <==> c == ')')
    ensures (LowerChar(c) == '[' <==> c == '[') && (LowerChar(c) == ']' <==> c == ']')
  {
  }

  lemma {:induction false} RunStartLower(s: string, t: string, end: nat, p: char -> bool)
    requires |t| == |s| && end <= |s| && forall i :: 0 <= i < |s| ==> p(t[i]) == p(s[i])
    ensures RunStart(t, end, p) == RunStart(s, end, p)
  {
    if end > 0 && p(s[end - 1]) { RunStartLower(s, t, end - 1, p); }
  }

  lemma BracketBadgeLower(s: string)
    requires s != ""
    ensures BracketBadge(Lower(s)) == BracketBadge(s)
  {
    hide Lower, IsSpace, IsDigit, IsBullet, LowerChar, HasDigit, RunStart;
    var last := |s| - 1;
    InnerRunLower(s);
    var i := RunStart(s, last, (d: char) => IsSpace(d) || IsDigit(d));
    HasDigitLower(s[i..last], Lower(s)[i..last]);
    LowerClass(s[last]);
    if i > 0 { LowerClass(s[i - 1]); }
  }

  lemma InnerRunLower(s: string)
    requires s != ""
    ensures RunStart(Lower(s), |s| - 1, (d: char) => IsSpace(d) || IsDigit(d))
            == RunStart(s, |s| - 1, (d: char) => IsSpace(d) || IsDigit(d))
  {
    hide IsSpace, IsDigit, LowerChar, RunStart;
    var inner := (d: char) => IsSpace(d) || IsDigit(d);
    forall i | 0 <= i < |s| ensures inner(Lower(s)[i]) == inner(s[i]) { LowerClass(s[i]); }
    RunStartLower(s, Lower(s), |s| - 1, inner);
  }

  lemma DigitBadgeLower(s: string)
    ensures DigitBadge(Lower(s)) == DigitBadge(s)
  {
    hide IsSpace, IsDigit, IsBullet, LowerChar, HasDigit, RunStart;
    var t := Lower(s);
    var digit := (d: char) => IsDigit(d);
    forall i | 0 <= i < |s| ensures digit(t[i]) == digit(s[i]) { LowerClass(s[i]); }
    RunStartLower(s, t, |s|, digit);
    var i := RunStart(s, |s|, digit);
    if i > 0 { LowerClass(s[i - 1]); }
  }

  lemma BadgeStartLower(s: string)
    ensures BadgeStart(Lower(s)) == BadgeStart(s)
  {
    hide IsSpace, IsDigit, IsBullet, LowerChar, BracketBadge, DigitBadge;
    if s != "" {
      LowerClass(s[|s| - 1]);
      BracketBadgeLower(s);
      DigitBadgeLower(s);
    }
  }

  lemma HasDigitLower(s: string, t: string)
    requires |t| == |s| && forall i :: 0 <= i < |s| ==> t[i] == LowerChar(s[i])
    ensures HasDigit(t) == HasDigit(s)
  {
    forall i | 0 <= i < |s| ensures IsDigit(t[i]) == IsDigit(s[i]) {}
  }

  /** A name still has a badge after the first is removed exactly when it had two. */
  lemma NameEndIff(raw: string)
    ensures BadgeStart(AccessibleName(raw)).Some? <==> TwoBadges(Collapse(Trim(raw)))
  {
    hide BadgeStart, Collapse, Trim, IsSpace;
    TrimmedForm(raw);
    if Trim(raw) != "" { CollapseKeepsEnd(Trim(raw)); } else { CollapseFixed(""); }
    CleanNameEnd(Collapse(Trim(raw)));
  }

  lemma CleanNameEnd(c: string)
    requires c == "" || !IsSpace(c[|c| - 1])
    ensures BadgeStart(NameOf(c)).Some? <==> TwoBadges(c)
  {
    hide BadgeStart, Lower;
    BadgeStartLower(TrimEnd(StripBadge(c)));
    assert BadgeStart("") == None by { BadgeOfNothing(); }
  }

  lemma BadgeOfNothing()
    ensures BadgeStart("") == None
  {
  }

  /** The normal form is in stable form exactly for the stable anchors. */
  lemma StableFormIff(a: Anchor)
    ensures StableForm(Normalize(a)) <==> Stable(a)
  {
    match a
    case Page(route) => RouteEndIff(HumanText(route));
    case Flow(name) => NameEndIff(name);
    case El(_, name, _) => NameEndIff(name);
    case _ =>
  }

  /** Normalising twice is normalising once exactly for the stable anchors. */
  lemma NormalizeStableIff(a: Anchor)
    ensures Normalize(Normalize(a)) == Normalize(a) <==> Stable(a)
  {
    hide Normalize, StableForm, Stable;
    StableFormIff(a);
    NormalizeTwice(a);
  }

  lemma FragmentCut(w: string, fragment: string)
    requires fragment != "" && fragment[0] == '#'
    requires '#' !in w && '?' !in w && w != "" && w[|w| - 1] != '/'
    ensures RouteOf(w + fragment) == w
  {
    BeforeUnique(w, fragment, '#');
    assert Before(w, '?') == w by {
      BeforeUnique(w, "", '?');
      assert w + "" == w;
    }
    assert RoutePath(w) == w;
    assert w[|w|..] == "" && w + "" == w;
  }

  /** Every clean route with a space before its fragment keeps that space, and loses it on a second pass. */
  lemma SpacedFragmentUnstable(path: string, fragment: string)
    requires NearForm(path + " #" + fragment) && !OpenEnded(path + " #" + fragment)
    requires '#' !in path && '?' !in path
    ensures Normalize(Page(path + " #" + fragment)) == Page(path + " ")
    ensures Normalize(Page(path + " ")) != Page(path + " ")
  {
    var h := path + " #" + fragment;
    var w := path + " ";
    HumanTextFixed(h);
    assert h == w + ("#" + fragment);
    assert w[|w| - 1] == ' ';
    FragmentCut(w, "#" + fragment);
    NormalizeTwice(Page(h));
  }

  /** And so does every clean route that ends in a space and a slash. */
  lemma SpacedSlashUnstable(path: string)
    requires NearForm(path + " /") && '#' !in path && '?' !in path
    ensures Normalize(Page(path + " /")) == Page(path + " ")
    ensures Normalize(Page(path + " ")) != Page(path + " ")
  {
    var h := path + " /";
    assert h[|h| - 1] == '/';
    HumanTextFixed(h);
    SlashCut(path + " ");
    assert path + " " + "/" == h;
    hide NearForm, HumanText, RouteOf;
    NormalizeTwice(Page(h));
  }

  lemma SlashCut(w: string)
    requires '#' !in w && '?' !in w && w != "" && w[|w| - 1] != '/'
    ensures RouteOf(w + "/") == w
  {
    var h := w + "/";
    NoHash(h);
    BeforeWhole(h, '?');
    assert Before(h, '?') == h;
    assert h[..|w|] == w && h[|h|..] == "" && w + "" == w;
    assert StripSlashes(h) == StripSlashes(w) == w;
  }

  /** The shortest such routes: normalising them gives a page that is not in normal form. */
  lemma UnstableRoute()
    ensures Normalize(Page("a #b")) == Page("a ") && !Stable(Page("a #b"))
    ensures Normalize(Page("a ")) != Page("a ")
  {
    assert "a" + " #" + "b" == "a #b" && "a" + " " == "a ";
    SpacedFragmentUnstable("a", "b");
    hide Normalize, Stable;
    NormalizeStableIff(Page("a #b"));
  }

  lemma UnstableSlash()
    ensures Normalize(Page("a /")) == Page("a ") && !Stable(Page("a /"))
  {
    assert "a" + " " == "a " && "a" + " /" == "a /";
    SpacedSlashUnstable("a");
    hide Normalize, Stable;
    NormalizeStableIff(Page("a /"));
  }

  lemma NumberBadge(s: string, i: nat)
    requires i + 2 == |s| && IsSpace(s[i]) && IsDigit(s[i + 1])
    ensures BadgeStart(s) == Some(i)
  {
    var digit := (d: char) => IsDigit(d);
    assert RunStart(s, i + 1, digit) == i + 1;
  }

  /** Only one trailing badge is removed, so a clean name with two numbers behind it is not stable. */
  lemma TwoBadgesUnstable(name: string, d: char, e: char)
    requires IsDigit(d) && IsDigit(e)
    requires NearForm(name + [' ', d] + [' ', e]) && name != "" && !IsSpace(name[|name| - 1])
    ensures AccessibleName(name + [' ', d] + [' ', e]) == name + [' ', d]
    ensures Normalize(Flow(name + [' ', d])) != Flow(name + [' ', d])
  {
    var one := name + [' ', d];
    var n := one + [' ', e];
    assert n[0] == name[0] && n[|n| - 1] == e && one[|one| - 1] == d;
    TrimmedForm(n);
    CollapseFixed(n);
    NumberBadge(n, |one|);
    assert n[..|one|] == one;
    PrefixKeepsForm(n, |one|);
    LowerFixed(one);
    NumberBadge(one, |name|);
    NormalizeTwice(Flow(n));
  }
}
