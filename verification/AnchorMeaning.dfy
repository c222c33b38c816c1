/** What a normal form keeps of an anchor: the words of a text, the parts of a route, a name without its badge. */
module AnchorMeaning {
  import opened Prelude
  import opened Anchors

  // ----- words -----

  /** The length of the run of visible characters at the start. */
  function WordEnd(s: string): (n: nat)
    ensures n <= |s| && (forall i :: 0 <= i < n ==> !IsSpace(s[i])) && (n < |s| ==> IsSpace(s[n]))
  {
    if s == "" || IsSpace(s[0]) then 0 else 1 + WordEnd(s[1..])
  }

  /** The maximal runs of visible characters. */
  function Words(s: string): seq<string>
    decreases |s|
  {
    if s == "" then []
    else if IsSpace(s[0]) then Words(s[1..])
    else [s[..WordEnd(s)]] + Words(s[WordEnd(s)..])
  }

  function Unwords(words: seq<string>): string {
    if words == [] then "" else if |words| == 1 then words[0] else words[0] + " " + Unwords(words[1..])
  }

  lemma {:induction false} WordsTrimmed(s: string)
    ensures Words(TrimStart(s)) == Words(s)
  {
    if s != "" && IsSpace(s[0]) { WordsTrimmed(s[1..]); }
  }

  lemma {:induction false} WordsUnended(s: string)
    ensures Words(TrimEnd(s)) == Words(s)
    decreases |s|
  {
    if s != "" && IsSpace(s[|s| - 1]) {
      WordsUnended(s[..|s| - 1]);
      WordsBeforeSpace(s[..|s| - 1], s[|s| - 1]);
      assert s == s[..|s| - 1] + [s[|s| - 1]];
    }
  }

  lemma {:induction false} WordsBeforeSpace(s: string, c: char)
    requires IsSpace(c)
    ensures Words(s + [c]) == Words(s)
    decreases |s|
  {
    var t := s + [c];
    if s == "" {
      assert t[1..] == "";
    } else if IsSpace(s[0]) {
      assert t[1..] == s[1..] + [c];
      WordsBeforeSpace(s[1..], c);
    } else {
      var n := WordEnd(s);
      WordEndIs(t, n);
      assert t[..n] == s[..n] && t[n..] == s[n..] + [c];
      WordEndPositive(s);
      WordsBeforeSpace(s[n..], c);
    }
  }

  lemma {:induction false} WordEndIs(s: string, n: nat)
    requires n <= |s| && (forall i :: 0 <= i < n ==> !IsSpace(s[i])) && (n < |s| ==> IsSpace(s[n]))
    ensures WordEnd(s) == n
  {
  }

  lemma WordEndPositive(s: string)
    requires s != "" && !IsSpace(s[0])
    ensures WordEnd(s) > 0
  {
  }

  lemma {:induction false} CollapseWord(w: string, rest: string)
    requires forall i :: 0 <= i < |w| ==> !IsSpace(w[i])
    ensures Collapse(w + rest) == w + Collapse(rest)
    decreases |w|
  {
    if w == "" {
      assert w + rest == rest;
    } else {
      assert (w + rest)[0] == w[0] && (w + rest)[1..] == w[1..] + rest;
      CollapseWord(w[1..], rest);
    }
  }

  lemma FirstWord(s: string)
    requires s != "" && !IsSpace(s[0])
    ensures WordEnd(s) > 0 && Words(s) == [s[..WordEnd(s)]] + Words(s[WordEnd(s)..])
    ensures Collapse(s) == s[..WordEnd(s)] + Collapse(s[WordEnd(s)..])
  {
    WordEndPositive(s);
    hide Collapse;
    CollapsedFirst(s, WordEnd(s));
  }

  lemma CollapsedFirst(s: string, n: nat)
    requires n <= |s| && forall i :: 0 <= i < n ==> !IsSpace(s[i])
    ensures Collapse(s) == s[..n] + Collapse(s[n..])
  {
    hide Collapse, IsSpace;
    assert s == s[..n] + s[n..];
    CollapseWord(s[..n], s[n..]);
  }

  lemma SpaceRun(s: string)
    requires s != "" && IsSpace(s[0])
    ensures Collapse(s) == " " + Collapse(TrimStart(s)) && Words(s) == Words(TrimStart(s))
  {
    WordsTrimmed(s);
  }

  predicate Clean(s: string) { s == "" || (!IsSpace(s[0]) && !IsSpace(s[|s| - 1])) }

  /** The first word of a text without spaces at its ends, and the text after it. */
  lemma FirstAndRest(s: string) returns (w: string, next: string)
    requires Clean(s) && s != ""
    ensures Clean(next) && |next| < |s|
    ensures Words(s) == [w] + (if next == "" then [] else Words(next))
    ensures Collapse(s) == if next == "" then w else w + " " + Collapse(next)
  {
    FirstWord(s);
    w, next := s[..WordEnd(s)], s[WordEnd(s)..];
    hide Collapse, Words, WordEnd, IsSpace;
    if next == "" {
      Nothing();
      Joined(w, "");
    } else {
      var rest := next;
      RestTrimmed(s, rest);
      SpaceRun(rest);
      Joined(w, Collapse(TrimStart(rest)));
      next := TrimStart(rest);
    }
  }

  lemma RestTrimmed(s: string, rest: string)
    requires Clean(s) && s != "" && 0 < |rest| < |s| && rest == s[|s| - |rest|..]
    ensures TrimStart(rest) != "" && Clean(TrimStart(rest)) && |TrimStart(rest)| < |s|
  {
    assert rest[|rest| - 1] == s[|s| - 1];
    var next := TrimStart(rest);
    assert next[|next| - 1] == rest[|rest| - 1];
  }

  lemma Joined(w: string, t: string)
    ensures w + "" == w && w + (" " + t) == w + " " + t
  {
  }

  lemma {:induction false} CollapsedWords(s: string)
    requires Clean(s)
    ensures Collapse(s) == Unwords(Words(s)) && (s != "" ==> Words(s) != [])
    decreases |s|
  {
    hide Clean, Unwords;
    if s != "" {
      var w, next := FirstAndRest(s);
      hide Collapse, Words;
      CollapsedWords(next);
      UnwordsCons(w, if next == "" then [] else Words(next));
    } else {
      Nothing();
    }
  }

  lemma UnwordsCons(w: string, words: seq<string>)
    ensures Unwords([w] + words) == if words == [] then w else w + " " + Unwords(words)
  {
    assert ([w] + words)[1..] == words;
  }

  lemma Nothing()
    ensures Collapse("") == "" && Words("") == [] && Unwords([]) == ""
  {
  }

  lemma LowerConcat(a: string, b: string)
    ensures Lower(a + b) == Lower(a) + Lower(b)
  {
  }

  lemma {:induction false} LowerUnwords(words: seq<string>)
    ensures Lower(Unwords(words)) == Unwords(Map(Lower, words))
  {
    if |words| > 1 {
      LowerUnwords(words[1..]);
      var rest, lowered := Unwords(words[1..]), Map(Lower, words[1..]);
      assert Lower(" ") == " " by { assert LowerChar(' ') == ' '; }
      assert Map(Lower, words) == [Lower(words[0])] + lowered;
      hide Lower, Map;
      LowerConcat(words[0] + " ", rest);
      LowerConcat(words[0], " ");
      assert ([Lower(words[0])] + lowered)[1..] == lowered;
    } else if |words| == 1 {
      assert Map(Lower, words) == [Lower(words[0])];
    }
  }

  lemma CleanWords(s: string)
    ensures Collapse(Trim(s)) == Unwords(Words(s))
  {
    TrimmedForm(s);
    WordsTrimmed(s);
    WordsUnended(TrimStart(s));
    CollapsedWords(Trim(s));
  }

  /** The clean form of a text is its words in lower case, one space between them. */
  lemma HumanTextIs(s: string)
    ensures HumanText(s) == Unwords(Map(Lower, Words(s)))
  {
    CleanWords(s);
    LowerUnwords(Words(s));
  }

  // ----- routes -----

  /** A clean route: path, slashes to drop, query, fragment. */
  datatype Route = Route(path: string, slashes: string, query: string, fragment: string)

  predicate RouteParts(clean: string, r: Route) {
    && clean == r.path + r.slashes + r.query + r.fragment
    && '?' !in r.path && '#' !in r.path && '#' !in r.query
    && (forall i :: 0 <= i < |r.slashes| ==> r.slashes[i] == '/')
    && (r.path != "" && r.path[|r.path| - 1] == '/' ==> r.path == "/" && r.slashes == "")
    && (r.slashes == "/" ==> r.path != "")
    && (r.query != "" ==> r.query[0] == '?')
    && (r.fragment != "" ==> r.fragment[0] == '#')
  }

  /** The normal form of a route is its clean path, but for trailing slashes, and its query; the root stays. */
  lemma RouteIs(route: string) returns (r: Route)
    ensures RouteParts(HumanText(route), r) && NormalizeRoute(route) == r.path + r.query
  {
    hide HumanText;
    r := CleanRoute(HumanText(route));
  }

  lemma CleanRoute(clean: string) returns (r: Route)
    ensures RouteParts(clean, r) && RouteOf(clean) == r.path + r.query
  {
    var front := Before(clean, '#');
    var path, kept := Before(front, '?'), RoutePath(front);
    KeptPath(path, kept);
    r := Route(kept, path[|kept|..], front[|path|..], clean[|front|..]);
    assert RouteOf(clean) == kept + r.query;
    hide Before, StripSlashes, RouteOf, RoutePath;
    PartsHold(clean, front, path, r);
  }

  lemma PartsHold(clean: string, front: string, path: string, r: Route)
    requires front == Before(clean, '#') && path == Before(front, '?')
    requires |r.path| <= |path| && r == Route(path[..|r.path|], path[|r.path|..], front[|path|..], clean[|front|..])
    requires forall i :: |r.path| <= i < |path| ==> path[i] == '/'
    requires r.path != "" && r.path[|r.path| - 1] == '/' ==> r.path == "/" && path == "/"
    requires r.slashes == "/" ==> r.path != ""
    ensures RouteParts(clean, r)
  {
    hide Before, StripSlashes;
    Rejoined(clean, front, path, |r.path|);
    PieceOf(r.query, front);
    PieceOf(r.path, path);
    PieceOf(path, front);
    assert '#' !in front && '?' !in path;
    SlashesOnly(path, r);
  }

  lemma Rejoined(clean: string, front: string, path: string, n: nat)
    requires n <= |path| <= |front| <= |clean| && front == clean[..|front|] && path == front[..|path|]
    ensures clean == path[..n] + path[n..] + front[|path|..] + clean[|front|..]
  {
    assert path == path[..n] + path[n..] && front == path + front[|path|..] && clean == front + clean[|front|..];
  }

  lemma SlashesOnly(path: string, r: Route)
    requires |r.path| <= |path| && r.slashes == path[|r.path|..] && forall i :: |r.path| <= i < |path| ==> path[i] == '/'
    ensures forall i :: 0 <= i < |r.slashes| ==> r.slashes[i] == '/'
  {
  }

  /** A piece of a text has no character that the text has not. */
  lemma PieceOf(piece: string, s: string)
    requires |piece| <= |s| && (piece == s[..|piece|] || piece == s[|s| - |piece|..])
    ensures forall x :: x !in s ==> x !in piece
  {
  }

  lemma KeptPath(path: string, kept: string)
    requires kept == if path == "/" then path else StripSlashes(path)
    ensures |kept| <= |path| && kept == path[..|kept|] && forall i :: |kept| <= i < |path| ==> path[i] == '/'
    ensures kept != "" && kept[|kept| - 1] == '/' ==> kept == "/" && path == "/"
    ensures path[|kept|..] == "/" ==> kept != ""
  {
    if kept == "" { assert path[0..] == path; }
  }

  lemma SplitAt(a: string, b: string, x: string, y: string, n: nat)
    requires a + b == x + y && |a| == n && |x| == n
    ensures a == x && b == y
  {
    assert (a + b)[..n] == a && (x + y)[..n] == x && (a + b)[n..] == b && (x + y)[n..] == y;
  }

  /** There is one way to read a clean route like that. */
  lemma RoutePartsUnique(clean: string, r: Route, t: Route)
    requires RouteParts(clean, r) && RouteParts(clean, t)
    ensures r == t
  {
    FrontIs(clean, r);
    FrontIs(clean, t);
    var front := Before(clean, '#');
    PathIs(front, r);
    PathIs(front, t);
    var path := Before(front, '?');
    assert r.path + r.slashes == path == t.path + t.slashes;
    PathLength(r, t);
    PathLength(t, r);
    SplitAt(r.path, r.slashes, t.path, t.slashes, |r.path|);
    SplitAt(path, r.query, path, t.query, |path|);
    SplitAt(front, r.fragment, front, t.fragment, |front|);
  }

  lemma FrontIs(clean: string, r: Route)
    requires RouteParts(clean, r)
    ensures Before(clean, '#') == r.path + r.slashes + r.query && clean == Before(clean, '#') + r.fragment
  {
    BeforeUnique(r.path + r.slashes + r.query, r.fragment, '#');
  }

  lemma PathIs(front: string, r: Route)
    requires front == r.path + r.slashes + r.query && '?' !in r.path + r.slashes && (r.query != "" ==> r.query[0] == '?')
    ensures Before(front, '?') == r.path + r.slashes
  {
    BeforeUnique(r.path + r.slashes, r.query, '?');
  }

  lemma PathLength(r: Route, t: Route)
    requires r.path + r.slashes == t.path + t.slashes
    requires forall i :: 0 <= i < |t.slashes| ==> t.slashes[i] == '/'
    requires r.path != "" && r.path[|r.path| - 1] == '/' ==> r.path == "/" && r.slashes == ""
    requires t.slashes == "/" ==> t.path != ""
    ensures |r.path| <= |t.path|
  {
    assert r.path + "" == r.path && "" + t.slashes == t.slashes;
    if |r.path| > |t.path| { EndsInSlash(r, t); }
  }

  lemma EndsInSlash(r: Route, t: Route)
    requires r.path + r.slashes == t.path + t.slashes && |r.path| > |t.path|
    requires forall i :: 0 <= i < |t.slashes| ==> t.slashes[i] == '/'
    ensures r.path[|r.path| - 1] == '/'
  {
    assert (r.path + r.slashes)[|r.path| - 1] == (t.path + t.slashes)[|r.path| - 1];
  }

  // ----- names -----

  /** A trailing badge: a bullet, digits and spaces in brackets of one shape with a digit among them, or a space and digits. */
  predicate IsBadge(t: string) {
    || (|t| == 1 && IsBullet(t[0]))
    || (|t| >= 3 && ((t[0] == '(' && t[|t| - 1] == ')') || (t[0] == '[' && t[|t| - 1] == ']'))
        && (forall i :: 0 < i < |t| - 1 ==> IsSpace(t[i]) || IsDigit(t[i]))
        && exists i :: 0 < i < |t| - 1 && IsDigit(t[i]))
    || (|t| >= 2 && IsSpace(t[0]) && forall i :: 0 < i < |t| ==> IsDigit(t[i]))
  }

  lemma {:induction false} RunStartIs(s: string, end: nat, p: char -> bool, i: nat)
    requires end <= |s|
    ensures RunStart(s, end, p) == i <==>
            i <= end && (forall k :: i <= k < end ==> p(s[k])) && (i > 0 ==> !p(s[i - 1]))
  {
    if end > 0 && p(s[end - 1]) {
      RunStartIs(s, end - 1, p, i);
    } else if i < end {
      assert !p(s[end - 1]);
    }
  }

  /** The badge of a name starts where a badge up to its end starts, and there is at most one such place. */
  lemma BadgeIff(s: string, i: nat)
    requires i < |s|
    ensures BadgeStart(s) == Some(i) <==> IsBadge(s[i..])
  {
    var last, t := |s| - 1, s[i..];
    assert forall k :: 0 <= k < |t| ==> t[k] == s[i + k];
    if s[last] == ')' || s[last] == ']' {
      BracketIff(s, i);
    } else if IsDigit(s[last]) && !IsBullet(s[last]) {
      DigitIff(s, i);
    }
  }

  lemma BracketIff(s: string, i: nat)
    requires i < |s| && (s[|s| - 1] == ')' || s[|s| - 1] == ']')
    ensures BracketBadge(s) == Some(i) <==> IsBadge(s[i..])
  {
    hide IsSpace, IsDigit, RunStart, HasDigit, IsBadge;
    if BracketBadge(s) == Some(i) { BracketFound(s, i); }
    if IsBadge(s[i..]) { BracketBadged(s, i); }
  }

  lemma BracketFound(s: string, i: nat)
    requires i < |s| && (s[|s| - 1] == ')' || s[|s| - 1] == ']') && BracketBadge(s) == Some(i)
    ensures IsBadge(s[i..])
  {
    hide IsSpace, IsDigit, RunStart, IsBullet;
    var last, t := |s| - 1, s[i..];
    var inner := (d: char) => IsSpace(d) || IsDigit(d);
    RunStartIs(s, last, inner, i + 1);
    var k :| 0 <= k < |s[i + 1..last]| && IsDigit(s[i + 1..last][k]);
    assert t[k + 1] == s[i + 1..last][k];
    forall k | 0 < k < |t| - 1 ensures IsSpace(t[k]) || IsDigit(t[k]) { assert inner(s[i + k]); }
  }

  lemma BracketBadged(s: string, i: nat)
    requires i < |s| && (s[|s| - 1] == ')' || s[|s| - 1] == ']') && IsBadge(s[i..])
    ensures BracketBadge(s) == Some(i)
  {
    hide RunStart;
    var last, t := |s| - 1, s[i..];
    var inner := (d: char) => IsSpace(d) || IsDigit(d);
    assert forall k :: 0 <= k < |t| ==> t[k] == s[i + k];
    RunStartIs(s, last, inner, i + 1);
    var k :| 0 < k < |t| - 1 && IsDigit(t[k]);
    assert s[i + 1..last][k - 1] == t[k];
  }

  lemma DigitIff(s: string, i: nat)
    requires i < |s| && IsDigit(s[|s| - 1])
    ensures DigitBadge(s) == Some(i) <==> IsBadge(s[i..])
  {
    var t := s[i..];
    var digit := (d: char) => IsDigit(d);
    var n := RunStart(s, |s|, digit);
    RunStartIs(s, |s|, digit, n);
    assert forall k :: 0 <= k < |t| ==> t[k] == s[i + k];
    if IsBadge(t) { RunStartIs(s, |s|, digit, i + 1); }
  }

  /** The accessible name is the words of the text, without a trailing badge and what space is left before it, in lower case. */
  lemma NameIs(raw: string)
    ensures
      var clean := Unwords(Words(raw));
      && ((forall i :: 0 <= i < |clean| ==> !IsBadge(clean[i..])) ==> AccessibleName(raw) == Lower(TrimEnd(clean)))
      && (forall i :: 0 <= i < |clean| && IsBadge(clean[i..]) ==> AccessibleName(raw) == Lower(TrimEnd(clean[..i])))
  {
    hide IsBadge, Words, Unwords, Collapse, Trim, Lower, TrimEnd, BadgeStart;
    CleanWords(raw);
    var clean := Unwords(Words(raw));
    forall i | 0 <= i < |clean| ensures BadgeStart(clean) == Some(i) <==> IsBadge(clean[i..]) { BadgeIff(clean, i); }
  }

  // ----- errors -----

  /** Whichever number stands in an error message, its normal form has one `#` there. */
  lemma {:induction false} NumberIs(x: string, digits: string, y: string)
    requires digits != "" && forall i :: 0 <= i < |digits| ==> IsDigit(digits[i])
    requires (x != "" ==> !IsDigit(x[|x| - 1])) && (y != "" ==> !IsDigit(y[0]))
    ensures DigitsToHash(x + digits + y) == DigitsToHash(x) + "#" + DigitsToHash(y)
  {
    if x == "" {
      assert x + digits + y == digits + y;
      DigitRun(digits, y);
    } else {
      var s := x + digits + y;
      assert s[0] == x[0] && s[1..] == x[1..] + digits + y;
      assert |x| > 1 ==> s[1] == x[1] && x[1..][|x| - 2] == x[|x| - 1];
      NumberIs(x[1..], digits, y);
    }
  }

  lemma {:induction false} DigitRun(digits: string, y: string)
    requires digits != "" && forall i :: 0 <= i < |digits| ==> IsDigit(digits[i])
    requires y != "" ==> !IsDigit(y[0])
    ensures DigitsToHash(digits + y) == "#" + DigitsToHash(y)
  {
    var s := digits + y;
    assert s[0] == digits[0] && s[1..] == digits[1..] + y;
    if |digits| > 1 {
      assert s[1] == digits[1];
      DigitRun(digits[1..], y);
    } else {
      assert digits[1..] + y == y;
    }
  }

  // ----- whole anchors -----

  /** The kind of an anchor stays, and with it what is not text: the ordinal of an element and a whole platform. */
  lemma KindKept(a: Anchor)
    ensures
      match a
      case Page(_) => Normalize(a).Page?
      case Flow(_) => Normalize(a).Flow?
      case El(role, _, ordinal) => Normalize(a).El? && Normalize(a).ordinal == ordinal && Normalize(a).role == Unwords(Map(Lower, Words(role)))
      case Platform(_) => Normalize(a) == a
      case Selector(literal) => Normalize(a).Selector? && Words(Normalize(a).literal) == Words(literal)
      case ErrorText(message) => Normalize(a) == ErrorText(DigitsToHash(Unwords(Map(Lower, Words(message)))))
  {
    match a
    case El(role, _, _) => HumanTextIs(role);
    case ErrorText(message) => HumanTextIs(message);
    case Selector(literal) =>
      WordsTrimmed(literal);
      WordsUnended(TrimStart(literal));
    case _ =>
  }
}
