/** `record.md`: the fenced frontmatter and the two prose sections, and when reading undoes writing. */
module RecordMarkdown {
  import opened Prelude
  import opened Lines

  const OPENING_FENCE := "---\n"
  const CLOSING_FENCE := "\n---\n\n"
  const SUMMARY_PREFIX := "## Summary\n\n"
  const DETAIL_HEADING := "\n\n## Detail"
  const DETAIL_SEPARATOR := "\n\n## Detail\n\n"

  predicate OccursAt(s: string, pattern: string, i: nat) {
    i + |pattern| <= |s| && s[i..i + |pattern|] == pattern
  }

  /** `indexOf(pattern, from)`. */
  function IndexOf(s: string, pattern: string, from: nat): (r: Option<nat>)
    requires from <= |s|
    ensures r.Some? ==> from <= r.value && OccursAt(s, pattern, r.value)
    ensures r.Some? ==> forall i :: from <= i < r.value ==> !OccursAt(s, pattern, i)
    ensures r.None? ==> forall i :: from <= i <= |s| ==> !OccursAt(s, pattern, i)
    decreases |s| - from
  {
    if OccursAt(s, pattern, from) then Some(from)
    else if from == |s| then None
    else IndexOf(s, pattern, from + 1)
  }

  datatype Prose = Prose(summary: string, body: string)

  function EmitProse(p: Prose): string {
    SUMMARY_PREFIX + p.summary + DETAIL_SEPARATOR + p.body
  }

  function ParseProse(markdown: string): Option<Prose> {
    if !OccursAt(markdown, SUMMARY_PREFIX, 0) then None
    else
      var sections := markdown[|SUMMARY_PREFIX|..];
      match IndexOf(sections, DETAIL_SEPARATOR, 0)
      case None => None
      case Some(i) => Some(Prose(sections[..i], sections[i + |DETAIL_SEPARATOR|..]))
  }

  function EmitText(frontmatter: seq<string>, p: Prose): string {
    OPENING_FENCE + Join(frontmatter) + CLOSING_FENCE + EmitProse(p)
  }

  /** The frontmatter lines and the prose, or nothing when a fence or a section is missing. */
  function ParseText(text: string): Option<(seq<string>, Prose)> {
    if !OccursAt(text, OPENING_FENCE, 0) then None
    else
      match IndexOf(text, CLOSING_FENCE, |OPENING_FENCE|)
      case None => None
      case Some(i) =>
        match ParseProse(text[i + |CLOSING_FENCE|..])
        case None => None
        case Some(p) => Some((Split(text[|OPENING_FENCE|..i]), p))
  }

  /** Where the reader of a record with this summary ends the summary. */
  function SummaryEnd(summary: string): (i: nat)
    ensures i <= |summary| && OccursAt(summary + DETAIL_SEPARATOR, DETAIL_SEPARATOR, i)
    ensures forall k :: 0 <= k < i ==> !OccursAt(summary + DETAIL_SEPARATOR, DETAIL_SEPARATOR, k)
  {
    var s := summary + DETAIL_SEPARATOR;
    assert OccursAt(s, DETAIL_SEPARATOR, |summary|);
    IndexOf(s, DETAIL_SEPARATOR, 0).value
  }

  /** What follows a first occurrence does not move it. */
  lemma FirstOccurrence(s: string, pattern: string, tail: string, i: nat, from: nat)
    requires from <= i && OccursAt(s, pattern, i) && forall k :: from <= k < i ==> !OccursAt(s, pattern, k)
    ensures IndexOf(s + tail, pattern, from) == Some(i)
  {
    var w := s + tail;
    assert OccursAt(w, pattern, i) by { assert w[i..i + |pattern|] == s[i..i + |pattern|]; }
    forall k | from <= k < i ensures !OccursAt(w, pattern, k) {
      assert !OccursAt(s, pattern, k);
      assert w[k..k + |pattern|] == s[k..k + |pattern|];
    }
  }

  /** What the reader makes of emitted prose: the summary up to the first separator, the rest as body. */
  lemma ParsedProse(p: Prose)
    ensures
      var i := SummaryEnd(p.summary);
      var sections := p.summary + DETAIL_SEPARATOR + p.body;
      ParseProse(EmitProse(p)) == Some(Prose(p.summary[..i], sections[i + |DETAIL_SEPARATOR|..]))
  {
    hide OccursAt, SummaryEnd;
    var i := SummaryEnd(p.summary);
    var sections := p.summary + DETAIL_SEPARATOR + p.body;
    FirstOccurrence(p.summary + DETAIL_SEPARATOR, DETAIL_SEPARATOR, p.body, i, 0);
    ReadSections(sections);
    assert EmitProse(p) == SUMMARY_PREFIX + sections;
    assert sections[..i] == p.summary[..i];
  }

  lemma ReadSections(sections: string)
    ensures
      var md := SUMMARY_PREFIX + sections;
      OccursAt(md, SUMMARY_PREFIX, 0) && md[|SUMMARY_PREFIX|..] == sections
  {
    var md := SUMMARY_PREFIX + sections;
    assert md[0..|SUMMARY_PREFIX|] == SUMMARY_PREFIX;
  }

  /** Prose survives the file exactly when its summary holds no section separator of its own. */
  lemma ProseRoundTripIff(p: Prose)
    ensures ParseProse(EmitProse(p)) == Some(p) <==> SummaryEnd(p.summary) == |p.summary|
  {
    ParsedProse(p);
    var i := SummaryEnd(p.summary);
    var sections := p.summary + DETAIL_SEPARATOR + p.body;
    assert i == |p.summary| ==> sections[i + |DETAIL_SEPARATOR|..] == p.body && p.summary[..i] == p.summary;
    assert |p.summary[..i]| == i;
  }

  ghost predicate FenceSafe(line: string) { NoNewline(line) && (line != "" ==> line[0] != '-') }

  lemma {:induction false} JoinOpensNoFence(lines: seq<string>, k: nat)
    requires forall l :: l in lines ==> FenceSafe(l)
    requires lines != [] && k + 1 < |Join(lines)| && Join(lines)[k] == '\n'
    ensures Join(lines)[k + 1] != '-'
  {
    assert lines[0] in lines;
    if |lines| > 1 {
      var rest := Join(lines[1..]);
      if k == |lines[0]| {
        JoinHead(lines[1..]);
      } else if k > |lines[0]| {
        assert Join(lines)[k + 1] == rest[k - |lines[0]|];
        JoinOpensNoFence(lines[1..], k - |lines[0]| - 1);
      }
    }
  }

  lemma JoinHead(lines: seq<string>)
    requires forall l :: l in lines ==> FenceSafe(l)
    ensures Join(lines) != "" ==> Join(lines)[0] != '-'
  {
    if lines != [] { assert lines[0] in lines; }
  }

  /** The frontmatter survives whatever the prose is, because no line of it opens a fence. */
  lemma ParsedText(frontmatter: seq<string>, p: Prose)
    requires frontmatter != [] && forall l :: l in frontmatter ==> FenceSafe(l)
    ensures ParseProse(EmitProse(p)).Some?
    ensures ParseText(EmitText(frontmatter, p)) == Some((frontmatter, ParseProse(EmitProse(p)).value))
  {
    ParsedProse(p);
    var head := OPENING_FENCE + Join(frontmatter) + CLOSING_FENCE;
    var i := |OPENING_FENCE| + |Join(frontmatter)|;
    FenceFound(frontmatter);
    FirstOccurrence(head, CLOSING_FENCE, EmitProse(p), i, |OPENING_FENCE|);
    CutText(Join(frontmatter), EmitProse(p));
    SplitJoin(frontmatter);
  }

  lemma CutText(block: string, rest: string)
    ensures
      var text := OPENING_FENCE + block + CLOSING_FENCE + rest;
      var i := |OPENING_FENCE| + |block|;
      && OccursAt(text, OPENING_FENCE, 0)
      && text[i + |CLOSING_FENCE|..] == rest
      && text[|OPENING_FENCE|..i] == block
  {
    var text := OPENING_FENCE + block + CLOSING_FENCE + rest;
    assert text[0..|OPENING_FENCE|] == OPENING_FENCE;
  }

  lemma FenceFound(frontmatter: seq<string>)
    requires frontmatter != [] && forall l :: l in frontmatter ==> FenceSafe(l)
    ensures
      var head := OPENING_FENCE + Join(frontmatter) + CLOSING_FENCE;
      var i := |OPENING_FENCE| + |Join(frontmatter)|;
      && OccursAt(head, CLOSING_FENCE, i)
      && forall k :: |OPENING_FENCE| <= k < i ==> !OccursAt(head, CLOSING_FENCE, k)
  {
    var block := Join(frontmatter);
    var head := OPENING_FENCE + block + CLOSING_FENCE;
    var i := |OPENING_FENCE| + |block|;
    assert head[i..i + 6] == CLOSING_FENCE;
    assert head[|OPENING_FENCE|..] == block + CLOSING_FENCE;
    forall k | |OPENING_FENCE| <= k < i ensures !OccursAt(head, CLOSING_FENCE, k) {
      NoEarlyFence(frontmatter, k - |OPENING_FENCE|);
      assert head[k] != '\n' || head[k + 1] != '-';
      assert head[k..k + 6][0] == head[k] && head[k..k + 6][1] == head[k + 1];
    }
  }

  lemma NoEarlyFence(frontmatter: seq<string>, k: nat)
    requires frontmatter != [] && forall l :: l in frontmatter ==> FenceSafe(l)
    requires k < |Join(frontmatter)|
    ensures
      var s := Join(frontmatter) + CLOSING_FENCE;
      s[k] != '\n' || s[k + 1] != '-'
  {
    var block := Join(frontmatter);
    if block[k] == '\n' && k + 1 < |block| { JoinOpensNoFence(frontmatter, k); }
  }

  // ----- what the embedding input sees -----

  /** The part of the rendered embedding input that depends on the prose. */
  function EmbeddedProse(p: Prose): string { p.summary + "\n\n" + p.body }


  /** `s` is the detail heading written any number of times, perhaps none. */
  predicate IsHeadings(s: string)
    decreases |s|
  {
    s == "" || (|s| >= 11 && s[..11] == DETAIL_HEADING && IsHeadings(s[11..]))
  }

  /** A draft whose record reads back with the same embedding input. */
  predicate SummarySafe(summary: string) { IsHeadings(summary[SummaryEnd(summary)..]) }

  lemma CommutesLong(t: string)
    requires t + DETAIL_HEADING == DETAIL_HEADING + t && t != ""
    ensures |t| >= 11
  {
    var u := DETAIL_HEADING;
    var a := t + u;
    var n := |t|;
    assert a[n + 5] == u[5] == 'D';
    assert forall k :: 0 <= k < 11 ==> (u + t)[k] == u[k] && (u[k] == 'D' ==> k == 5);
    assert forall k :: 11 <= k < n + 11 ==> (u + t)[k] == t[k - 11];
    assert forall k :: 0 <= k < n ==> a[k] == t[k];
  }

  lemma CommutesStep(t: string)
    requires t + DETAIL_HEADING == DETAIL_HEADING + t && |t| >= 11
    ensures t[..11] == DETAIL_HEADING
    ensures t[11..] + DETAIL_HEADING == DETAIL_HEADING + t[11..]
  {
    var u := DETAIL_HEADING;
    assert t[..11] == (t + u)[..11] == (u + t)[..11] == u;
    assert t == u + t[11..];
    assert (t + u)[11..] == t[11..] + u;
    assert (u + t)[11..] == t;
  }

  /** A string commutes with the detail heading exactly when it is that heading repeated. */
  lemma {:induction false} CommutesIff(t: string)
    ensures t + DETAIL_HEADING == DETAIL_HEADING + t <==> IsHeadings(t)
    decreases |t|
  {
    if t == "" {
      assert t + DETAIL_HEADING == DETAIL_HEADING + t;
    } else {
      if t + DETAIL_HEADING == DETAIL_HEADING + t {
        CommutesLong(t);
        CommutesStep(t);
        CommutesIff(t[11..]);
      }
      if IsHeadings(t) {
        CommutesIff(t[11..]);
        assert t == DETAIL_HEADING + t[11..];
        assert t + DETAIL_HEADING == DETAIL_HEADING + (t[11..] + DETAIL_HEADING);
      }
    }
  }

  /** Moving the heading across `t` leaves the text alone exactly when `t` commutes with it. */
  lemma MovedHeading(t: string, x: string, y: string)
    requires DETAIL_HEADING + y == t + DETAIL_HEADING + x
    ensures y == t + x <==> IsHeadings(t)
  {
    var u := DETAIL_HEADING;
    CancelHead(u, y, t + x);
    assert u + (t + x) == (u + t) + x;
    CancelTail(u + t, t + u, x);
    CommutesIff(t);
  }

  /** The prose read back embeds like the prose written exactly when the summary is safe. */
  lemma EmbeddedProseStableIff(p: Prose)
    ensures ParseProse(EmitProse(p)).Some?
    ensures EmbeddedProse(ParseProse(EmitProse(p)).value) == EmbeddedProse(p) <==> SummarySafe(p.summary)
  {
    ParsedProse(p);
    var i := SummaryEnd(p.summary);
    var rest := (p.summary + DETAIL_SEPARATOR + p.body)[i + 13..];
    SectionsSplit(p, i);
    MovedHeading(p.summary[i..], "\n\n" + p.body, "\n\n" + rest);
    EmbeddedTails(p, i, rest);
  }

  lemma EmbeddedTails(p: Prose, i: nat, rest: string)
    requires i <= |p.summary|
    ensures EmbeddedProse(Prose(p.summary[..i], rest)) == EmbeddedProse(p) <==>
            "\n\n" + rest == p.summary[i..] + ("\n\n" + p.body)
  {
    var x := "\n\n" + p.body;
    var y := "\n\n" + rest;
    assert p.summary == p.summary[..i] + p.summary[i..];
    assert EmbeddedProse(p) == p.summary[..i] + (p.summary[i..] + x);
    assert EmbeddedProse(Prose(p.summary[..i], rest)) == p.summary[..i] + y;
    CancelHead(p.summary[..i], y, p.summary[i..] + x);
  }

  lemma SectionsSplit(p: Prose, i: nat)
    requires i <= |p.summary| && OccursAt(p.summary + DETAIL_SEPARATOR, DETAIL_SEPARATOR, i)
    ensures
      var sections := p.summary + DETAIL_SEPARATOR + p.body;
      DETAIL_HEADING + ("\n\n" + sections[i + 13..]) == p.summary[i..] + DETAIL_HEADING + ("\n\n" + p.body)
  {
    assert DETAIL_SEPARATOR == DETAIL_HEADING + "\n\n";
    SplitAtSeparator(p.summary, DETAIL_HEADING, "\n\n", p.body, DETAIL_SEPARATOR, i);
  }

  /** The same text, cut at an occurrence of the separator and at the end of the summary. */
  lemma SplitAtSeparator(summary: string, heading: string, gap: string, body: string, separator: string, i: nat)
    requires separator == heading + gap && i <= |summary| && OccursAt(summary + separator, separator, i)
    ensures heading + (gap + (summary + separator + body)[i + |separator|..]) == summary[i..] + heading + (gap + body)
  {
    var s := summary + separator;
    var sections := s + body;
    assert sections[i..i + |separator|] == s[i..i + |separator|] == separator;
    assert sections[i..] == separator + sections[i + |separator|..];
    assert sections[i..] == summary[i..] + separator + body;
    var rest := sections[i + |separator|..];
    assert heading + (gap + rest) == separator + rest;
    assert summary[i..] + heading + (gap + body) == summary[i..] + separator + body;
  }

  lemma CancelHead(a: string, b: string, c: string)
    ensures a + b == a + c <==> b == c
  {
    assert (a + b)[|a|..] == b && (a + c)[|a|..] == c;
  }

  lemma CancelTail(a: string, b: string, c: string)
    requires |a| == |b|
    ensures a + c == b + c <==> a == b
  {
    assert (a + c)[..|a|] == a && (b + c)[..|b|] == b;
  }

  /** A summary that quotes the separator is read back short, and its record embeds differently. */
  lemma QuotedSeparator()
    ensures SummaryEnd("\n\n## Detail\n\n") == 0
    ensures !SummarySafe("\n\n## Detail\n\n") && SummarySafe("") && SummarySafe("\n\n## Detail")
  {
    var s := DETAIL_SEPARATOR;
    assert OccursAt(s + DETAIL_SEPARATOR, DETAIL_SEPARATOR, 0) by {
      assert (s + DETAIL_SEPARATOR)[..13] == DETAIL_SEPARATOR;
    }
    assert SummaryEnd(s) == 0;
    assert s[0..] == s;
    assert |s[11..]| == 2;
    var h := DETAIL_HEADING;
    assert OccursAt(h + DETAIL_SEPARATOR, DETAIL_SEPARATOR, 0) by {
      assert (h + DETAIL_SEPARATOR)[..13] == DETAIL_SEPARATOR;
    }
    assert SummaryEnd(h) == 0 && h[0..] == h && h[..11] == h && h[11..] == "";
  }
}
