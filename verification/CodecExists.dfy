/**
 * The laws that the other modules ask of their parameters can all be met at once: a codec, a verified
 * bundle, injective node ids and separating supersession keys are built here, so no theorem holds for want of instances.
 */
module CodecExists {
  import opened Prelude
  import opened TextSets
  import opened Anchors
  import opened RecordMarkdown
  import opened Lines
  import opened Outcomes
  import opened BundleModel
  import opened Reader
  import opened ReaderFaces
  import Specimens
  import GraphDerive
  import Gc
  import GcResume

  // ----- a text for every tree -----

  datatype Tree = Num(n: int) | Pair(left: Tree, right: Tree)

  /** Four trees in one, kept shallow. */
  function Quad(a: Tree, b: Tree, c: Tree, d: Tree): Tree { Pair(Pair(a, b), Pair(c, d)) }

  function Unary(n: nat, c: char): string { if n == 0 then ";" else [c] + Unary(n - 1, c) }

  function Text(t: Tree): string {
    match t
    case Num(n) => if n < 0 then Unary(-n, 'm') else Unary(n, 'p')
    case Pair(l, r) => "(" + Text(l) + Text(r)
  }

  lemma {:induction false} UnaryPrefixFree(n: nat, c: char, m: nat, d: char, s: string, t: string)
    requires c != ';' && d != ';' && Unary(n, c) + s == Unary(m, d) + t
    ensures n == m && s == t && (n > 0 ==> c == d)
  {
    var a, b := Unary(n, c) + s, Unary(m, d) + t;
    assert a[0] == (if n == 0 then ';' else c) && b[0] == (if m == 0 then ';' else d);
    assert a[1..] == (if n == 0 then s else Unary(n - 1, c) + s);
    assert b[1..] == (if m == 0 then t else Unary(m - 1, d) + t);
    if n > 0 { UnaryPrefixFree(n - 1, c, m - 1, d, s, t); }
  }

  lemma {:induction false} UnaryChars(n: nat, c: char)
    ensures forall x :: x in Unary(n, c) ==> x == c || x == ';'
    ensures Unary(n, c) != "" && Unary(n, c)[0] == if n == 0 then ';' else c
  {
    if n > 0 { UnaryChars(n - 1, c); }
  }

  /** No text of a tree is the start of another's, so texts can be read off one after the other. */
  lemma {:induction false} TextPrefixFree(a: Tree, b: Tree, s: string, t: string)
    requires Text(a) + s == Text(b) + t
    ensures a == b && s == t
  {
    FirstChar(a);
    FirstChar(b);
    assert (Text(a) + s)[0] == Text(a)[0] && (Text(b) + t)[0] == Text(b)[0];
    match a {
      case Num(n) =>
        UnaryPrefixFree(if n < 0 then -n else n, if n < 0 then 'm' else 'p',
                        if b.n < 0 then -b.n else b.n, if b.n < 0 then 'm' else 'p', s, t);
      case Pair(l, r) =>
        PairTail(l, r, s);
        PairTail(b.left, b.right, t);
        hide Text;
        TextPrefixFree(l, b.left, Text(r) + s, Text(b.right) + t);
        TextPrefixFree(r, b.right, s, t);
    }
  }

  lemma PairTail(l: Tree, r: Tree, s: string)
    ensures (Text(Pair(l, r)) + s)[1..] == Text(l) + (Text(r) + s)
  {
    assert Text(Pair(l, r)) == "(" + Text(l) + Text(r);
  }

  lemma FirstChar(t: Tree)
    ensures Text(t) != "" && (Text(t)[0] == '(' <==> t.Pair?)
  {
    if t.Num? { UnaryChars(if t.n < 0 then -t.n else t.n, if t.n < 0 then 'm' else 'p'); }
  }

  lemma {:induction false} TextIsPlain(t: Tree)
    ensures NoNewline(Text(t)) && FenceSafe(Text(t)) && '/' !in Text(t)
  {
    match t {
      case Num(n) => UnaryChars(if n < 0 then -n else n, if n < 0 then 'm' else 'p');
      case Pair(l, r) =>
        TextIsPlain(l);
        TextIsPlain(r);
    }
  }

  // ----- a tree for every document -----

  ghost predicate Injective<T(!new)>(f: T -> Tree) { forall a, b :: f(a) == f(b) ==> a == b }

  function OfSeq<T>(f: T -> Tree, s: seq<T>): Tree {
    if s == [] then Num(0) else Pair(f(s[0]), OfSeq(f, s[1..]))
  }

  lemma {:induction false} SeqInjective<T(!new)>(f: T -> Tree, a: seq<T>, b: seq<T>)
    requires Injective(f) && OfSeq(f, a) == OfSeq(f, b)
    ensures a == b
  {
    if a != [] && b != [] {
      SeqInjective(f, a[1..], b[1..]);
      assert a == [a[0]] + a[1..] && b == [b[0]] + b[1..];
    }
  }

  function OfOption<T>(f: T -> Tree, o: Option<T>): Tree {
    match o case None => Num(0) case Some(x) => Pair(Num(1), f(x))
  }

  function OfChar(c: char): Tree { Num(c as int) }

  function OfString(s: string): Tree { OfSeq(OfChar, s) }

  function OfStrings(s: seq<string>): Tree { OfSeq(OfString, s) }

  function OfBool(b: bool): Tree { Num(if b then 1 else 0) }

  function OfInt(n: int): Tree { Num(n) }

  function OfText(o: Option<string>): Tree { OfOption(OfString, o) }

  function OfNumber(o: Option<int>): Tree { OfOption(OfInt, o) }

  function OfFlag(o: Option<bool>): Tree { OfOption(OfBool, o) }

  lemma StringInjective()
    ensures Injective(OfString) && Injective(OfStrings)
  {
    forall a, b | OfString(a) == OfString(b) ensures a == b { SeqInjective(OfChar, a, b); }
    forall a, b | OfStrings(a) == OfStrings(b) ensures a == b { SeqInjective(OfString, a, b); }
  }

  lemma OptionsInjective()
    ensures Injective(OfText) && Injective(OfNumber) && Injective(OfFlag)
  {
    StringInjective();
    hide OfString, OfStrings;
    forall a, b | OfText(a) == OfText(b) ensures a == b {}
    forall a, b | OfNumber(a) == OfNumber(b) ensures a == b {}
    forall a, b | OfFlag(a) == OfFlag(b) ensures a == b {}
  }

  function OfOrigin(o: OriginClass): Tree {
    Num(match o case User => 0 case AgentVerified => 1 case AgentObserved => 2 case Import => 3)
  }

  function OfKind(k: BundleKind): Tree {
    Num(match k case Fact => 0 case Procedure => 1 case Caution => 2 case Unknown => 3 case Policy => 4)
  }

  function OfScope(s: Scope): Tree { Pair(OfString(s.tier), OfString(s.key)) }

  function OfAnchor(a: Anchor): Tree {
    match a
    case Page(route) => Pair(Num(0), OfString(route))
    case Flow(name) => Pair(Num(1), OfString(name))
    case El(role, name, ordinal) => Quad(Num(2), OfString(role), OfString(name), OfNumber(ordinal))
    case Platform(p) => Pair(Num(3), OfString(p))
    case Selector(l) => Pair(Num(4), OfString(l))
    case ErrorText(m) => Pair(Num(5), OfString(m))
  }

  lemma AnchorInjective()
    ensures Injective(OfAnchor)
  {
    StringInjective();
    OptionsInjective();
    hide OfString, OfNumber;
    forall a, b | OfAnchor(a) == OfAnchor(b) ensures a == b {}
  }

  function OfAnchorPair(p: AnchorPair): Tree { Pair(OfAnchor(p.raw), OfAnchor(p.normalized)) }

  function OfAnchors(s: seq<AnchorPair>): Tree { OfSeq(OfAnchorPair, s) }

  lemma AnchorsInjective()
    ensures Injective(OfAnchors)
  {
    AnchorInjective();
    hide OfAnchor;
    forall a, b | OfAnchorPair(a) == OfAnchorPair(b) ensures a == b {}
    forall a, b | OfAnchors(a) == OfAnchors(b) ensures a == b { SeqInjective(OfAnchorPair, a, b); }
  }

  function OfFront(f: Frontmatter): Tree {
    Pair(
      Quad(OfString(f.id), OfKind(f.kind), OfText(f.subtype), OfAnchors(f.anchors)),
      Quad(OfScope(f.scope), Num(f.createdAtOrdinal), OfOrigin(f.originClass), OfBool(f.evidenceIncomplete)))
  }

  lemma FrontInjective()
    ensures Injective(OfFront)
  {
    StringInjective();
    OptionsInjective();
    AnchorsInjective();
    hide OfString, OfText, OfAnchors;
    forall a, b | OfFront(a) == OfFront(b) ensures a == b {}
  }

  function OfCore(i: IdentityCore): Tree {
    Pair(OfKind(i.kind), Quad(OfText(i.subtype), OfAnchor(i.primaryAnchor), OfScope(i.scope), OfString(i.discriminantKey)))
  }

  lemma CoreInjective()
    ensures Injective(OfCore)
  {
    StringInjective();
    OptionsInjective();
    AnchorInjective();
    hide OfString, OfText, OfAnchor;
    forall a, b | OfCore(a) == OfCore(b) ensures a == b {}
  }

  /** A map of texts as its keys in order and its values in the order of the keys. */
  function OfMap(m: map<string, string>): Tree {
    var keys := SortedSet(m.Keys);
    Pair(OfStrings(keys), OfStrings(ValuesOf(m, keys)))
  }

  function ValuesOf(m: map<string, string>, keys: seq<string>): (r: seq<string>)
    requires forall k :: k in keys ==> k in m
    ensures |r| == |keys| && forall i :: 0 <= i < |r| ==> r[i] == m[keys[i]]
  {
    seq(|keys|, i requires 0 <= i < |keys| => m[keys[i]])
  }

  lemma MapInjective(a: map<string, string>, b: map<string, string>)
    requires OfMap(a) == OfMap(b)
    ensures a == b
  {
    StringInjective();
    hide OfString, OfStrings;
    var keys := SortedSet(a.Keys);
    assert keys == SortedSet(b.Keys);
    assert a.Keys == b.Keys by { assert forall k :: k in a.Keys <==> k in keys; }
    forall k | k in a ensures a[k] == b[k] {
      var i :| 0 <= i < |keys| && keys[i] == k;
      assert ValuesOf(a, keys)[i] == ValuesOf(b, keys)[i];
    }
  }

  function OfManifest(m: Manifest): Tree {
    Quad(
      Quad(OfString(m.id), OfString(m.identityHash), OfCore(m.identityCore), OfString(m.embeddingInput)),
      Quad(OfMap(m.contentHashes), OfString(m.mutableStateHash), OfBool(m.evidenceIncomplete), OfBool(m.complete)),
      Num(m.createdAtOrdinal),
      OfOrigin(m.originClass))
  }

  lemma ManifestInjective()
    ensures Injective(OfManifest)
  {
    StringInjective();
    CoreInjective();
    hide OfString, OfCore, OfMap;
    forall a, b | OfManifest(a) == OfManifest(b) ensures a == b { MapInjective(a.contentHashes, b.contentHashes); }
  }

  function OfProvenance(p: Provenance): Tree {
    match p
    case RunLinked(origin, runId, testId, stepIndex, job, ordinal, authorship, needs, withheld) =>
      Quad(
        Num(0),
        Pair(OfOrigin(origin), OfString(runId)),
        Quad(OfString(testId), Num(stepIndex), OfText(job), OfNumber(ordinal)),
        Pair(OfText(authorship), Pair(OfFlag(needs), OfFlag(withheld))))
    case Standalone(origin, source) => Quad(Num(1), OfOrigin(origin), OfString(source), Num(0))
  }

  lemma ProvenanceInjective()
    ensures Injective(OfProvenance)
  {
    StringInjective();
    OptionsInjective();
    hide OfString, OfText, OfNumber, OfFlag;
    forall a, b | OfProvenance(a) == OfProvenance(b) ensures a == b {}
  }

  function OfRelation(r: Relation): Tree {
    Quad(OfString(r.relationType), OfString(r.targetId), Num(r.addedAtOrdinal), OfString(r.curationJobId))
  }

  function OfRelations(s: seq<Relation>): Tree { OfSeq(OfRelation, s) }

  lemma RelationsInjective()
    ensures Injective(OfRelations)
  {
    StringInjective();
    hide OfString;
    forall a, b | OfRelation(a) == OfRelation(b) ensures a == b {}
    forall a, b | OfRelations(a) == OfRelations(b) ensures a == b { SeqInjective(OfRelation, a, b); }
  }

  function OfMutable(p: MutableParts): Tree {
    Pair(OfText(p.outcomes), Quad(OfText(p.relations), OfText(p.artifactsIndex), OfText(p.measurements), OfText(p.gates)))
  }

  lemma MutableInjective()
    ensures Injective(OfMutable)
  {
    OptionsInjective();
    hide OfText;
    forall a, b | OfMutable(a) == OfMutable(b) ensures a == b {}
  }

  function OfArtifact(a: ArtifactEntry): Tree {
    Quad(
      Quad(OfString(a.id), OfString(a.sha), Num(a.bytes), Num(a.stepIndex)),
      OfString(a.relPath), OfText(a.role), OfText(a.originalName))
  }

  function OfSkipped(s: SkippedEntry): Tree {
    Pair(OfString(s.id), Quad(OfString(s.sha), Num(s.stepIndex), OfString(s.path), OfString(s.reason)))
  }

  function OfArtifacts(i: ArtifactsIndex): Tree { Pair(OfSeq(OfArtifact, i.artifacts), OfSeq(OfSkipped, i.skipped)) }

  lemma ArtifactsInjective()
    ensures Injective(OfArtifacts)
  {
    StringInjective();
    OptionsInjective();
    hide OfString, OfText;
    forall a, b | OfArtifact(a) == OfArtifact(b) ensures a == b {}
    forall a, b | OfSkipped(a) == OfSkipped(b) ensures a == b {}
    forall a, b | OfArtifacts(a) == OfArtifacts(b) ensures a == b {
      SeqInjective(OfArtifact, a.artifacts, b.artifacts);
      SeqInjective(OfSkipped, a.skipped, b.skipped);
    }
  }

  function OfEventKind(k: EventKind): Tree {
    match k
    case Confirmed => Num(0)
    case Contradicted => Num(1)
    case Helpful => Num(2)
    case Harmful => Num(3)
    case Deprecated => Num(4)
    case Promoted => Num(5)
    case Superseded(winner) => Pair(Num(6), OfString(winner))
    case Retracted(token, job) => Pair(Num(7), Pair(OfString(token), OfString(job)))
    case WindowClose(ordinal) => Pair(Num(8), Num(ordinal))
    case Overturned(token, job) => Pair(Num(9), Pair(OfString(token), OfString(job)))
  }

  function OfEvent(e: Event): Tree {
    Pair(OfEventKind(e.kind), Quad(OfString(e.token), OfString(e.job), Num(e.ordinal), OfText(e.observationId)))
  }

  lemma EventInjective()
    ensures Injective(OfEvent)
  {
    StringInjective();
    OptionsInjective();
    hide OfString, OfText;
    forall a, b | OfEvent(a) == OfEvent(b) ensures a == b { assert OfEventKind(a.kind) == OfEventKind(b.kind); }
  }

  function OfPath(p: PromotionPath): Tree { Num(if p.UserSovereign? then 1 else 0) }

  function OfGate(g: GateLine): Tree {
    match g
    case GateReceipt(id, at, detail, digest) =>
      Pair(Num(0), Quad(OfString(id), Num(at), OfString(detail), OfString(digest)))
    case PromotionReceipt(id, at, path, cited, digest) =>
      Pair(Quad(Num(1), OfString(id), Num(at), OfPath(path)), Pair(OfStrings(cited), OfString(digest)))
  }

  lemma GateInjective()
    ensures Injective(OfGate)
  {
    StringInjective();
    hide OfString, OfStrings;
    forall a, b | OfGate(a) == OfGate(b) ensures a == b {}
  }

  // ----- a reader for every writer -----

  /** The valid document written as this text, if there is one. */
  ghost function Read<T(!new)>(tree: T -> Tree, valid: T -> bool, text: string): Option<T> {
    if exists x :: valid(x) && Text(tree(x)) == text then
      var x :| valid(x) && Text(tree(x)) == text;
      Some(x)
    else None
  }

  lemma ReadsBack<T(!new)>(tree: T -> Tree, valid: T -> bool)
    requires Injective(tree)
    ensures forall x :: Read(tree, valid, Text(tree(x))) == if valid(x) then Some(x) else None
    ensures forall t :: Read(tree, valid, t).Some? ==> valid(Read(tree, valid, t).value)
  {
    forall x ensures Read(tree, valid, Text(tree(x))) == if valid(x) then Some(x) else None {
      forall y | Text(tree(y)) == Text(tree(x)) ensures y == x {
        assert Text(tree(y)) + "" == Text(tree(x)) + "";
        TextPrefixFree(tree(y), tree(x), "", "");
      }
    }
  }

  lemma ReadsAll<T(!new)>(tree: T -> Tree)
    requires Injective(tree)
    ensures forall x :: Read(tree, (_: T) => true, Text(tree(x))) == Some(x)
    ensures forall x :: NoNewline(Text(tree(x)))
  {
    ReadsBack(tree, (_: T) => true);
    forall x ensures NoNewline(Text(tree(x))) { TextIsPlain(tree(x)); }
  }

  ghost function TheCodec(): Codec {
    Codec(
      (s: string) => Text(OfString(s)),
      (t: string) => Read(OfString, (_: string) => true, t).GetOr(""),
      (i: IdentityCore) => Text(OfCore(i)),
      (_: BundleKind, _: Anchor) => "x",
      (a: Anchor) => Text(OfAnchor(a)),
      (p: MutableParts) => Text(OfMutable(p)),
      (f: Frontmatter) => [Text(OfFront(f))],
      (lines: seq<string>) => ReadFront(lines),
      (m: Manifest) => Text(OfManifest(m)),
      (t: string) => Read(OfManifest, (m: Manifest) => ValidManifest(m), t),
      (p: Provenance) => Text(OfProvenance(p)),
      (t: string) => Read(OfProvenance, (_: Provenance) => true, t),
      (r: seq<Relation>) => Text(OfRelations(r)),
      (t: string) => Read(OfRelations, (_: seq<Relation>) => true, t),
      (i: ArtifactsIndex) => Text(OfArtifacts(i)),
      (t: string) => Read(OfArtifacts, (i: ArtifactsIndex) => ValidArtifacts(i), t),
      (e: Event) => Text(OfEvent(e)),
      (t: string) => Read(OfEvent, (_: Event) => true, t),
      (g: GateLine) => Text(OfGate(g)),
      (g: GateLine) => Text(OfGate(g)),
      (t: string) => Read(OfGate, (_: GateLine) => true, t),
      (s: string) => Text(OfString(s)),
      (t: string) => Read(OfString, (_: string) => true, t),
      (s: string) => Text(OfString(s)),
      (t: string) => Read(OfString, (_: string) => true, t))
  }

  function FrontReader(): Frontmatter -> bool { (f: Frontmatter) => ValidFront(f) }

  ghost function ReadFront(lines: seq<string>): Option<Frontmatter> {
    if |lines| == 1 then Read(OfFront, FrontReader(), lines[0]) else None
  }

  lemma FrontFields(lines: seq<string>)
    ensures TheCodec().parseFront(lines) == ReadFront(lines)
    ensures forall f :: TheCodec().frontLines(f) == [Text(OfFront(f))]
  {
    hide Read, Text, OfFront, ValidFront;
  }

  lemma FrontWrites(f: Frontmatter)
    ensures
      var lines := TheCodec().frontLines(f);
      && lines != [] && (forall l :: l in lines ==> FenceSafe(l))
      && (ValidFront(f) ==> TheCodec().parseFront(lines) == Some(f))
  {
    hide TheCodec, Read, Text, OfFront, FenceSafe, ValidFront;
    FrontInjective();
    ReadsBack(OfFront, FrontReader());
    FrontFields(TheCodec().frontLines(f));
    TextIsPlain(OfFront(f));
  }

  lemma FrontReads(lines: seq<string>)
    ensures TheCodec().parseFront(lines).Some? ==> ValidFront(TheCodec().parseFront(lines).value)
  {
    hide TheCodec, Read, Text, OfFront, ValidFront;
    FrontInjective();
    ReadsBack(OfFront, FrontReader());
    FrontFields(lines);
  }

  lemma TheFront()
    ensures FrontLawful(TheCodec())
  {
    hide TheCodec, FenceSafe, ValidFront;
    forall f: Frontmatter
      ensures TheCodec().frontLines(f) != [] && (forall l :: l in TheCodec().frontLines(f) ==> FenceSafe(l))
      ensures ValidFront(f) ==> TheCodec().parseFront(TheCodec().frontLines(f)) == Some(f)
    {
      FrontWrites(f);
    }
    forall t ensures TheCodec().parseFront(t).Some? ==> ValidFront(TheCodec().parseFront(t).value) { FrontReads(t); }
  }

  lemma TheParts()
    ensures PartsLawful(TheCodec()) && ManifestLawful(TheCodec())
  {
    hide Read, Text, ValidArtifacts, ValidManifest, OfManifest, OfProvenance, OfRelations, OfArtifacts;
    ManifestInjective();
    ReadsBack(OfManifest, (m: Manifest) => ValidManifest(m));
    ProvenanceInjective();
    ReadsAll(OfProvenance);
    RelationsInjective();
    ReadsAll(OfRelations);
    ArtifactsInjective();
    ReadsBack(OfArtifacts, (i: ArtifactsIndex) => ValidArtifacts(i));
  }

  lemma TheLines()
    ensures LinesLawful(TheCodec())
  {
    hide Read, Text, OfEvent, OfGate, OfString, NoNewline;
    EventInjective();
    ReadsAll(OfEvent);
    GateInjective();
    ReadsAll(OfGate);
    StringInjective();
    ReadsAll(OfString);
  }

  lemma TheSha()
    ensures ShaSeparates(TheCodec())
  {
    hide Read, Text, OfString, NoNewline;
    StringInjective();
    ReadsAll(OfString);
  }

  lemma WrittenApart<T(!new)>(tree: T -> Tree, write: T -> string)
    requires Injective(tree) && forall x :: write(x) == Text(tree(x))
    ensures forall a, b :: write(a) == write(b) ==> a == b
  {
    hide Text;
    forall a, b | write(a) == write(b) ensures a == b { TextPrefixFree(tree(a), tree(b), "", ""); }
  }

  lemma IdentityApart()
    ensures forall a, b :: TheCodec().identityText(a) == TheCodec().identityText(b) ==> a == b
  {
    CoreInjective();
    hide Read, Text, OfCore;
    WrittenApart(OfCore, TheCodec().identityText);
  }

  lemma MutableApart()
    ensures forall a, b :: TheCodec().mutableText(a) == TheCodec().mutableText(b) ==> a == b
  {
    MutableInjective();
    hide Read, Text, OfMutable;
    WrittenApart(OfMutable, TheCodec().mutableText);
  }

  lemma GateApart()
    ensures forall a, b :: TheCodec().gateBody(a) == TheCodec().gateBody(b) ==> a == b
  {
    GateInjective();
    hide Read, Text, OfGate;
    WrittenApart(OfGate, TheCodec().gateBody);
  }

  lemma TheHashed()
    ensures HashedLawful(TheCodec())
  {
    hide TheCodec;
    IdentityApart();
    MutableApart();
    GateApart();
  }

  lemma TheIds()
    ensures SafeIds(TheCodec())
  {
    hide IdentityHash;
    forall core: IdentityCore ensures SafeSegment(MintId(TheCodec(), core)) && !Hidden(MintId(TheCodec(), core)) {
      TheId(core);
    }
  }

  lemma TheId(core: IdentityCore)
    ensures SafeSegment(MintId(TheCodec(), core)) && !Hidden(MintId(TheCodec(), core))
  {
    hide Text, OfString, OfCore, Normalize, Read;
    var text := TheCodec().identityText(core.(primaryAnchor := Normalize(core.primaryAnchor)));
    var hash := Text(OfString(text));
    TextIsPlain(OfString(text));
    var id := MintId(TheCodec(), core);
    assert IdentityHash(TheCodec(), core) == hash;
    var suffix := Take(hash, ID_HASH_SUFFIX_LENGTH);
    assert forall k :: 0 <= k < |suffix| ==> suffix[k] == hash[k];
    assert id == "x" + "-" + suffix && id[0] == 'x' && |id| >= 2;
    assert forall k :: 0 <= k < |id| ==> id[k] == (if k == 0 then 'x' else if k == 1 then '-' else suffix[k - 2]);
  }

  /** Some codec obeys every law at once. */
  lemma LawfulCodecExists() returns (c: Codec)
    ensures Lawful(c) && SafeIds(c)
  {
    c := TheCodec();
    TheSha();
    TheHashed();
    TheFront();
    TheParts();
    TheLines();
    TheIds();
  }

  /** And every lawful codec has verified bundles: any specimen, for instance. */
  lemma VerifiedBundleExists(c: Codec) returns (files: Files)
    requires Lawful(c)
    ensures Verified(c, files)
  {
    hide Lawful, Verified;
    var p := Standalone(User, "");
    Specimens.Specimen(c, [Platform("web")], p, None);
    files := Specimens.SpecimenFiles(c, [Platform("web")], p, None);
  }

  ghost function Forms(s: seq<Anchor>): multiset<Anchor> { multiset(Map(Normalize, s)) }

  /** A list with these normal forms, the same one for all lists that have them. */
  ghost function Representative(m: multiset<Anchor>): seq<Anchor> {
    if exists s :: Forms(s) == m then
      var s :| Forms(s) == m;
      s
    else []
  }

  ghost function SupersessionKey(s: seq<Anchor>): string { Text(OfSeq(OfAnchor, Representative(Forms(s)))) }

  lemma KeySeparatesForms(a: seq<Anchor>, b: seq<Anchor>)
    ensures SupersessionKey(a) == SupersessionKey(b) <==> Forms(a) == Forms(b)
  {
    hide Text, OfAnchor, Forms;
    if SupersessionKey(a) == SupersessionKey(b) {
      AnchorInjective();
      var x, y := Representative(Forms(a)), Representative(Forms(b));
      TextPrefixFree(OfSeq(OfAnchor, x), OfSeq(OfAnchor, y), "", "");
      SeqInjective(OfAnchor, x, y);
      assert Forms(x) == Forms(a) && Forms(y) == Forms(b);
    }
  }

  /** Supersession keys can tell multisets of anchors apart. */
  lemma SeparatingKeysExist() returns (r: Gc.Rules)
    ensures GcResume.SeparatesAnchors(r)
  {
    r := Gc.Rules((s: seq<Anchor>) => SupersessionKey(s), (_: string) => None);
    hide SupersessionKey, Map, Normalize;
    forall a, b ensures r.chainKey(a) == r.chainKey(b) <==> multiset(Map(Normalize, a)) == multiset(Map(Normalize, b)) {
      KeySeparatesForms(a, b);
    }
  }

  /** Node ids can be told apart. */
  lemma SeparatingIdsExist() returns (ids: GraphDerive.Ids)
    ensures GraphDerive.Separates(ids)
  {
    NodeKeyInjective();
    ReadsAll(OfNodeKey);
    ids := GraphDerive.Ids(
      (t: GraphDerive.NodeType, k: GraphDerive.NaturalKey) => Text(OfNodeKey((t, k))),
      (s: string) => Read(OfNodeKey, (_: NodeKey) => true, s).GetOr((GraphDerive.TestNode, GraphDerive.TextKey(""))));
    hide Read, Text, OfNodeKey;
    forall t, k ensures ids.back(ids.of(t, k)) == (t, k) {
      assert Read(OfNodeKey, (_: NodeKey) => true, Text(OfNodeKey((t, k)))) == Some((t, k));
    }
  }

  type NodeKey = (GraphDerive.NodeType, GraphDerive.NaturalKey)

  function OfNodeKey(p: NodeKey): Tree { Pair(Num(NodeTypeNumber(p.0)), OfNaturalKey(p.1)) }

  lemma NodeKeyInjective()
    ensures Injective(OfNodeKey)
  {
    StringInjective();
    hide OfString;
    forall a, b | OfNodeKey(a) == OfNodeKey(b) ensures a == b {
      assert NodeTypeNumber(a.0) == NodeTypeNumber(b.0) && OfNaturalKey(a.1) == OfNaturalKey(b.1);
    }
  }

  function OfNaturalKey(k: GraphDerive.NaturalKey): Tree {
    match k
    case TextKey(text) => Pair(Num(0), OfString(text))
    case StepKey(key, ordinal) => Pair(Num(1), Pair(OfString(key), Num(ordinal)))
  }

  function NodeTypeNumber(t: GraphDerive.NodeType): int {
    match t
    case TestNode => 0
    case ProcedureNode => 1
    case StepNode => 2
    case FlowNode => 3
    case ErrorNode => 4
    case ElementNode => 5
    case WebElement => 6
    case MobileElement => 7
    case WebPage => 8
    case MobileScreen => 9
    case WebLocator => 10
    case AndroidLocator => 11
    case IosLocator => 12
  }
}
