/**
 * Serving knowledge: the scan that reads bundles directly, the recheck that every indexed hit must pass,
 * and the facade that leaves the index for good after one failed operation.
 */
module Reader {
  import opened Prelude
  import opened StableSort
  import opened TextOrder
  import opened Lines
  import opened Anchors
  import opened Outcomes
  import opened BundleModel
  import opened BundleLoad
  import opened DenseSearch

  datatype Entry = Entry(product: string, dir: string)

  /** The bundle directories on disk. */
  type Disk = map<Entry, Files>

  /** What reading depends on besides the files: serialisers, the observation schema, and the text match. */
  datatype Reading = Reading(
    c: Codec,
    distills: string -> bool,
    textMatches: (LoadedBundle, string) -> bool)

  datatype Hit = Hit(
    bundleId: string,
    product: string,
    kind: BundleKind,
    subtype: Option<string>,
    status: Status,
    trust: real,
    openedAtOrdinal: int,
    closedAtOrdinal: Option<int>,
    summary: string,
    embeddingInput: string)

  function ToHit(b: LoadedBundle, product: string): Hit {
    var t := TrustOf(b);
    Hit(b.manifest.id, product, b.front.kind, b.front.subtype, t.status, t.trust, t.openedAtOrdinal, t.closedAtOrdinal,
        b.prose.summary, b.manifest.embeddingInput)
  }

  /** One path segment: `basename(s) === s`, and not a name with a meaning of its own. */
  predicate SafeSegment(s: string) { s != "" && s != "." && s != ".." && '/' !in s }

  predicate Hidden(dir: string) { dir != "" && dir[0] == '.' }

  /** The promotion evidence of a bundle can be assembled: its observation log, if any, reads. */
  predicate ObservationsRead(r: Reading, files: Files) {
    || OBSERVATIONS !in files
    || files[OBSERVATIONS] == ""
    || (LogLines(files[OBSERVATIONS]).Ok? && forall l :: l in LogLines(files[OBSERVATIONS]).value ==> r.distills(l))
  }

  /** The bundle a directory serves: visible, verified and loadable. */
  function Authentic(r: Reading, disk: Disk, e: Entry): Option<LoadedBundle> {
    if e !in disk || Hidden(e.dir) || !Verified(r.c, disk[e]) then None
    else
      match LoadBundle(r.c, disk[e])
      case Loaded(b) => Some(b)
      case _ => None
  }

  // ----- the recheck -----

  /** What one hit becomes: the truth of the directory it names, or nothing. */
  function RecheckOne(r: Reading, disk: Disk, hit: Hit, audit: bool): Option<Hit> {
    var e := Entry(hit.product, hit.bundleId);
    if !SafeSegment(hit.product) || !SafeSegment(hit.bundleId) then None
    else
      match Authentic(r, disk, e)
      case None => None
      case Some(b) =>
        if b.manifest.id != hit.bundleId || (!audit && !IsServable(TrustOf(b))) || !ObservationsRead(r, disk[e]) then None
        else Some(ToHit(b, hit.product))
  }

  function Recheck(r: Reading, disk: Disk, hits: seq<Hit>, audit: bool): seq<Hit> {
    if hits == [] then [] else OptionSeq(RecheckOne(r, disk, hits[0], audit)) + Recheck(r, disk, hits[1..], audit)
  }

  method RecheckAuthoritativeHits(r: Reading, disk: Disk, hits: seq<Hit>, audit: bool) returns (refreshed: seq<Hit>)
    ensures refreshed == Recheck(r, disk, hits, audit)
  {
    refreshed := [];
    for i := 0 to |hits|
      invariant refreshed + Recheck(r, disk, hits[i..], audit) == Recheck(r, disk, hits, audit)
    {
      hide Authentic, ToHit, TrustOf, ObservationsRead;
      assert hits[i..][1..] == hits[i + 1..];
      RecheckStep(refreshed, OptionSeq(RecheckOne(r, disk, hits[i], audit)), Recheck(r, disk, hits[i + 1..], audit));
      var hit := hits[i];
      if !SafeSegment(hit.product) || !SafeSegment(hit.bundleId) {
        assert refreshed + [] == refreshed;
        continue;
      }
      var e := Entry(hit.product, hit.bundleId);
      var bundle := Authentic(r, disk, e);
      if bundle == None || bundle.value.manifest.id != hit.bundleId {
        assert refreshed + [] == refreshed;
        continue;
      }
      if !audit && !IsServable(TrustOf(bundle.value)) {
        assert refreshed + [] == refreshed;
        continue;
      }
      if ObservationsRead(r, disk[e]) {
        refreshed := refreshed + [ToHit(bundle.value, hit.product)];
      } else {
        assert refreshed + [] == refreshed;
      }
    }
    assert refreshed + [] == refreshed;
  }

  lemma RecheckStep(a: seq<Hit>, b: seq<Hit>, c: seq<Hit>)
    ensures a + (b + c) == (a + b) + c
  {
  }

  // ----- the scan -----

  datatype Scan = Scan(text: string, anchor: Option<Anchor>, product: Option<string>, limit: Limit, servingOnly: bool)

  /** `anchorMatches`: identity of the normal form, or role and name of an element. */
  predicate AnchorMatches(b: LoadedBundle, query: Option<Anchor>) {
    query == None ||
    exists p :: p in b.front.anchors &&
      (p.normalized == query.value
       || (p.normalized.El? && query.value.El? && p.normalized.role == query.value.role && p.normalized.name == query.value.name))
  }

  function QueryAnchor(s: Scan): Option<Anchor> {
    if s.anchor == None then None else Some(Normalize(s.anchor.value))
  }

  function ScanOne(r: Reading, disk: Disk, s: Scan, e: Entry): Option<Hit> {
    if s.product.Some? && e.product != s.product.value then None
    else
      match Authentic(r, disk, e)
      case None => None
      case Some(b) =>
        if s.servingOnly && !IsServable(TrustOf(b)) then None
        else if !r.textMatches(b, s.text) then None
        else if !AnchorMatches(b, QueryAnchor(s)) then None
        else Some(ToHit(b, e.product))
  }

  function Scanned(r: Reading, disk: Disk, s: Scan, entries: seq<Entry>): seq<Hit> {
    if entries == [] then [] else OptionSeq(ScanOne(r, disk, s, entries[0])) + Scanned(r, disk, s, entries[1..])
  }

  predicate HitLe(a: Hit, b: Hit) {
    TextLt(a.product, b.product) || (a.product == b.product && TextLe(a.bundleId, b.bundleId))
  }

  const HIT_ORDER: (Hit, Hit) -> bool := (a: Hit, b: Hit) => HitLe(a, b)

  /** `slice(0, max(0, floor(k)))`, with no limit when `k` is absent. */
  function Cut(hits: seq<Hit>, limit: Limit): seq<Hit> {
    match limit
    case Absent => hits
    case Infinite => hits
    case NotFinite => []
    case Finite(v) => Take(hits, Max(0, v.Floor))
  }

  function ScanAnswer(r: Reading, disk: Disk, s: Scan, entries: seq<Entry>): seq<Hit> {
    Cut(Sort(Scanned(r, disk, s, entries), HIT_ORDER), s.limit)
  }

  method ScanBundles(r: Reading, disk: Disk, s: Scan, entries: seq<Entry>) returns (hits: seq<Hit>)
    ensures hits == ScanAnswer(r, disk, s, entries)
  {
    var found: seq<Hit> := [];
    for i := 0 to |entries|
      invariant found + Scanned(r, disk, s, entries[i..]) == Scanned(r, disk, s, entries)
    {
      hide ToHit, TrustOf, AnchorMatches, Authentic;
      assert entries[i..][1..] == entries[i + 1..];
      RecheckStep(found, OptionSeq(ScanOne(r, disk, s, entries[i])), Scanned(r, disk, s, entries[i + 1..]));
      assert found + [] == found;
      var e := entries[i];
      if s.product.Some? && e.product != s.product.value { continue; }
      var bundle := Authentic(r, disk, e);
      if bundle == None { continue; }
      if s.servingOnly && !IsServable(TrustOf(bundle.value)) { continue; }
      if !r.textMatches(bundle.value, s.text) { continue; }
      if !AnchorMatches(bundle.value, QueryAnchor(s)) { continue; }
      found := found + [ToHit(bundle.value, e.product)];
    }
    assert found + [] == found;
    hits := Cut(Sort(found, HIT_ORDER), s.limit);
  }

  function ServableHit(r: Reading, disk: Disk, e: Entry): Option<Hit> {
    match Authentic(r, disk, e)
    case None => None
    case Some(b) => if IsServable(TrustOf(b)) then Some(ToHit(b, e.product)) else None
  }

  /** `scanBundleById`: the first directory of that name that serves anything. */
  function ScanById(r: Reading, disk: Disk, id: string, entries: seq<Entry>): Option<Hit> {
    if entries == [] then None
    else if entries[0].dir == id && ServableHit(r, disk, entries[0]).Some? then ServableHit(r, disk, entries[0])
    else ScanById(r, disk, id, entries[1..])
  }

  method ScanBundleById(r: Reading, disk: Disk, id: string, entries: seq<Entry>) returns (hit: Option<Hit>)
    ensures hit == ScanById(r, disk, id, entries)
  {
    for i := 0 to |entries|
      invariant ScanById(r, disk, id, entries[i..]) == ScanById(r, disk, id, entries)
    {
      hide ServableHit;
      assert entries[i..][1..] == entries[i + 1..];
      if entries[i].dir != id { continue; }
      hit := ServableHit(r, disk, entries[i]);
      if hit != None { return; }
    }
    hit := None;
  }

  // ----- what is served is true -----

  /** The hit says what the verified, servable bundle in this directory says. */
  predicate TrueOf(r: Reading, disk: Disk, e: Entry, h: Hit) {
    && Authentic(r, disk, e).Some? && IsServable(TrustOf(Authentic(r, disk, e).value))
    && h == ToHit(Authentic(r, disk, e).value, e.product)
  }

  /** Whatever the index row said, a hit that passes the recheck is the truth of the directory it names. */
  lemma {:induction false} RecheckTruth(r: Reading, disk: Disk, hits: seq<Hit>, h: Hit)
    requires h in Recheck(r, disk, hits, false)
    ensures TrueOf(r, disk, Entry(h.product, h.bundleId), h)
    ensures exists g :: g in hits && g.product == h.product && g.bundleId == h.bundleId
  {
    if RecheckOne(r, disk, hits[0], false) == Some(h) {
      assert hits[0] in hits;
    } else {
      RecheckTruth(r, disk, hits[1..], h);
      var g :| g in hits[1..] && g.product == h.product && g.bundleId == h.bundleId;
      assert g in hits;
    }
  }

  /** Only the directory a row names matters: everything else in the row may be anything. */
  lemma {:induction false} RecheckIgnoresRows(r: Reading, disk: Disk, a: seq<Hit>, b: seq<Hit>, audit: bool)
    requires |a| == |b|
    requires forall i :: 0 <= i < |a| ==> a[i].product == b[i].product && a[i].bundleId == b[i].bundleId
    ensures Recheck(r, disk, a, audit) == Recheck(r, disk, b, audit)
  {
    if a != [] { RecheckIgnoresRows(r, disk, a[1..], b[1..], audit); }
  }

  lemma RecheckOneFixed(r: Reading, disk: Disk, hit: Hit, audit: bool)
    ensures
      var o := RecheckOne(r, disk, hit, audit);
      o.Some? ==> o.value.product == hit.product && o.value.bundleId == hit.bundleId
                  && RecheckOne(r, disk, o.value, audit) == o
  {
  }

  /** Rechecking what has been rechecked changes nothing. */
  lemma {:induction false} RecheckIdempotent(r: Reading, disk: Disk, hits: seq<Hit>, audit: bool)
    ensures Recheck(r, disk, Recheck(r, disk, hits, audit), audit) == Recheck(r, disk, hits, audit)
  {
    if hits != [] {
      hide RecheckOne;
      RecheckOneFixed(r, disk, hits[0], audit);
      RecheckIdempotent(r, disk, hits[1..], audit);
      var o, rest := RecheckOne(r, disk, hits[0], audit), Recheck(r, disk, hits[1..], audit);
      if o.Some? { assert ([o.value] + rest)[1..] == rest; } else { assert [] + rest == rest; }
    }
  }

  /** A scanned hit is the truth of the directory it was found in, whatever that directory is called. */
  lemma {:induction false} ScanTruth(r: Reading, disk: Disk, s: Scan, entries: seq<Entry>, h: Hit)
    requires s.servingOnly && h in Scanned(r, disk, s, entries)
    ensures exists e :: e in entries && TrueOf(r, disk, e, h)
  {
    if ScanOne(r, disk, s, entries[0]) == Some(h) {
      assert entries[0] in entries && TrueOf(r, disk, entries[0], h);
    } else {
      ScanTruth(r, disk, s, entries[1..], h);
      var e :| e in entries[1..] && TrueOf(r, disk, e, h);
      assert e in entries;
    }
  }

  lemma {:induction false} ScanByIdTruth(r: Reading, disk: Disk, id: string, entries: seq<Entry>)
    requires ScanById(r, disk, id, entries).Some?
    ensures exists e :: e in entries && e.dir == id && TrueOf(r, disk, e, ScanById(r, disk, id, entries).value)
  {
    if entries[0].dir == id && ServableHit(r, disk, entries[0]).Some? {
      assert TrueOf(r, disk, entries[0], ScanById(r, disk, id, entries).value);
    } else {
      ScanByIdTruth(r, disk, id, entries[1..]);
      var e :| e in entries[1..] && e.dir == id && TrueOf(r, disk, e, ScanById(r, disk, id, entries[1..]).value);
      assert e in entries;
    }
  }

  // ----- the facade -----

  datatype Face = IndexFace | ScanFace

  datatype IndexFault = EpochMismatch | Broken

  datatype Query =
    | GetById(id: string)
    | SearchLexical(text: string, product: Option<string>, limit: Limit)
    | LookupAnchor(anchor: Anchor, product: Option<string>, limit: Limit)
    | SearchDense
    | RecheckHits(hits: seq<Hit>)

  /** The answer of the scanning reader. */
  function ScanReaderAnswer(r: Reading, disk: Disk, entries: seq<Entry>, q: Query): seq<Hit> {
    match q
    case GetById(id) => OptionSeq(ScanById(r, disk, id, entries))
    case SearchLexical(text, product, limit) => ScanAnswer(r, disk, Scan(text, None, product, limit, true), entries)
    case LookupAnchor(anchor, product, limit) =>
      ScanAnswer(r, disk, Scan("", Some(Normalize(anchor)), product, limit, true), entries)
    case SearchDense => []
    case RecheckHits(hits) => Recheck(r, disk, hits, false)
  }

  /** The answer of the indexed reader, given whatever rows its query selected. */
  function IndexReaderAnswer(r: Reading, disk: Disk, q: Query, rows: seq<Hit>): seq<Hit> {
    match q
    case RecheckHits(hits) => Recheck(r, disk, hits, false)
    case GetById(_) => Take(Recheck(r, disk, Take(rows, 1), false), 1)
    case _ => Recheck(r, disk, rows, false)
  }

  class KnowledgeFacade {
    const r: Reading
    var face: Face
    var rebuildRequests: nat
    var closed: bool

    constructor (r: Reading)
      ensures this.r == r && face.IndexFace? && rebuildRequests == 0 && !closed
    {
      this.r, face, rebuildRequests, closed := r, IndexFace, 0, false;
    }

    /** One operation: tried on the index while it is trusted, otherwise answered by the scan. */
    method Invoke(disk: Disk, entries: seq<Entry>, q: Query, rows: Result<seq<Hit>, IndexFault>) returns (hits: seq<Hit>)
      modifies `face, `rebuildRequests
      ensures old(face).ScanFace? ==> face.ScanFace? && rebuildRequests == old(rebuildRequests)
      ensures
        if old(face).IndexFace? && rows.Ok? then
          face.IndexFace? && hits == IndexReaderAnswer(r, disk, q, rows.value) && rebuildRequests == old(rebuildRequests)
        else
          face.ScanFace? && hits == ScanReaderAnswer(r, disk, entries, q)
      ensures old(face).IndexFace? && rows.Err? ==>
                rebuildRequests == old(rebuildRequests) + (if rows.error.EpochMismatch? then 0 else 1)
    {
      if face.IndexFace? {
        if rows.Ok? {
          hits := AnswerFromIndex(disk, q, rows.value);
          return;
        }
        if !rows.error.EpochMismatch? { rebuildRequests := rebuildRequests + 1; }
        face := ScanFace;
      }
      hits := AnswerFromScan(disk, entries, q);
    }

    method AnswerFromIndex(disk: Disk, q: Query, rows: seq<Hit>) returns (hits: seq<Hit>)
      ensures hits == IndexReaderAnswer(r, disk, q, rows)
    {
      match q {
        case RecheckHits(given) => hits := RecheckAuthoritativeHits(r, disk, given, false);
        case GetById(_) =>
          hits := RecheckAuthoritativeHits(r, disk, Take(rows, 1), false);
          hits := Take(hits, 1);
        case _ => hits := RecheckAuthoritativeHits(r, disk, rows, false);
      }
    }

    method AnswerFromScan(disk: Disk, entries: seq<Entry>, q: Query) returns (hits: seq<Hit>)
      ensures hits == ScanReaderAnswer(r, disk, entries, q)
    {
      match q {
        case GetById(id) =>
          var hit := ScanBundleById(r, disk, id, entries);
          hits := OptionSeq(hit);
        case SearchLexical(text, product, limit) =>
          hits := ScanBundles(r, disk, Scan(text, None, product, limit, true), entries);
        case LookupAnchor(anchor, product, limit) =>
          hits := ScanBundles(r, disk, Scan("", Some(Normalize(anchor)), product, limit, true), entries);
        case SearchDense => hits := [];
        case RecheckHits(given) => hits := RecheckAuthoritativeHits(r, disk, given, false);
      }
    }
  }

  /** One operation as the outside sees it: the disk at that moment, the query, and what SQL answered. */
  datatype Call = Call(disk: Disk, entries: seq<Entry>, q: Query, rows: Result<seq<Hit>, IndexFault>)

  function Served(r: Reading, face: Face, call: Call): (Face, seq<Hit>) {
    if face.IndexFace? && call.rows.Ok? then (IndexFace, IndexReaderAnswer(r, call.disk, call.q, call.rows.value))
    else (ScanFace, ScanReaderAnswer(r, call.disk, call.entries, call.q))
  }

  /** The faces and answers of a whole session. */
  function Session(r: Reading, face: Face, calls: seq<Call>): seq<(Face, seq<Hit>)>
    decreases calls
  {
    if calls == [] then []
    else [Served(r, face, calls[0])] + Session(r, Served(r, face, calls[0]).0, calls[1..])
  }

  lemma {:induction false} TakeMember(s: seq<Hit>, k: nat, x: Hit)
    requires x in Take(s, k)
    ensures x in s
  {
    var i :| 0 <= i < |Take(s, k)| && Take(s, k)[i] == x;
    assert s[i] == x;
  }

  /** The hit says what some verified, servable bundle of its product says, and that bundle carries its id. */
  predicate Truthful(r: Reading, disk: Disk, h: Hit) {
    exists e :: e in disk && e.product == h.product && TrueOf(r, disk, e, h)
  }

  lemma TrueIsTruthful(r: Reading, disk: Disk, e: Entry, h: Hit)
    requires TrueOf(r, disk, e, h)
    ensures Truthful(r, disk, h)
  {
    assert e in disk && e.product == h.product;
  }

  lemma IndexAnswersTruthfully(r: Reading, disk: Disk, q: Query, rows: seq<Hit>, h: Hit)
    requires h in IndexReaderAnswer(r, disk, q, rows)
    ensures Truthful(r, disk, h)
    ensures TrueOf(r, disk, Entry(h.product, h.bundleId), h)
  {
    hide TrueOf, Truthful;
    match q
    case RecheckHits(hits) =>
      RecheckTruth(r, disk, hits, h);
      TrueIsTruthful(r, disk, Entry(h.product, h.bundleId), h);
    case GetById(_) =>
      TakeMember(Recheck(r, disk, Take(rows, 1), false), 1, h);
      RecheckTruth(r, disk, Take(rows, 1), h);
      TrueIsTruthful(r, disk, Entry(h.product, h.bundleId), h);
    case _ =>
      RecheckTruth(r, disk, rows, h);
      TrueIsTruthful(r, disk, Entry(h.product, h.bundleId), h);
  }

  lemma ScanAnswersTruthfully(r: Reading, disk: Disk, s: Scan, entries: seq<Entry>, h: Hit)
    requires s.servingOnly && h in ScanAnswer(r, disk, s, entries)
    ensures Truthful(r, disk, h)
  {
    hide TrueOf, Truthful, Scanned;
    var sorted := Sort(Scanned(r, disk, s, entries), HIT_ORDER);
    if s.limit.Finite? { TakeMember(sorted, Max(0, s.limit.value.Floor), h); }
    assert h in sorted;
    ScanTruth(r, disk, s, entries, h);
    var e :| e in entries && TrueOf(r, disk, e, h);
    TrueIsTruthful(r, disk, e, h);
  }

  lemma ScanReaderAnswersTruthfully(r: Reading, disk: Disk, entries: seq<Entry>, q: Query, h: Hit)
    requires h in ScanReaderAnswer(r, disk, entries, q)
    ensures Truthful(r, disk, h)
  {
    hide TrueOf, Truthful, ScanAnswer;
    match q
    case GetById(id) =>
      ScanByIdTruth(r, disk, id, entries);
      var e :| e in entries && e.dir == id && TrueOf(r, disk, e, h);
      TrueIsTruthful(r, disk, e, h);
    case SearchLexical(text, product, limit) => ScanAnswersTruthfully(r, disk, Scan(text, None, product, limit, true), entries, h);
    case LookupAnchor(anchor, product, limit) =>
      ScanAnswersTruthfully(r, disk, Scan("", Some(Normalize(anchor)), product, limit, true), entries, h);
    case SearchDense =>
    case RecheckHits(hits) =>
      RecheckTruth(r, disk, hits, h);
      TrueIsTruthful(r, disk, Entry(h.product, h.bundleId), h);
  }

  /**
   * Over a whole session, whatever rows the index returned and however the disk changed between calls:
   * every hit ever served is the truth of a verified servable bundle at that moment, and once a call has
   * been answered by the scan no later call is answered by the index.
   */
  lemma {:induction false} SessionServesTruth(r: Reading, face: Face, calls: seq<Call>, i: nat, h: Hit)
    requires i < |calls|
    ensures |Session(r, face, calls)| == |calls|
    ensures h in Session(r, face, calls)[i].1 ==> Truthful(r, calls[i].disk, h)
    ensures face.ScanFace? ==> Session(r, face, calls)[i].0.ScanFace?
    ensures Session(r, face, calls)[i].0.IndexFace? ==>
              h in Session(r, face, calls)[i].1 ==> TrueOf(r, calls[i].disk, Entry(h.product, h.bundleId), h)
    decreases i
  {
    hide TrueOf, Truthful, IndexReaderAnswer, ScanReaderAnswer;
    SessionLength(r, face, calls);
    if i == 0 {
      var call := calls[0];
      if h in Served(r, face, call).1 {
        if face.IndexFace? && call.rows.Ok? {
          IndexAnswersTruthfully(r, call.disk, call.q, call.rows.value, h);
        } else {
          ScanReaderAnswersTruthfully(r, call.disk, call.entries, call.q, h);
        }
      }
    } else {
      SessionServesTruth(r, Served(r, face, calls[0]).0, calls[1..], i - 1, h);
    }
  }

  lemma {:induction false} SessionLength(r: Reading, face: Face, calls: seq<Call>)
    ensures |Session(r, face, calls)| == |calls|
    decreases calls
  {
    if calls != [] { SessionLength(r, Served(r, face, calls[0]).0, calls[1..]); }
  }

  /** After the first call that the index could not answer, everything is served by the scan. */
  lemma {:induction false} DegradedForGood(r: Reading, face: Face, calls: seq<Call>, i: nat, j: nat)
    requires i < |calls| && calls[i].rows.Err? && i <= j < |calls|
    ensures |Session(r, face, calls)| == |calls| && Session(r, face, calls)[j].0.ScanFace?
    decreases i
  {
    hide IndexReaderAnswer, ScanReaderAnswer;
    SessionLength(r, face, calls);
    if i == 0 {
      if j > 0 { SessionScan(r, calls[1..], j - 1); }
    } else {
      DegradedForGood(r, Served(r, face, calls[0]).0, calls[1..], i - 1, j - 1);
    }
  }

  lemma {:induction false} SessionScan(r: Reading, calls: seq<Call>, j: nat)
    requires j < |calls|
    ensures |Session(r, ScanFace, calls)| == |calls| && Session(r, ScanFace, calls)[j].0.ScanFace?
    decreases j
  {
    hide IndexReaderAnswer, ScanReaderAnswer;
    SessionLength(r, ScanFace, calls);
    if j > 0 { SessionScan(r, calls[1..], j - 1); }
  }
}
