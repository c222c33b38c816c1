/** What each face answers: exactly which bundles, with which fields, in which order and up to which limit. */
module ReaderAnswers {
  import opened Prelude
  import opened StableSort
  import opened TextOrder
  import opened Lines
  import opened Anchors
  import opened Outcomes
  import opened BundleModel
  import opened BundleAppend
  import opened BundleLoad
  import opened DenseSearch
  import opened Reader

  // ----- one bundle -----

  /** The directory is visible and verified, and this is what it reads as. */
  predicate Holds(r: Reading, disk: Disk, e: Entry, b: LoadedBundle) {
    && e in disk && (e.dir != "" ==> e.dir[0] != '.')
    && Verified(r.c, disk[e]) && ReadsAsBundle(r.c, disk[e], b)
  }

  /** Every committed document of the directory reads, and reads as this. */
  predicate ReadsAsBundle(c: Codec, files: Files, b: LoadedBundle) {
    && ReadManifest(c, files) == Some(b.manifest) && b.manifest.complete
    && ReadRecord(c, files) == Some((b.front, b.prose))
    && ReadProvenance(c, files) == Some(b.provenance)
    && RELATIONS in files && c.parseRelations(files[RELATIONS]) == Some(b.relations)
    && ReadArtifacts(c, files) == Some(b.artifacts)
    && EventsOf(c, files) == Some(b.events)
    && GatesOf(c, b.manifest.id, files) == Some(b.gates)
  }

  lemma LoadedIff(c: Codec, files: Files, b: LoadedBundle)
    ensures LoadBundle(c, files) == Loaded(b) <==> ReadsAsBundle(c, files, b)
  {
    hide GatesOf, EventsOf, ReadRecord, ReadProvenance, ReadArtifacts;
  }

  /** What may be shown: current knowledge whose validity has not been closed. */
  predicate MayServe(t: TrustState) {
    t.status != SupersededStatus && t.status != DeprecatedStatus && t.closedAtOrdinal == None
  }

  function FoldedTrust(b: LoadedBundle): TrustState {
    Trust(b.events, b.provenance.originClass, b.manifest.evidenceIncomplete, b.manifest.createdAtOrdinal)
  }

  /** The hit says what the bundle says. */
  predicate Says(b: LoadedBundle, product: string, h: Hit) {
    && h.bundleId == b.manifest.id && h.product == product && h.kind == b.front.kind && h.subtype == b.front.subtype
    && h.summary == b.prose.summary && h.embeddingInput == b.manifest.embeddingInput
    && h.status == FoldedTrust(b).status && h.trust == FoldedTrust(b).trust
    && h.openedAtOrdinal == FoldedTrust(b).openedAtOrdinal && h.closedAtOrdinal == FoldedTrust(b).closedAtOrdinal
  }

  lemma AuthenticIff(r: Reading, disk: Disk, e: Entry, b: LoadedBundle)
    ensures Authentic(r, disk, e) == Some(b) <==> Holds(r, disk, e, b)
  {
    hide Verified, LoadBundle, ReadsAsBundle;
    if e in disk {
      LoadedIff(r.c, disk[e], b);
      if LoadBundle(r.c, disk[e]).Loaded? { LoadedIff(r.c, disk[e], LoadBundle(r.c, disk[e]).bundle); }
    }
  }

  lemma SaysIff(b: LoadedBundle, product: string, h: Hit)
    ensures h == ToHit(b, product) <==> Says(b, product, h)
    ensures IsServable(TrustOf(b)) <==> MayServe(FoldedTrust(b))
  {
    hide Trust;
  }

  // ----- the scan -----

  /** An anchor of the bundle is the asked one, or an element of its role and name. */
  predicate Carries(b: LoadedBundle, a: Anchor) {
    exists p :: p in b.front.anchors &&
      match p.normalized
      case El(role, name, _) => a.El? && a.role == role && a.name == name
      case other => other == a
  }

  lemma CarriesIff(b: LoadedBundle, a: Anchor)
    ensures AnchorMatches(b, Some(a)) <==> Carries(b, a)
    ensures AnchorMatches(b, None)
  {
    forall p | p in b.front.anchors
      ensures (p.normalized == a
               || (p.normalized.El? && a.El? && p.normalized.role == a.role && p.normalized.name == a.name)) <==>
              match p.normalized
              case El(role, name, _) => a.El? && a.role == role && a.name == name
              case other => other == a
    {
    }
  }

  /** The bundle matches the text and carries the normalised anchor. */
  predicate Wanted(r: Reading, s: Scan, b: LoadedBundle) {
    r.textMatches(b, s.text) && (s.anchor.Some? ==> Carries(b, Normalize(s.anchor.value)))
  }

  /** What a scan asks of a directory and its bundle. */
  predicate Asked(r: Reading, s: Scan, e: Entry, b: LoadedBundle) {
    && (s.product.Some? ==> e.product == s.product.value)
    && (s.servingOnly ==> MayServe(FoldedTrust(b)))
    && Wanted(r, s, b)
  }

  /** The directory answers the scan with this hit. */
  ghost predicate Answered(r: Reading, disk: Disk, s: Scan, e: Entry, h: Hit) {
    exists b :: Holds(r, disk, e, b) && Asked(r, s, e, b) && Says(b, e.product, h)
  }

  lemma ScanOneIff(r: Reading, disk: Disk, s: Scan, e: Entry, h: Hit)
    ensures ScanOne(r, disk, s, e) == Some(h) <==> Answered(r, disk, s, e, h)
  {
    hide Authentic, Holds, Says, ToHit, MayServe, FoldedTrust, IsServable, TrustOf, Carries, AnchorMatches, Normalize;
    forall b ensures Authentic(r, disk, e) == Some(b) <==> Holds(r, disk, e, b) { AuthenticIff(r, disk, e, b); }
    if Authentic(r, disk, e).Some? {
      var b := Authentic(r, disk, e).value;
      SaysIff(b, e.product, h);
      CarriesIff(b, if s.anchor.Some? then Normalize(s.anchor.value) else Platform("web"));
    }
  }

  lemma {:induction false} ScannedIff(r: Reading, disk: Disk, s: Scan, entries: seq<Entry>, h: Hit)
    ensures h in Scanned(r, disk, s, entries) <==> exists e :: e in entries && Answered(r, disk, s, e, h)
  {
    hide ScanOne, Answered;
    if entries != [] {
      ScanOneIff(r, disk, s, entries[0], h);
      ScannedIff(r, disk, s, entries[1..], h);
      assert forall e :: e in entries <==> e == entries[0] || e in entries[1..];
    }
  }

  /** Before the limit, a hit is in the answer exactly when a listed directory answers with it. */
  lemma ScanAnswerIff(r: Reading, disk: Disk, s: Scan, entries: seq<Entry>, h: Hit)
    requires s.limit.Absent? || s.limit.Infinite?
    ensures h in ScanAnswer(r, disk, s, entries) <==> exists e :: e in entries && Answered(r, disk, s, e, h)
  {
    hide Scanned, Answered;
    ScannedIff(r, disk, s, entries, h);
  }

  /** Hits come by product and then by id. */
  predicate InOrder(hits: seq<Hit>) {
    forall i, j :: 0 <= i < j < |hits| ==>
      TextLt(hits[i].product, hits[j].product)
      || (hits[i].product == hits[j].product && TextLe(hits[i].bundleId, hits[j].bundleId))
  }

  lemma HitOrderIsPreorder()
    ensures TotalPreorder(HIT_ORDER)
  {
    TextOrderLaws();
    hide TextLe;
  }

  lemma ScanAnswerInOrder(r: Reading, disk: Disk, s: Scan, entries: seq<Entry>)
    ensures InOrder(ScanAnswer(r, disk, s, entries))
  {
    hide Scanned, TextLe;
    HitOrderIsPreorder();
    var all := Sort(Scanned(r, disk, s, entries), HIT_ORDER);
    SortSorted(Scanned(r, disk, s, entries), HIT_ORDER);
    assert forall i, j :: 0 <= i < j < |all| ==> HIT_ORDER(all[i], all[j]);
  }

  /** A finite limit gives the first of them, one that is no number none. */
  lemma ScanAnswerLimited(r: Reading, disk: Disk, s: Scan, entries: seq<Entry>)
    ensures
      var all := ScanAnswer(r, disk, s.(limit := Absent), entries);
      var cut := ScanAnswer(r, disk, s, entries);
      match s.limit
      case Finite(k) => cut <= all && |cut| == (if k < 0.0 then 0 else Min(|all|, k.Floor))
      case NotFinite => cut == []
      case _ => cut == all
  {
    hide ScanOne;
    SameScanned(r, disk, s, entries);
  }

  lemma {:induction false} SameScanned(r: Reading, disk: Disk, s: Scan, entries: seq<Entry>)
    ensures Scanned(r, disk, s.(limit := Absent), entries) == Scanned(r, disk, s, entries)
  {
    if entries != [] { SameScanned(r, disk, s, entries[1..]); }
  }

  /** No directory is listed twice: as many hits as directories that answer. */
  lemma {:induction false} ScannedCount(r: Reading, disk: Disk, s: Scan, entries: seq<Entry>)
    ensures |Scanned(r, disk, s, entries)| == |Filter(entries, (e: Entry) => ScanOne(r, disk, s, e).Some?)|
  {
    hide ScanOne;
    if entries != [] { ScannedCount(r, disk, s, entries[1..]); }
  }

  /** The first directory of that name that serves. */
  lemma {:induction false} ScanByIdIff(r: Reading, disk: Disk, id: string, entries: seq<Entry>, h: Hit)
    ensures ScanById(r, disk, id, entries) == Some(h) <==>
            exists i :: 0 <= i < |entries| && entries[i].dir == id && ServesAs(r, disk, entries[i], h)
              && forall j, g :: 0 <= j < i && entries[j].dir == id ==> !ServesAs(r, disk, entries[j], g)
  {
    hide ServesAs, ServableHit;
    if entries != [] {
      var rest := entries[1..];
      ScanByIdIff(r, disk, id, rest, h);
      forall g ensures ServableHit(r, disk, entries[0]) == Some(g) <==> ServesAs(r, disk, entries[0], g) {
        ServableHitIff(r, disk, entries[0], g);
      }
      if entries[0].dir == id && ServableHit(r, disk, entries[0]).Some? {
        assert ServesAs(r, disk, entries[0], ServableHit(r, disk, entries[0]).value);
      } else {
        FirstInTail(r, disk, id, entries, h);
      }
    }
  }

  ghost predicate FirstServing(r: Reading, disk: Disk, id: string, entries: seq<Entry>, h: Hit, i: nat)
    requires i < |entries|
  {
    && entries[i].dir == id && ServesAs(r, disk, entries[i], h)
    && forall j, g :: 0 <= j < i && entries[j].dir == id ==> !ServesAs(r, disk, entries[j], g)
  }

  lemma FirstInTail(r: Reading, disk: Disk, id: string, entries: seq<Entry>, h: Hit)
    requires entries != [] && forall g :: entries[0].dir == id ==> !ServesAs(r, disk, entries[0], g)
    ensures (exists i :: 0 <= i < |entries| && FirstServing(r, disk, id, entries, h, i)) <==>
            exists i :: 0 <= i < |entries[1..]| && FirstServing(r, disk, id, entries[1..], h, i)
  {
    hide ServesAs;
    var rest := entries[1..];
    if i :| 0 <= i < |rest| && FirstServing(r, disk, id, rest, h, i) {
      assert rest[i] == entries[i + 1];
      forall j, g | 0 <= j < i + 1 && entries[j].dir == id ensures !ServesAs(r, disk, entries[j], g) {
        if j > 0 { assert rest[j - 1] == entries[j]; }
      }
      assert FirstServing(r, disk, id, entries, h, i + 1);
    }
    if i :| 0 <= i < |entries| && FirstServing(r, disk, id, entries, h, i) {
      assert i > 0 && rest[i - 1] == entries[i];
      forall j, g | 0 <= j < i - 1 && rest[j].dir == id ensures !ServesAs(r, disk, rest[j], g) { assert rest[j] == entries[j + 1]; }
      assert FirstServing(r, disk, id, rest, h, i - 1);
    }
  }

  /** The directory holds a bundle that may be served, and the hit says what it says. */
  ghost predicate ServesAs(r: Reading, disk: Disk, e: Entry, h: Hit) {
    exists b :: Holds(r, disk, e, b) && MayServe(FoldedTrust(b)) && Says(b, e.product, h)
  }

  lemma ServableHitIff(r: Reading, disk: Disk, e: Entry, h: Hit)
    ensures ServableHit(r, disk, e) == Some(h) <==> ServesAs(r, disk, e, h)
  {
    hide Authentic, Holds, Says, ToHit, MayServe, FoldedTrust, IsServable, TrustOf;
    forall b ensures Authentic(r, disk, e) == Some(b) <==> Holds(r, disk, e, b) { AuthenticIff(r, disk, e, b); }
    if Authentic(r, disk, e).Some? { SaysIff(Authentic(r, disk, e).value, e.product, h); }
  }

  // ----- the recheck -----

  /** A name that stays inside its directory. */
  predicate OneSegment(s: string) { s !in {"", ".", ".."} && forall i :: 0 <= i < |s| ==> s[i] != '/' }

  /** Every observation of the bundle distills, when it has any. */
  predicate EvidenceReads(r: Reading, files: Files) {
    OBSERVATIONS in files && files[OBSERVATIONS] != "" ==>
      match LogLines(files[OBSERVATIONS])
      case Err(_) => false
      case Ok(lines) => forall i :: 0 <= i < |lines| ==> r.distills(lines[i])
  }

  /**
   * A hit survives the recheck as another exactly when the directory it names holds a bundle of that id
   * that may be served (or any, in an audit), its evidence reads, and the other hit says what it says.
   */
  lemma RecheckOneIff(r: Reading, disk: Disk, hit: Hit, audit: bool, h: Hit)
    ensures RecheckOne(r, disk, hit, audit) == Some(h) <==>
            && OneSegment(hit.product) && OneSegment(hit.bundleId)
            && exists b :: Holds(r, disk, Entry(hit.product, hit.bundleId), b) && b.manifest.id == hit.bundleId
                 && (audit || MayServe(FoldedTrust(b))) && EvidenceReads(r, disk[Entry(hit.product, hit.bundleId)])
                 && Says(b, hit.product, h)
  {
    hide Authentic, Says, ToHit, MayServe, FoldedTrust, IsServable, TrustOf, Verified, ReadsAsBundle;
    var e := Entry(hit.product, hit.bundleId);
    forall b ensures Authentic(r, disk, e) == Some(b) <==> Holds(r, disk, e, b) { AuthenticIff(r, disk, e, b); }
    SegmentIff(hit.product);
    SegmentIff(hit.bundleId);
    if Authentic(r, disk, e).Some? {
      SaysIff(Authentic(r, disk, e).value, hit.product, h);
      EvidenceIff(r, disk[e]);
    }
  }

  lemma SegmentIff(s: string)
    ensures SafeSegment(s) <==> OneSegment(s)
  {
  }

  lemma EvidenceIff(r: Reading, files: Files)
    ensures ObservationsRead(r, files) <==> EvidenceReads(r, files)
  {
  }

  /** The recheck works hit by hit and keeps their order. */
  lemma {:induction false} RecheckAppend(r: Reading, disk: Disk, a: seq<Hit>, b: seq<Hit>, audit: bool)
    ensures Recheck(r, disk, a + b, audit) == Recheck(r, disk, a, audit) + Recheck(r, disk, b, audit)
  {
    hide RecheckOne;
    if a == [] {
      assert a + b == b;
    } else {
      assert (a + b)[1..] == a[1..] + b;
      RecheckAppend(r, disk, a[1..], b, audit);
    }
  }

  // ----- the scanning reader -----

  /** A listed directory of the product that may be served answers with its bundle. */
  ghost predicate Listed(r: Reading, disk: Disk, entries: seq<Entry>, product: Option<string>, b: LoadedBundle, h: Hit) {
    exists e :: e in entries && Holds(r, disk, e, b) && Says(b, e.product, h) && MayServe(FoldedTrust(b))
      && (product.Some? ==> e.product == product.value)
  }

  lemma ListedIff(r: Reading, disk: Disk, entries: seq<Entry>, s: Scan, h: Hit)
    requires s.servingOnly && s.limit.Absent?
    ensures h in ScanAnswer(r, disk, s, entries) <==>
            exists b :: Listed(r, disk, entries, s.product, b, h) && Wanted(r, s, b)
  {
    hide Holds, Says, MayServe, ScanAnswer, Normalize, Carries;
    ScanAnswerIff(r, disk, s, entries, h);
    if h in ScanAnswer(r, disk, s, entries) {
      var e :| e in entries && Answered(r, disk, s, e, h);
      var b :| Holds(r, disk, e, b) && Asked(r, s, e, b) && Says(b, e.product, h);
      assert Listed(r, disk, entries, s.product, b, h);
    }
    if b :| Listed(r, disk, entries, s.product, b, h) && Wanted(r, s, b) {
      var e :| e in entries && Holds(r, disk, e, b) && Says(b, e.product, h) && MayServe(FoldedTrust(b))
        && (s.product.Some? ==> e.product == s.product.value);
      assert Asked(r, s, e, b);
      assert Answered(r, disk, s, e, h);
    }
  }

  /** A text search answers with the listed bundles of the product that match the text. */
  lemma LexicalIff(r: Reading, disk: Disk, entries: seq<Entry>, text: string, product: Option<string>, h: Hit)
    ensures h in ScanReaderAnswer(r, disk, entries, SearchLexical(text, product, Absent)) <==>
            exists b :: Listed(r, disk, entries, product, b, h) && r.textMatches(b, text)
  {
    hide Listed, ScanAnswer;
    ListedIff(r, disk, entries, Scan(text, None, product, Absent, true), h);
  }

  /** An anchor lookup answers with those that carry the twice normalised anchor. */
  lemma LookupIff(r: Reading, disk: Disk, entries: seq<Entry>, a: Anchor, product: Option<string>, h: Hit)
    ensures h in ScanReaderAnswer(r, disk, entries, LookupAnchor(a, product, Absent)) <==>
            exists b :: Listed(r, disk, entries, product, b, h) && r.textMatches(b, "") && Carries(b, Normalize(Normalize(a)))
  {
    hide Listed, ScanAnswer, Normalize, Carries;
    ListedIff(r, disk, entries, Scan("", Some(Normalize(a)), product, Absent, true), h);
  }

  // ----- the indexed reader -----

  /** By id the first row alone is rechecked; any other query rechecks every row it selected. */
  lemma IndexAnswerIs(r: Reading, disk: Disk, q: Query, rows: seq<Hit>)
    ensures q.GetById? && rows == [] ==> IndexReaderAnswer(r, disk, q, rows) == []
    ensures q.GetById? && rows != [] ==> IndexReaderAnswer(r, disk, q, rows) == OptionSeq(RecheckOne(r, disk, rows[0], false))
    ensures q.SearchLexical? || q.LookupAnchor? || q.SearchDense? ==> IndexReaderAnswer(r, disk, q, rows) == Recheck(r, disk, rows, false)
    ensures q.RecheckHits? ==> IndexReaderAnswer(r, disk, q, rows) == Recheck(r, disk, q.hits, false)
  {
    hide RecheckOne;
    if rows == [] {
      assert Take(rows, 1) == [];
    } else {
      var first := OptionSeq(RecheckOne(r, disk, rows[0], false));
      assert Take(rows, 1) == [rows[0]] && [rows[0]][1..] == [];
      assert Recheck(r, disk, [rows[0]], false) == first + Recheck(r, disk, [], false) == first;
      assert Take(first, 1) == first;
    }
  }
}
