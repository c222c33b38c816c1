/** Where the scan and the index disagree: anchors without a stable normal form, and directories the recheck drops. */
module ReaderFaces {
  import opened Prelude
  import opened Lines
  import opened Anchors
  import Outcomes
  import opened BundleModel
  import opened BundleParts
  import opened BundleLoad
  import opened DenseSearch
  import opened Reader
  import Specimens

  /** Minted ids are names of visible directories, as a slug and a hexadecimal suffix are. */
  ghost predicate SafeIds(c: Codec) {
    forall core: IdentityCore :: SafeSegment(MintId(c, core)) && !Hidden(MintId(c, core))
  }

  // ----- anchors on the two faces -----

  /** The index looks an anchor up by its normal form; the scan face normalises that once more. */
  predicate IndexAnchorFinds(b: LoadedBundle, a: Anchor) {
    exists p :: p in b.front.anchors && p.normalized == Normalize(a)
  }

  predicate ScanAnchorFinds(b: LoadedBundle, a: Anchor) { AnchorMatches(b, Some(Normalize(Normalize(a)))) }

  lemma ScanFindsStable(b: LoadedBundle, a: Anchor)
    requires Stable(a) && IndexAnchorFinds(b, a)
    ensures ScanAnchorFinds(b, a)
  {
    hide Normalize, Stable;
    NormalizeStableIff(a);
  }

  /** Normalising an unstable anchor again changes its route or its name, and never its role. */
  lemma UnstableMoves(a: Anchor)
    requires !Stable(a)
    ensures
      var n, m := Normalize(a), Normalize(Normalize(a));
      n != m && !m.Platform? && (n.El? && m.El? ==> n.role == m.role && n.name != m.name)
  {
    NormalizeStableIff(a);
    hide Stable, AccessibleName, NormalizeRoute;
    if a.El? {
      HumanTextForm(a.role);
      HumanTextFixed(HumanText(a.role));
    }
  }

  lemma ScanLosesUnstable(b: LoadedBundle, a: Anchor)
    requires !Stable(a) && b.front.anchors == AnchorPairs([Platform("web"), a])
    ensures IndexAnchorFinds(b, a) && !ScanAnchorFinds(b, a)
  {
    hide Stable, Normalize, AnchorPairs;
    UnstableMoves(a);
    TwoPairs(a);
    var anchors := AnchorPairs([Platform("web"), a]);
    assert anchors[1] in b.front.anchors;
  }

  lemma TwoPairs(a: Anchor)
    ensures AnchorPairs([Platform("web"), a]) == [AnchorPair(Platform("web"), Platform("web")), AnchorPair(a, Normalize(a))]
  {
    assert Normalize(Platform("web")) == Platform("web");
    hide Normalize;
  }

  lemma {:induction false} ScannedMember(r: Reading, disk: Disk, s: Scan, entries: seq<Entry>, e: Entry)
    requires e in entries && ScanOne(r, disk, s, e).Some?
    ensures ScanOne(r, disk, s, e).value in Scanned(r, disk, s, entries)
  {
    hide ScanOne;
    if entries[0] != e { ScannedMember(r, disk, s, entries[1..], e); }
  }

  /** The bundle of a listed directory that serves and that an index lookup of this anchor would find. */
  predicate FoundByIndex(r: Reading, disk: Disk, entries: seq<Entry>, e: Entry, a: Anchor) {
    && e in entries && Authentic(r, disk, e).Some?
    && IsServable(TrustOf(Authentic(r, disk, e).value)) && IndexAnchorFinds(Authentic(r, disk, e).value, a)
  }

  lemma StableLookupFound(r: Reading, disk: Disk, entries: seq<Entry>, e: Entry, a: Anchor)
    requires Stable(a) && FoundByIndex(r, disk, entries, e, a) && r.textMatches(Authentic(r, disk, e).value, "")
    ensures ToHit(Authentic(r, disk, e).value, e.product) in ScanReaderAnswer(r, disk, entries, LookupAnchor(a, None, Absent))
  {
    hide Stable, Normalize, AnchorMatches, Authentic, IndexAnchorFinds, TrustOf, IsServable, ToHit;
    ScanFindsStable(Authentic(r, disk, e).value, a);
    ScannedMember(r, disk, Scan("", Some(Normalize(a)), None, Absent, true), entries, e);
  }

  const NO_RUN: Provenance := Standalone(Outcomes.AgentObserved, "")

  /** The directory of a specimen under its own id. */
  function Home(c: Codec, anchors: seq<Anchor>): Entry
    requires anchors != []
  {
    Entry("p", MintId(c, IdentityInput(Specimens.SpecimenInput(anchors, NO_RUN, None), None)))
  }

  lemma HomeIsAuthentic(r: Reading, anchors: seq<Anchor>, observations: Option<string>, dir: string, disk: Disk)
    requires Lawful(r.c) && anchors != [] && Stable(anchors[0]) && !Hidden(dir)
    requires disk == map[Entry("p", dir) := Specimens.SpecimenFiles(r.c, anchors, NO_RUN, observations)]
    ensures
      var o := Authentic(r, disk, Entry("p", dir));
      o.Some? && Specimens.IsSpecimen(r.c, anchors, NO_RUN, o.value)
  {
    hide Lawful, Stable, Verified, LoadBundle, Specimens.SpecimenFiles, Specimens.IsSpecimen;
    Specimens.Specimen(r.c, anchors, NO_RUN, observations);
  }

  /**
   * For every anchor without a stable normal form there is a verified, servable bundle that the index serves
   * for it and the scan does not: one that carries it as its second anchor.
   */
  lemma UnstableAnchorLost(r: Reading, a: Anchor) returns (disk: Disk, e: Entry, row: Hit)
    requires Lawful(r.c) && SafeIds(r.c) && !Stable(a)
    ensures FoundByIndex(r, disk, [e], e, a)
    ensures IndexReaderAnswer(r, disk, LookupAnchor(a, None, Absent), [row]) == [ToHit(Authentic(r, disk, e).value, e.product)]
    ensures ScanReaderAnswer(r, disk, [e], LookupAnchor(a, None, Absent)) == []
  {
    hide Lawful, Stable, Normalize, Authentic, IndexAnchorFinds, ScanAnchorFinds, SafeIds, Home, ToHit, IsServable, TrustOf,
      ScanReaderAnswer, Specimens.IsSpecimen, Specimens.SpecimenFiles, AnchorPairs, RecheckOne;
    var anchors := [Platform("web"), a];
    WebIsStable();
    e := Home(r.c, anchors);
    disk := map[e := Specimens.SpecimenFiles(r.c, anchors, NO_RUN, None)];
    HomeServes(r, anchors, disk);
    var b := Authentic(r, disk, e).value;
    row := ToHit(b, e.product);
    ScanLosesUnstable(b, a);
    LostOnScan(r, disk, e, a);
    RecheckSingle(r, disk, row);
  }

  /** A specimen at home with nothing observed is served by both faces. */
  lemma HomeServes(r: Reading, anchors: seq<Anchor>, disk: Disk)
    requires Lawful(r.c) && SafeIds(r.c) && anchors != [] && Stable(anchors[0])
    requires disk == map[Home(r.c, anchors) := Specimens.SpecimenFiles(r.c, anchors, NO_RUN, None)]
    ensures
      var e := Home(r.c, anchors);
      var o := Authentic(r, disk, e);
      && o.Some? && IsServable(TrustOf(o.value)) && o.value.front.anchors == AnchorPairs(anchors)
      && RecheckOne(r, disk, ToHit(o.value, e.product), false) == Some(ToHit(o.value, e.product))
  {
    hide Lawful, Stable, Authentic, IsServable, TrustOf, Specimens.SpecimenFiles, MintId, AnchorPairs;
    var e := Home(r.c, anchors);
    HomeIsAuthentic(r, anchors, None, e.dir, disk);
    Specimens.Specimen(r.c, anchors, NO_RUN, None);
    assert ObservationsRead(r, disk[e]);
  }

  lemma LostOnScan(r: Reading, disk: Disk, e: Entry, a: Anchor)
    requires Authentic(r, disk, e).Some? && !ScanAnchorFinds(Authentic(r, disk, e).value, a)
    ensures ScanReaderAnswer(r, disk, [e], LookupAnchor(a, None, Absent)) == []
  {
    hide Authentic, AnchorMatches, Normalize, IsServable, TrustOf, ToHit;
    var s := Scan("", Some(Normalize(a)), None, Absent, true);
    assert ScanOne(r, disk, s, e) == None;
    assert [e][1..] == [] && Scanned(r, disk, s, []) == [];
    assert Scanned(r, disk, s, [e]) == [] + [] == [];
  }

  lemma RecheckSingle(r: Reading, disk: Disk, h: Hit)
    ensures Recheck(r, disk, [h], false) == OptionSeq(RecheckOne(r, disk, h, false))
  {
    hide RecheckOne;
    assert [h][1..] == [];
    assert OptionSeq(RecheckOne(r, disk, h, false)) + [] == OptionSeq(RecheckOne(r, disk, h, false));
  }

  lemma ScanSingle(r: Reading, disk: Disk, e: Entry, h: Hit)
    requires TrueOf(r, disk, e, h)
    ensures ScanById(r, disk, e.dir, [e]) == Some(h)
  {
    hide Authentic, IsServable, TrustOf, ToHit;
  }

  lemma WebIsStable()
    ensures Stable(Platform("web"))
  {
  }

  /** Every servable bundle that an index lookup of this anchor finds, the scan face finds too. */
  ghost predicate FacesAgree(r: Reading, a: Anchor) {
    forall disk, entries, e :: FoundByIndex(r, disk, entries, e, a) ==>
      ToHit(Authentic(r, disk, e).value, e.product) in ScanReaderAnswer(r, disk, entries, LookupAnchor(a, None, Absent))
  }

  /** The two faces agree about an anchor exactly when its normal form is stable. */
  lemma AnchorFacesAgreeIff(r: Reading, a: Anchor)
    requires Lawful(r.c) && SafeIds(r.c) && forall b :: r.textMatches(b, "")
    ensures FacesAgree(r, a) <==> Stable(a)
  {
    hide Authentic, IsServable, TrustOf, IndexAnchorFinds, ToHit, ScanReaderAnswer, IndexReaderAnswer, Lawful, SafeIds, Stable;
    if Stable(a) {
      forall disk, entries, e | FoundByIndex(r, disk, entries, e, a)
        ensures ToHit(Authentic(r, disk, e).value, e.product) in ScanReaderAnswer(r, disk, entries, LookupAnchor(a, None, Absent))
      {
        StableLookupFound(r, disk, entries, e, a);
      }
    } else {
      var disk, e, row := UnstableAnchorLost(r, a);
      assert FoundByIndex(r, disk, [e], e, a);
    }
  }

  // ----- directories the recheck drops -----

  /** What the recheck asks of a directory: it carries its own id, serves, and its observation log reads. */
  predicate ServesItself(r: Reading, disk: Disk, own: Entry) {
    && Authentic(r, disk, own).Some? && Authentic(r, disk, own).value.manifest.id == own.dir
    && IsServable(TrustOf(Authentic(r, disk, own).value)) && ObservationsRead(r, disk[own])
  }

  /**
   * A scanned hit passes the recheck exactly when the directory named by its id, which need not be the one
   * it was found in, serves itself, and unchanged exactly when that directory says the same.
   */
  lemma ScannedHitRechecksIff(r: Reading, disk: Disk, e: Entry, h: Hit)
    requires SafeSegment(e.product) && TrueOf(r, disk, e, h)
    ensures
      var own := Entry(e.product, h.bundleId);
      && (RecheckOne(r, disk, h, false).Some? <==> SafeSegment(h.bundleId) && ServesItself(r, disk, own))
      && (RecheckOne(r, disk, h, false) == Some(h) <==>
            SafeSegment(h.bundleId) && ServesItself(r, disk, own) && TrueOf(r, disk, own, h))
      && (e.dir == h.bundleId && SafeSegment(e.dir) ==>
            (RecheckOne(r, disk, h, false) == Some(h) <==> ObservationsRead(r, disk[e])))
  {
    hide Authentic, IsServable, TrustOf, ObservationsRead;
    assert Entry(e.product, e.dir) == e;
    if e.dir == h.bundleId { assert Entry(e.product, h.bundleId) == e; }
  }

  /** A bundle in a directory of another name is served by the scan and by no recheck. */
  lemma MisnamedDirectoryDropped(r: Reading) returns (disk: Disk, e: Entry, h: Hit)
    requires Lawful(r.c)
    ensures TrueOf(r, disk, e, h) && e.dir != h.bundleId
    ensures ScanReaderAnswer(r, disk, [e], GetById(e.dir)) == [h]
    ensures ScanReaderAnswer(r, disk, [e], RecheckHits([h])) == []
  {
    hide Lawful, Stable, Authentic, MintId, IsServable, TrustOf, Specimens.SpecimenFiles, AnchorPairs, Recheck, ScanById;
    var anchors := [Platform("web")];
    WebIsStable();
    e := Entry("p", "x" + Home(r.c, anchors).dir);
    disk := map[e := Specimens.SpecimenFiles(r.c, anchors, NO_RUN, None)];
    HomeIsAuthentic(r, anchors, None, e.dir, disk);
    h := ToHit(Authentic(r, disk, e).value, e.product);
    assert |e.dir| == |h.bundleId| + 1;
    assert Authentic(r, disk, Entry(h.product, h.bundleId)) == None by { NotOnDisk(r, disk, Entry(h.product, h.bundleId)); }
    RecheckSingle(r, disk, h);
    ScanSingle(r, disk, e, h);
  }

  lemma NotOnDisk(r: Reading, disk: Disk, e: Entry)
    requires e !in disk
    ensures Authentic(r, disk, e) == None
  {
  }

  /** A bundle whose observation log lacks its last newline is served by the scan and dropped by the recheck. */
  lemma MalformedLogDropped(r: Reading) returns (disk: Disk, e: Entry, h: Hit)
    requires Lawful(r.c) && SafeIds(r.c)
    ensures TrueOf(r, disk, e, h) && e.dir == h.bundleId && !ObservationsRead(r, disk[e])
    ensures ScanReaderAnswer(r, disk, [e], GetById(e.dir)) == [h]
    ensures ScanReaderAnswer(r, disk, [e], RecheckHits([h])) == []
  {
    hide Lawful, SafeIds, Home, TrueOf, ObservationsRead, Specimens.SpecimenFiles, Recheck, RecheckOne, ScanById, ToHit, Authentic;
    var anchors := [Platform("web")];
    e := Home(r.c, anchors);
    disk := map[e := Specimens.SpecimenFiles(r.c, anchors, NO_RUN, Some("x"))];
    OpenLogServes(r, anchors, disk);
    h := ToHit(Authentic(r, disk, e).value, e.product);
    UnreadLogDropped(r, disk, e, h);
    RecheckSingle(r, disk, h);
    ScanSingle(r, disk, e, h);
  }

  lemma OpenLogServes(r: Reading, anchors: seq<Anchor>, disk: Disk)
    requires Lawful(r.c) && SafeIds(r.c) && anchors == [Platform("web")]
    requires disk == map[Home(r.c, anchors) := Specimens.SpecimenFiles(r.c, anchors, NO_RUN, Some("x"))]
    ensures
      var e := Home(r.c, anchors);
      && Authentic(r, disk, e).Some?
      && TrueOf(r, disk, e, ToHit(Authentic(r, disk, e).value, e.product))
      && ToHit(Authentic(r, disk, e).value, e.product).bundleId == e.dir
      && !ObservationsRead(r, disk[e])
  {
    hide Lawful, SafeIds, Stable, Hidden, Authentic, MintId, IsServable, TrustOf, Specimens.SpecimenFiles, ObservationsRead,
      AnchorPairs;
    WebIsStable();
    var e := Home(r.c, anchors);
    HomeIsVisible(r.c, anchors);
    HomeIsAuthentic(r, anchors, Some("x"), e.dir, disk);
    Specimens.Specimen(r.c, anchors, NO_RUN, Some("x"));
    OpenLogDoesNotRead(r, disk[e]);
  }

  lemma HomeIsVisible(c: Codec, anchors: seq<Anchor>)
    requires SafeIds(c) && anchors != []
    ensures SafeSegment(Home(c, anchors).dir) && !Hidden(Home(c, anchors).dir)
  {
    hide MintId, SafeSegment, Hidden;
  }

  lemma UnreadLogDropped(r: Reading, disk: Disk, e: Entry, h: Hit)
    requires TrueOf(r, disk, e, h) && e.dir == h.bundleId && !ObservationsRead(r, disk[e])
    ensures RecheckOne(r, disk, h, false) == None
  {
    hide Authentic, IsServable, TrustOf, ObservationsRead;
    assert Entry(h.product, h.bundleId) == e;
  }

  lemma OpenLogDoesNotRead(r: Reading, files: Files)
    requires Lookup(files, OBSERVATIONS) == Some("x")
    ensures !ObservationsRead(r, files)
  {
    assert LogLines("x").Err?;
  }
}
