/** What the change feed says: every change it shows, and in which order, from the bundles and receipts alone. */
module FeedMeaning {
  import opened Prelude
  import opened StableSort
  import opened TextOrder
  import opened Outcomes
  import opened BundleModel
  import opened BundleLoad
  import opened DiffSince

  // ----- the changes of one bundle -----

  /** A change of this kind reports events of that kind, and a supersession names the successor. */
  predicate Reports(kind: ChangeKind, winner: Option<string>, e: EventKind) {
    || (kind == Confirm && e == Confirmed && winner == None)
    || (kind == Deprecate && e == Deprecated && winner == None)
    || (kind == Promote && e == Promoted && winner == None)
    || (kind == Supersede && winner.Some? && e == Superseded(winner.value))
  }

  /** The job of the event was built from the bundle's own candidate. */
  predicate OwnJob(p: Provenance, job: string) {
    p.RunLinked? && p.curationJobId.Some? && job in {p.curationJobId.value, "promote:" + p.curationJobId.value}
  }

  /** The last promotion receipt of this ordinal. */
  predicate LastReceipt(gates: seq<GateLine>, ordinal: int, g: GateLine) {
    exists i :: 0 <= i < |gates| && gates[i] == g && g.PromotionReceipt? && g.producedAtOrdinal == ordinal
      && forall j :: i < j < |gates| ==> !(gates[j].PromotionReceipt? && gates[j].producedAtOrdinal == ordinal)
  }

  predicate HasReceipt(gates: seq<GateLine>, ordinal: int) {
    exists g :: g in gates && g.PromotionReceipt? && g.producedAtOrdinal == ordinal
  }

  /** The strongest path among all promotion receipts. */
  predicate Strongest(gates: seq<GateLine>, path: PromotionPath) {
    (exists g :: g in gates && g.PromotionReceipt? && g.promotionPath == path)
    && (path.UserSovereign? || forall g :: g in gates && g.PromotionReceipt? ==> !g.promotionPath.UserSovereign?)
  }

  /** The promotion part of a change: there exactly when the event is a promotion with a receipt of its ordinal. */
  predicate Attributed(b: LoadedBundle, e: Event, p: Option<Promotion>) {
    if e.kind == Promoted && HasReceipt(b.gates, e.ordinal) then
      && p.Some? && Strongest(b.gates, p.value.path)
      && exists g :: g in b.gates && LastReceipt(b.gates, e.ordinal, g) && g.receiptDigest == p.value.receiptDigest
    else p == None
  }

  /** The change says what the event says. */
  predicate Tells(b: LoadedBundle, e: Event, x: Change) {
    && x.recordId == b.manifest.id && x.at == e.ordinal
    && Reports(x.kind, x.byRecordId, e.kind)
    && x.token == Some(e.token) && x.observationId == e.observationId
    && x.runId == (if OwnJob(b.provenance, e.job) then Some(b.provenance.runId) else None)
    && Attributed(b, e, x.promotion)
  }

  /** The event is later than the creation of the bundle, or a promotion with a receipt. */
  predicate Distinguished(b: LoadedBundle, e: Event) {
    e.ordinal > EarliestOf(b) || (e.kind == Promoted && HasReceipt(b.gates, e.ordinal))
  }

  /** The bundle appears, at the first ordinal known of it and through the run it is linked to. */
  predicate Appears(b: LoadedBundle, x: Change) {
    && x.recordId == b.manifest.id && x.kind == Added && x.at == EarliestOf(b)
    && x.token == None && x.byRecordId == None && x.observationId == None && x.promotion == None
    && x.runId == (if b.provenance.RunLinked? then Some(b.provenance.runId) else None)
  }

  lemma {:induction false} ReceiptAtIsLast(gates: seq<GateLine>, ordinal: int)
    ensures ReceiptAt(gates, ordinal).Some? <==> HasReceipt(gates, ordinal)
    ensures forall g :: ReceiptAt(gates, ordinal) == Some(g) <==> LastReceipt(gates, ordinal, g)
  {
    if gates != [] {
      var front, last := gates[..|gates| - 1], gates[|gates| - 1];
      ReceiptAtIsLast(front, ordinal);
      assert forall g :: g in gates <==> g in front || g == last;
      forall g ensures ReceiptAt(gates, ordinal) == Some(g) <==> LastReceipt(gates, ordinal, g) {
        if last.PromotionReceipt? && last.producedAtOrdinal == ordinal {
          assert gates[|gates| - 1] == last;
        } else {
          LastReceiptFront(gates, ordinal, g);
        }
      }
    }
  }

  lemma LastReceiptFront(gates: seq<GateLine>, ordinal: int, g: GateLine)
    requires gates != []
    requires var last := gates[|gates| - 1]; !(last.PromotionReceipt? && last.producedAtOrdinal == ordinal)
    ensures LastReceipt(gates, ordinal, g) <==> LastReceipt(gates[..|gates| - 1], ordinal, g)
  {
    var front := gates[..|gates| - 1];
    if LastReceipt(front, ordinal, g) {
      var i :| 0 <= i < |front| && front[i] == g && g.PromotionReceipt? && g.producedAtOrdinal == ordinal
        && forall j :: i < j < |front| ==> !(front[j].PromotionReceipt? && front[j].producedAtOrdinal == ordinal);
      assert gates[i] == g;
      assert forall j :: i < j < |front| ==> gates[j] == front[j];
    }
    if LastReceipt(gates, ordinal, g) {
      var i :| 0 <= i < |gates| && gates[i] == g && g.PromotionReceipt? && g.producedAtOrdinal == ordinal
        && forall j :: i < j < |gates| ==> !(gates[j].PromotionReceipt? && gates[j].producedAtOrdinal == ordinal);
      assert i < |front| && front[i] == g;
      assert forall j :: i < j < |front| ==> front[j] == gates[j];
    }
  }

  lemma StrongestIs(gates: seq<GateLine>, path: PromotionPath)
    ensures StrongestPath(gates) == Some(path) <==> Strongest(gates, path)
  {
    StrongestIsStrongest(gates);
    if StrongestPath(gates) == Some(path) {
      var g :| g in gates && g.PromotionReceipt? && (path.UserSovereign? ==> g.promotionPath.UserSovereign?);
      assert g.promotionPath == path;
    }
    if Strongest(gates, path) {
      var g :| g in gates && g.PromotionReceipt? && g.promotionPath == path;
      assert StrongestPath(gates).Some?;
      if path.UserSovereign? {
        assert g.promotionPath.UserSovereign?;
      } else {
        assert StrongestPath(gates) != Some(UserSovereign);
        assert StrongestPath(gates).value.DeterministicVerdictFloor?;
      }
    }
  }

  lemma AttributedIs(b: LoadedBundle, e: Event, x: Change)
    requires x.promotion == None
    ensures forall p :: WithPromotion(x, b, PromotionOf(b, e)).promotion == p <==> Attributed(b, e, p)
  {
    hide StrongestPath, ReceiptAt, Strongest, LastReceipt;
    ReceiptAtIsLast(b.gates, e.ordinal);
    forall path ensures StrongestPath(b.gates) == Some(path) <==> Strongest(b.gates, path) { StrongestIs(b.gates, path); }
    StrongestIsStrongest(b.gates);
    if e.kind == Promoted && HasReceipt(b.gates, e.ordinal) {
      var g := ReceiptAt(b.gates, e.ordinal).value;
      assert LastReceipt(b.gates, e.ordinal, g);
      LastReceiptIn(b.gates, e.ordinal, g);
    }
  }

  lemma LastReceiptIn(gates: seq<GateLine>, ordinal: int, g: GateLine)
    requires LastReceipt(gates, ordinal, g)
    ensures g in gates
  {
  }

  /** One event contributes exactly the change that tells it, when it is shown. */
  lemma EventTells(b: LoadedBundle, e: Event, since: int, x: Change)
    requires e.ordinal >= EarliestOf(b)
    ensures EventChange(b, e, since, Max(since, EarliestOf(b))) == Some(x) <==>
            e.ordinal > since && Distinguished(b, e) && Tells(b, e, x)
  {
    hide StrongestPath, ReceiptAt, EarliestOf, Attributed, HasReceipt;
    ReceiptAtIsLast(b.gates, e.ordinal);
    var o := DirectChange(b.manifest.id, e, b.provenance);
    if o.Some? {
      AttributedIs(b, e, o.value);
    }
  }

  /**
   * A cursor shows of a bundle exactly its appearance, if it appeared since, and for every later surviving
   * event, a promotion with a receipt at creation included, the change that says what that event says.
   */
  lemma BundleTells(b: LoadedBundle, since: int, x: Change)
    ensures x in BundleChanges(b, since) <==>
            || (EarliestOf(b) > since && Appears(b, x))
            || exists e :: e in Surviving(b.events) && e.ordinal > since && Distinguished(b, e) && Tells(b, e, x)
  {
    hide EventChange, EarliestOf, Distinguished, Tells, Surviving;
    var events, lower := Surviving(b.events), Max(since, EarliestOf(b));
    ShownChanges(b, events, since, lower, x);
    EarliestIsFirst(b);
    forall e | e in events
      ensures EventChange(b, e, since, lower) == Some(x) <==> e.ordinal > since && Distinguished(b, e) && Tells(b, e, x)
    {
      EventTells(b, e, since, x);
    }
    assert Appears(b, x) <==> x == AddedChange(b, EarliestOf(b));
  }

  // ----- purges -----

  /** The receipt is the first of its identity, and the change is its purge. */
  predicate PurgeOf(parseName: string -> Option<ReceiptName>, files: seq<NamedReceipt>, i: nat, x: Change)
    requires i < |files|
  {
    && FirstOfName(parseName, files, i) && files[i].file.Receipt? && parseName(files[i].name).Some?
    && x == Change(parseName(files[i].name).value.recordId, Purged, files[i].file.purgedAtOrdinal, None, None, None, None, None)
  }

  predicate FirstOfName(parseName: string -> Option<ReceiptName>, files: seq<NamedReceipt>, i: nat)
    requires i < |files|
  {
    forall j :: 0 <= j < i ==> parseName(files[j].name) != parseName(files[i].name)
  }

  /** Every file is regular and well named, and the first of every identity can be read. */
  predicate ReceiptsRead(parseName: string -> Option<ReceiptName>, files: seq<NamedReceipt>, seen: set<ReceiptName>) {
    forall i :: 0 <= i < |files| ==>
      && !files[i].file.NotAFile? && parseName(files[i].name).Some?
      && (FirstOfName(parseName, files, i) && parseName(files[i].name).value !in seen ==> files[i].file.Receipt?)
  }

  lemma FirstInRest(parseName: string -> Option<ReceiptName>, files: seq<NamedReceipt>, i: nat)
    requires 0 < i < |files|
    ensures FirstOfName(parseName, files, i) <==>
            FirstOfName(parseName, files[1..], i - 1) && parseName(files[0].name) != parseName(files[i].name)
  {
    var rest := files[1..];
    assert forall j :: 0 <= j < |rest| ==> rest[j] == files[j + 1];
    if FirstOfName(parseName, rest, i - 1) && parseName(files[0].name) != parseName(files[i].name) {
      forall j | 0 <= j < i ensures parseName(files[j].name) != parseName(files[i].name) {
        if j > 0 { assert rest[j - 1] == files[j]; }
      }
    }
    if FirstOfName(parseName, files, i) {
      forall j | 0 <= j < i - 1 ensures parseName(rest[j].name) != parseName(rest[i - 1].name) { assert rest[j] == files[j + 1]; }
    }
  }

  lemma {:induction false} PurgesRead(parseName: string -> Option<ReceiptName>, files: seq<NamedReceipt>, seen: set<ReceiptName>)
    ensures Purges(parseName, files, seen).Ok? <==> ReceiptsRead(parseName, files, seen)
  {
    if files != [] && !files[0].file.NotAFile? && parseName(files[0].name).Some? {
      var name, rest := parseName(files[0].name).value, files[1..];
      var now := if name in seen then seen else seen + {name};
      PurgesRead(parseName, rest, now);
      assert forall i :: 0 <= i < |rest| ==> rest[i] == files[i + 1];
      forall i | 0 < i < |files|
        ensures FirstOfName(parseName, files, i) <==>
                FirstOfName(parseName, rest, i - 1) && parseName(files[0].name) != parseName(files[i].name)
      {
        FirstInRest(parseName, files, i);
      }
      assert FirstOfName(parseName, files, 0);
      ReadStep(parseName, files, seen, now);
    }
  }

  lemma ReadStep(parseName: string -> Option<ReceiptName>, files: seq<NamedReceipt>, seen: set<ReceiptName>, now: set<ReceiptName>)
    requires files != [] && !files[0].file.NotAFile? && parseName(files[0].name).Some?
    requires now == seen + {parseName(files[0].name).value}
    ensures ReceiptsRead(parseName, files, seen) <==>
            ReceiptsRead(parseName, files[1..], now) && (parseName(files[0].name).value !in seen ==> files[0].file.Receipt?)
  {
    var rest := files[1..];
    assert FirstOfName(parseName, files, 0);
    forall i | 0 < i < |files|
      ensures rest[i - 1] == files[i]
      ensures FirstOfName(parseName, files, i) <==>
              FirstOfName(parseName, rest, i - 1) && parseName(files[0].name) != parseName(files[i].name)
    {
      FirstInRest(parseName, files, i);
    }
    if ReceiptsRead(parseName, files, seen) {
      forall i | 0 <= i < |rest|
        ensures !rest[i].file.NotAFile? && parseName(rest[i].name).Some?
        ensures FirstOfName(parseName, rest, i) && parseName(rest[i].name).value !in now ==> rest[i].file.Receipt?
      {
        assert rest[i + 1 - 1] == files[i + 1];
      }
    }
  }

  lemma {:induction false} PurgesTell(parseName: string -> Option<ReceiptName>, files: seq<NamedReceipt>, seen: set<ReceiptName>, x: Change)
    requires Purges(parseName, files, seen).Ok?
    ensures x in Purges(parseName, files, seen).value <==>
            exists i :: 0 <= i < |files| && PurgeOf(parseName, files, i, x) && parseName(files[i].name).value !in seen
  {
    if files != [] {
      var name, rest := parseName(files[0].name).value, files[1..];
      var now := seen + {name};
      assert now == if name in seen then seen else seen + {name};
      PurgesTell(parseName, rest, now, x);
      forall i | 0 < i < |files|
        ensures rest[i - 1] == files[i]
        ensures PurgeOf(parseName, files, i, x) <==> PurgeOf(parseName, rest, i - 1, x) && parseName(files[i].name) != Some(name)
      {
        FirstInRest(parseName, files, i);
      }
      if i :| 0 <= i < |rest| && PurgeOf(parseName, rest, i, x) && parseName(rest[i].name).value !in now {
        assert rest[i] == files[i + 1] && PurgeOf(parseName, files, i + 1, x);
      }
      assert FirstOfName(parseName, files, 0);
      if name !in seen && files[0].file.Receipt? && x == Purges(parseName, files, seen).value[0] {
        assert PurgeOf(parseName, files, 0, x);
      }
    }
  }

  /** Which files of the receipts directory are purge receipts. */
  ghost predicate PurgeNamed(name: string) {
    && (exists r :: name == "purge-" + r)
    && (exists r :: name == r + ".json")
    && !(exists r :: name == r + ".intent.json")
  }

  lemma StartsIff(s: string, prefix: string)
    ensures StartsWith(s, prefix) <==> exists r :: s == prefix + r
  {
    if StartsWith(s, prefix) { assert s == prefix + s[|prefix|..]; }
  }

  lemma EndsIff(s: string, suffix: string)
    ensures EndsWith(s, suffix) <==> exists r :: s == r + suffix
  {
    if EndsWith(s, suffix) { assert s == s[..|s| - |suffix|] + suffix; }
  }

  lemma ReceiptLikeIff(f: NamedReceipt)
    ensures ReceiptLike(f) <==> PurgeNamed(f.name)
  {
    hide StartsWith, EndsWith;
    StartsIff(f.name, "purge-");
    EndsIff(f.name, ".json");
    EndsIff(f.name, ".intent.json");
  }

  // ----- the feed -----

  lemma {:induction false} AllChangesTell(bundles: seq<LoadedBundle>, since: int, x: Change)
    ensures x in AllChanges(bundles, since) <==> exists b :: b in bundles && x in BundleChanges(b, since)
  {
    hide BundleChanges;
    if bundles != [] {
      AllChangesTell(bundles[1..], since, x);
      assert forall b :: b in bundles <==> b == bundles[0] || b in bundles[1..];
    }
  }

  /** What one bundle contributes after a cursor. */
  predicate ToldBy(b: LoadedBundle, since: int, x: Change) {
    || (EarliestOf(b) > since && Appears(b, x))
    || exists e :: e in Surviving(b.events) && e.ordinal > since && Distinguished(b, e) && Tells(b, e, x)
  }

  /** What one receipt contributes after a cursor. */
  predicate PurgedBy(store: Store, since: int, x: Change) {
    exists i :: 0 <= i < |SortedReceipts(store)| && PurgeOf(store.parseName, SortedReceipts(store), i, x) && x.at > since
  }

  /** A feed shows exactly what its bundles and receipts contribute after the cursor. */
  lemma FeedTells(c: Codec, store: Store, since: nat, x: Change)
    requires FeedAfter(c, store, since).Ok?
    ensures InspectAll(c, store.entries).Some?
    ensures x in FeedAfter(c, store, since).value <==>
            || PurgedBy(store, since, x)
            || exists b :: b in InspectAll(c, store.entries).value && ToldBy(b, since, x)
  {
    hide InspectAll, FeedAfter, Purges, AllChanges, BundleChanges, ToldBy, SortedReceipts, PurgeOf, ValidChange;
    FeedAfterIs(c, store, since);
    var bundles := InspectAll(c, store.entries).value;
    var files := SortedReceipts(store);
    AllChangesTell(bundles, since, x);
    forall b ensures x in BundleChanges(b, since) <==> ToldBy(b, since, x) { BundleToldBy(b, since, x); }
    PurgesTell(store.parseName, files, {}, x);
  }

  lemma BundleToldBy(b: LoadedBundle, since: int, x: Change)
    ensures x in BundleChanges(b, since) <==> ToldBy(b, since, x)
  {
    hide BundleChanges, Tells, Distinguished, Appears, EarliestOf;
    BundleTells(b, since, x);
  }

  /** The receipts are the purge-named files, in the order of their names. */
  lemma ReceiptsAre(store: Store, f: NamedReceipt)
    ensures f in SortedReceipts(store) <==> f in store.receipts && PurgeNamed(f.name)
    ensures forall i, j :: 0 <= i < j < |SortedReceipts(store)| ==> TextLe(SortedReceipts(store)[i].name, SortedReceipts(store)[j].name)
  {
    hide ReceiptLike, PurgeNamed, TextLe;
    ReceiptLikeIff(f);
    TextOrderLaws();
    var le := (a: NamedReceipt, b: NamedReceipt) => NameLe(a, b);
    SortSorted(Filter(store.receipts, (f: NamedReceipt) => ReceiptLike(f)), le);
  }

  /** The order of the names of the kinds. */
  function KindRank(k: ChangeKind): nat {
    match k
    case Added => 0
    case Confirm => 1
    case Deprecate => 2
    case Promote => 3
    case Purged => 4
    case Supersede => 5
  }

  lemma KindOrder(a: ChangeKind, b: ChangeKind)
    ensures TextLe(KindText(a), KindText(b)) <==> KindRank(a) <= KindRank(b)
  {
    var s, t := KindText(a), KindText(b);
    assert "added"[0] == 'a' && "confirmed"[0] == 'c' && "deprecated"[0] == 'd' && "superseded"[0] == 's';
    assert "promoted"[0] == 'p' && "purged"[0] == 'p' && "promoted"[1..][0] == 'r' && "purged"[1..][0] == 'u';
    if a == b { TextLeReflexive(s); }
    assert TextLe(s, t) <==> if s[0] == t[0] then TextLe(s[1..], t[1..]) else s[0] < t[0];
  }

  /** Record by record, then by ordinal, kind, token and successor. */
  lemma FeedInOrder(c: Codec, store: Store, since: nat, i: nat, j: nat)
    requires FeedAfter(c, store, since).Ok? && i < j < |FeedAfter(c, store, since).value|
    ensures
      var x, y := FeedAfter(c, store, since).value[i], FeedAfter(c, store, since).value[j];
      && TextLe(x.recordId, y.recordId)
      && (x.recordId == y.recordId ==>
            && x.at <= y.at
            && (x.at == y.at ==>
                  && KindRank(x.kind) <= KindRank(y.kind)
                  && (x.kind == y.kind ==>
                        && TextLe(x.token.GetOr(""), y.token.GetOr(""))
                        && (x.token.GetOr("") == y.token.GetOr("") ==> TextLe(x.byRecordId.GetOr(""), y.byRecordId.GetOr(""))))))
  {
    hide InspectAll, FeedAfter, Purges, AllChanges, SortedReceipts, ValidChange, TextLe, KindText;
    FeedAfterIs(c, store, since);
    var changes := AllChanges(InspectAll(c, store.entries).value, since);
    var purges := Purges(store.parseName, SortedReceipts(store), {}).value;
    ChangeOrderIsPreorder();
    SortSorted(changes + Filter(purges, After(since)), CHANGE_ORDER);
    var x, y := FeedAfter(c, store, since).value[i], FeedAfter(c, store, since).value[j];
    assert CHANGE_ORDER(x, y);
    TextOrderLaws();
    KindTextSeparates(x.kind, y.kind);
    KindOrder(x.kind, y.kind);
  }
}
