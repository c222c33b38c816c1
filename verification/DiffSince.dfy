/** The change feed: what happened to every record after an ordinal, and why cursors over it compose. */
module DiffSince {
  import opened Prelude
  import opened StableSort
  import opened TextOrder
  import opened Anchors
  import opened Outcomes
  import opened BundleModel
  import opened BundleParts
  import opened BundleLoad
  import Specimens

  datatype ChangeKind = Added | Confirm | Supersede | Deprecate | Promote | Purged

  function KindText(k: ChangeKind): string {
    match k
    case Added => "added"
    case Confirm => "confirmed"
    case Supersede => "superseded"
    case Deprecate => "deprecated"
    case Promote => "promoted"
    case Purged => "purged"
  }

  datatype Promotion = Promotion(path: PromotionPath, receiptDigest: string)

  datatype Change = Change(
    recordId: string,
    kind: ChangeKind,
    at: int,
    token: Option<string>,
    byRecordId: Option<string>,
    runId: Option<string>,
    observationId: Option<string>,
    promotion: Option<Promotion>)

  /** What the change schema accepts. */
  predicate ValidChange(c: Change) {
    && c.at >= 0
    && c.runId != Some("") && c.observationId != Some("")
    && (c.promotion.Some? ==> c.kind.Promote? && IsSha(c.promotion.value.receiptDigest))
  }

  // ----- one bundle -----

  function Earliest(events: seq<Event>, createdAt: int): (r: int)
    ensures r <= createdAt && forall e :: e in events ==> r <= e.ordinal
    ensures r == createdAt || exists e :: e in events && e.ordinal == r
  {
    if events == [] then createdAt
    else
      var rest := Earliest(events[1..], createdAt);
      assert forall e :: e in events <==> e == events[0] || e in events[1..];
      Min(rest, events[0].ordinal)
  }

  /** The run a change is attributed to: only jobs built from the bundle's own candidate link one. */
  function LinkedRunId(e: Event, p: Provenance): Option<string> {
    if !p.RunLinked? || p.curationJobId == None then None
    else if e.job == p.curationJobId.value || e.job == "promote:" + p.curationJobId.value then Some(p.runId)
    else None
  }

  function DirectChange(id: string, e: Event, p: Provenance): Option<Change> {
    match e.kind
    case Confirmed => Some(Change(id, Confirm, e.ordinal, Some(e.token), None, LinkedRunId(e, p), e.observationId, None))
    case Deprecated => Some(Change(id, Deprecate, e.ordinal, Some(e.token), None, LinkedRunId(e, p), e.observationId, None))
    case Promoted => Some(Change(id, Promote, e.ordinal, Some(e.token), None, LinkedRunId(e, p), e.observationId, None))
    case Superseded(successor) =>
      Some(Change(id, Supersede, e.ordinal, Some(e.token), Some(successor), LinkedRunId(e, p), e.observationId, None))
    case _ => None
  }

  /** The last promotion receipt produced at this ordinal. */
  function ReceiptAt(gates: seq<GateLine>, ordinal: int): Option<GateLine> {
    if gates == [] then None
    else
      var last := gates[|gates| - 1];
      if last.PromotionReceipt? && last.producedAtOrdinal == ordinal then Some(last)
      else ReceiptAt(gates[..|gates| - 1], ordinal)
  }

  function Stronger(a: PromotionPath, b: PromotionPath): PromotionPath {
    if a.UserSovereign? || b.DeterministicVerdictFloor? then a else b
  }

  function StrongestPath(gates: seq<GateLine>): Option<PromotionPath> {
    if gates == [] then None
    else
      var last := gates[|gates| - 1];
      var before := StrongestPath(gates[..|gates| - 1]);
      if !last.PromotionReceipt? then before
      else if before == None then Some(last.promotionPath)
      else Some(Stronger(before.value, last.promotionPath))
  }

  /** The receipt that makes a promotion at the creation ordinal a change of its own. */
  function PromotionOf(b: LoadedBundle, e: Event): Option<GateLine> {
    if e.kind.Promoted? then ReceiptAt(b.gates, e.ordinal) else None
  }

  function WithPromotion(change: Change, b: LoadedBundle, receipt: Option<GateLine>): Change {
    if receipt == None || StrongestPath(b.gates) == None then change
    else change.(promotion := Some(Promotion(StrongestPath(b.gates).value, receipt.value.receiptDigest)))
  }

  /** The change one surviving event contributes to a feed that starts after `since`. */
  function EventChange(b: LoadedBundle, e: Event, since: int, lower: int): Option<Change> {
    if e.ordinal <= since then None
    else
      var receipt := PromotionOf(b, e);
      if e.ordinal <= lower && receipt == None then None
      else
        match DirectChange(b.manifest.id, e, b.provenance)
        case None => None
        case Some(change) => Some(WithPromotion(change, b, receipt))
  }

  function EventChanges(b: LoadedBundle, events: seq<Event>, since: int, lower: int): seq<Change> {
    if events == [] then []
    else OptionSeq(EventChange(b, events[0], since, lower)) + EventChanges(b, events[1..], since, lower)
  }

  function AddedChange(b: LoadedBundle, at: int): Change {
    Change(b.manifest.id, Added, at, None, None,
           if b.provenance.RunLinked? then Some(b.provenance.runId) else None, None, None)
  }

  function EarliestOf(b: LoadedBundle): int { Earliest(Surviving(b.events), b.manifest.createdAtOrdinal) }

  function BundleChanges(b: LoadedBundle, since: int): seq<Change> {
    var earliest := EarliestOf(b);
    if earliest > since then
      [AddedChange(b, earliest)] + EventChanges(b, Surviving(b.events), since, earliest)
    else EventChanges(b, Surviving(b.events), since, since)
  }

  /** Everything that ever happened to a bundle, with no cursor in sight. */
  function History(b: LoadedBundle): seq<Change> {
    var earliest := EarliestOf(b);
    [AddedChange(b, earliest)] + EventChanges(b, Surviving(b.events), earliest - 1, earliest)
  }

  // ----- purge receipts -----

  datatype ReceiptName = ReceiptName(recordId: string, cycle: nat)

  /** A receipt file: not a regular file, one that cannot be read or guarded, or its purge ordinal. */
  datatype ReceiptFile = NotAFile | Unusable | Receipt(purgedAtOrdinal: nat)

  datatype NamedReceipt = NamedReceipt(name: string, file: ReceiptFile)

  predicate StartsWith(s: string, prefix: string) { |prefix| <= |s| && s[..|prefix|] == prefix }

  predicate EndsWith(s: string, suffix: string) { |suffix| <= |s| && s[|s| - |suffix|..] == suffix }

  predicate ReceiptLike(f: NamedReceipt) {
    StartsWith(f.name, "purge-") && EndsWith(f.name, ".json") && !EndsWith(f.name, ".intent.json")
  }

  /** The purges recorded by the files from here on; the first file of an identity speaks for it. */
  function Purges(parseName: string -> Option<ReceiptName>, files: seq<NamedReceipt>, seen: set<ReceiptName>)
    : Result<seq<Change>, ()>
  {
    if files == [] then Ok([])
    else if files[0].file.NotAFile? then Err(())
    else
      match parseName(files[0].name)
      case None => Err(())
      case Some(name) =>
        if name in seen then Purges(parseName, files[1..], seen)
        else
          match files[0].file
          case Receipt(at) =>
            (match Purges(parseName, files[1..], seen + {name})
             case Err(_) => Err(())
             case Ok(rest) => Ok([Change(name.recordId, Purged, at, None, None, None, None, None)] + rest))
          case _ => Err(())
  }

  // ----- the feed -----

  predicate ChangeLe(a: Change, b: Change) {
    if a.recordId != b.recordId then TextLe(a.recordId, b.recordId)
    else if a.at != b.at then a.at <= b.at
    else if a.kind != b.kind then TextLe(KindText(a.kind), KindText(b.kind))
    else if a.token.GetOr("") != b.token.GetOr("") then TextLe(a.token.GetOr(""), b.token.GetOr(""))
    else TextLe(a.byRecordId.GetOr(""), b.byRecordId.GetOr(""))
  }

  const CHANGE_ORDER: (Change, Change) -> bool := (a: Change, b: Change) => ChangeLe(a, b)

  /** A visible entry under `bundles/`: a stray file, or a directory that strictly loads and verifies, or not. */
  datatype Visible = StrayFile | Directory(files: Files)

  function Inspect(c: Codec, v: Visible): Option<LoadedBundle> {
    match v
    case StrayFile => None
    case Directory(files) =>
      match LoadBundle(c, files)
      case Loaded(b) => if Verified(c, files) then Some(b) else None
      case _ => None
  }

  /** Every visible bundle, or nothing as soon as one cannot be inspected. */
  function InspectAll(c: Codec, entries: seq<Visible>): Option<seq<LoadedBundle>> {
    if entries == [] then Some([])
    else
      match Inspect(c, entries[0])
      case None => None
      case Some(b) =>
        match InspectAll(c, entries[1..])
        case None => None
        case Some(rest) => Some([b] + rest)
  }

  datatype Store = Store(entries: seq<Visible>, receipts: seq<NamedReceipt>, parseName: string -> Option<ReceiptName>)

  predicate NameLe(a: NamedReceipt, b: NamedReceipt) { TextLe(a.name, b.name) }

  function SortedReceipts(store: Store): seq<NamedReceipt> {
    Sort(Filter(store.receipts, (f: NamedReceipt) => ReceiptLike(f)), (a: NamedReceipt, b: NamedReceipt) => NameLe(a, b))
  }

  function After(since: int): Change -> bool { (c: Change) => c.at > since }

  function AllChanges(bundles: seq<LoadedBundle>, since: int): seq<Change> {
    if bundles == [] then [] else BundleChanges(bundles[0], since) + AllChanges(bundles[1..], since)
  }

  function AllHistory(bundles: seq<LoadedBundle>): seq<Change> {
    if bundles == [] then [] else History(bundles[0]) + AllHistory(bundles[1..])
  }

  /** The cursor-free feed: every bundle's history and every purge. */
  function Feed(c: Codec, store: Store): Result<seq<Change>, ()> {
    match InspectAll(c, store.entries)
    case None => Err(())
    case Some(bundles) =>
      match Purges(store.parseName, SortedReceipts(store), {})
      case Err(_) => Err(())
      case Ok(purges) => Ok(Sort(AllHistory(bundles) + purges, CHANGE_ORDER))
  }

  /** The feed after an ordinal; a change the schema refuses makes the whole read fail. */
  function FeedAfter(c: Codec, store: Store, since: nat): Result<seq<Change>, ()> {
    match Feed(c, store)
    case Err(_) => Err(())
    case Ok(all) =>
      var changes := Filter(all, After(since));
      if forall x :: x in changes ==> ValidChange(x) then Ok(changes) else Err(())
  }

  // ----- as the code computes it -----

  lemma EventsStep(b: LoadedBundle, events: seq<Event>, i: nat, since: int, lower: int, before: seq<Change>)
    requires i < |events|
    ensures
      var o := EventChange(b, events[i], since, lower);
      before + EventChanges(b, events[i..], since, lower) ==
      (if o.Some? then before + [o.value] else before) + EventChanges(b, events[i + 1..], since, lower)
  {
    hide EventChange;
    assert events[i..][1..] == events[i + 1..];
    assert before + [] == before;
  }

  /** The loop over the surviving events of one bundle. */
  method CollectEvents(b: LoadedBundle, events: seq<Event>, since: int, lower: int) returns (r: Result<seq<Change>, ()>)
    ensures
      var changes := EventChanges(b, events, since, lower);
      r == if forall x :: x in changes ==> ValidChange(x) then Ok(changes) else Err(())
  {
    var changes: seq<Change> := [];
    ghost var all := EventChanges(b, events, since, lower);
    for i := 0 to |events|
      invariant changes + EventChanges(b, events[i..], since, lower) == all
      invariant forall x :: x in changes ==> ValidChange(x)
    {
      hide PromotionOf, DirectChange, WithPromotion, ValidChange;
      var event := events[i];
      EventsStep(b, events, i, since, lower, changes);
      if event.ordinal <= since { continue; }
      var promotion := PromotionOf(b, event);
      if event.ordinal <= lower && promotion == None { continue; }
      var change := DirectChange(b.manifest.id, event, b.provenance);
      if change == None { continue; }
      var attributed := WithPromotion(change.value, b, promotion);
      assert EventChange(b, event, since, lower) == Some(attributed);
      if !ValidChange(attributed) {
        assert attributed in all;
        return Err(());
      }
      changes := changes + [attributed];
    }
    assert changes + [] == changes;
    r := Ok(changes);
  }

  method CollectBundle(b: LoadedBundle, since: int) returns (r: Result<seq<Change>, ()>)
    ensures
      var changes := BundleChanges(b, since);
      r == if forall x :: x in changes ==> ValidChange(x) then Ok(changes) else Err(())
  {
    hide EventChanges;
    var survivingEvents := SurvivingOutcomeEvents(b.events);
    var earliestOrdinal := b.manifest.createdAtOrdinal;
    for i := 0 to |survivingEvents|
      invariant Earliest(survivingEvents[i..], earliestOrdinal) == EarliestOf(b)
    {
      assert survivingEvents[i..][1..] == survivingEvents[i + 1..];
      EarliestMin(survivingEvents[i + 1..], earliestOrdinal, survivingEvents[i].ordinal);
      earliestOrdinal := Min(earliestOrdinal, survivingEvents[i].ordinal);
    }
    assert survivingEvents[|survivingEvents|..] == [];
    if earliestOrdinal > since {
      var added := AddedChange(b, earliestOrdinal);
      if !ValidChange(added) {
        assert added in BundleChanges(b, since);
        return Err(());
      }
      r := CollectEvents(b, survivingEvents, since, earliestOrdinal);
      if r.Ok? { r := Ok([added] + r.value); }
    } else {
      r := CollectEvents(b, survivingEvents, since, since);
    }
  }

  lemma {:induction false} EarliestMin(events: seq<Event>, a: int, o: int)
    ensures Earliest(events, Min(a, o)) == Min(Earliest(events, a), o)
  {
    if events != [] { EarliestMin(events[1..], a, o); }
  }

  method PurgeChanges(store: Store, since: int) returns (r: Result<seq<Change>, ()>)
    ensures
      match Purges(store.parseName, SortedReceipts(store), {})
      case Err(_) => r == Err(())
      case Ok(all) => r == Ok(Filter(all, After(since)))
  {
    var files := SortedReceipts(store);
    var changes: seq<Change> := [];
    var identities: set<ReceiptName> := {};
    ghost var whole := Purges(store.parseName, files, {});
    for i := 0 to |files|
      invariant
        match Purges(store.parseName, files[i..], identities)
        case Err(_) => whole == Err(())
        case Ok(rest) => whole.Ok? && Filter(whole.value, After(since)) == changes + Filter(rest, After(since))
    {
      assert files[i..][1..] == files[i + 1..];
      var file := files[i];
      if file.file.NotAFile? { return Err(()); }
      var name := store.parseName(file.name);
      if name == None { return Err(()); }
      if name.value in identities { continue; }
      identities := identities + {name.value};
      if file.file.Unusable? { return Err(()); }
      var purge := Change(name.value.recordId, Purged, file.file.purgedAtOrdinal, None, None, None, None, None);
      if Purges(store.parseName, files[i + 1..], identities).Ok? {
        PurgeStep(changes, purge, store.parseName, files[i + 1..], identities, since);
      }
      if file.file.purgedAtOrdinal <= since { continue; }
      changes := changes + [purge];
    }
    assert files[|files|..] == [];
    assert changes + [] == changes;
    r := Ok(changes);
  }

  lemma PurgeStep(changes: seq<Change>, purge: Change, parseName: string -> Option<ReceiptName>, files: seq<NamedReceipt>,
                  seen: set<ReceiptName>, since: int)
    requires Purges(parseName, files, seen).Ok?
    ensures
      var rest := Purges(parseName, files, seen).value;
      changes + Filter([purge] + rest, After(since)) ==
      (if purge.at > since then changes + [purge] else changes) + Filter(rest, After(since))
  {
    var rest := Purges(parseName, files, seen).value;
    assert ([purge] + rest)[1..] == rest;
    assert changes + ([purge] + Filter(rest, After(since))) == (changes + [purge]) + Filter(rest, After(since));
  }

  /** The bundle loop: the first bundle that cannot be inspected or whose changes are refused ends it. */
  method CollectBundles(c: Codec, entries: seq<Visible>, since: int) returns (r: Result<seq<Change>, ()>)
    ensures
      match InspectAll(c, entries)
      case None => r == Err(())
      case Some(bundles) =>
        var all := AllChanges(bundles, since);
        r == if forall x :: x in all ==> ValidChange(x) then Ok(all) else Err(())
  {
    hide BundleChanges, Inspect;
    var changes: seq<Change> := [];
    ghost var inspected := InspectAll(c, entries);
    for i := 0 to |entries|
      invariant forall x :: x in changes ==> ValidChange(x)
      invariant
        match InspectAll(c, entries[i..])
        case None => inspected == None
        case Some(rest) => inspected.Some? && AllChanges(inspected.value, since) == changes + AllChanges(rest, since)
    {
      assert entries[i..][1..] == entries[i + 1..];
      var bundle := Inspect(c, entries[i]);
      if bundle == None { return Err(()); }
      ghost var later := InspectAll(c, entries[i + 1..]);
      if later.Some? { AllChangesStep(changes, bundle.value, later.value, since); }
      var found := CollectBundle(bundle.value, since);
      if found.Err? {
        if later.Some? { RefusedSomewhere(changes, bundle.value, later.value, since); }
        return Err(());
      }
      changes := changes + found.value;
    }
    assert entries[|entries|..] == [];
    assert changes + [] == changes;
    r := Ok(changes);
  }

  lemma AllChangesStep(changes: seq<Change>, b: LoadedBundle, rest: seq<LoadedBundle>, since: int)
    ensures changes + AllChanges([b] + rest, since) == (changes + BundleChanges(b, since)) + AllChanges(rest, since)
  {
    hide BundleChanges;
    assert ([b] + rest)[1..] == rest;
    assert changes + (BundleChanges(b, since) + AllChanges(rest, since))
        == (changes + BundleChanges(b, since)) + AllChanges(rest, since);
  }

  lemma RefusedSomewhere(changes: seq<Change>, b: LoadedBundle, rest: seq<LoadedBundle>, since: int)
    requires !forall x :: x in BundleChanges(b, since) ==> ValidChange(x)
    ensures !forall x :: x in changes + AllChanges([b] + rest, since) ==> ValidChange(x)
  {
    hide BundleChanges, ValidChange;
    AllChangesStep(changes, b, rest, since);
    var x :| x in BundleChanges(b, since) && !ValidChange(x);
    assert x in (changes + BundleChanges(b, since)) + AllChanges(rest, since);
  }

  /** `diffSince`: a cursor that is not a non-negative integer is refused before anything is read. */
  method DiffSince(c: Codec, store: Store, sinceOrdinal: real) returns (r: Result<seq<Change>, ()>)
    ensures sinceOrdinal < 0.0 || sinceOrdinal.Floor as real != sinceOrdinal ==> r == Err(())
    ensures sinceOrdinal >= 0.0 && sinceOrdinal.Floor as real == sinceOrdinal ==>
              r == FeedAfter(c, store, sinceOrdinal.Floor)
  {
    hide InspectAll, AllChanges, Purges, SortedReceipts, FeedAfter;
    if sinceOrdinal < 0.0 || sinceOrdinal.Floor as real != sinceOrdinal { return Err(()); }
    var since: nat := sinceOrdinal.Floor;
    FeedAfterIs(c, store, since);
    var changes := CollectBundles(c, store.entries, since);
    if changes.Err? { return Err(()); }
    var purges := PurgeChanges(store, since);
    if purges.Err? { return Err(()); }
    r := Ok(Sort(changes.value + purges.value, CHANGE_ORDER));
  }

  // ----- the order of the feed -----

  lemma ChangeLeTotal(a: Change, b: Change)
    ensures ChangeLe(a, b) || ChangeLe(b, a)
  {
    TextLeTotal(a.recordId, b.recordId);
    TextLeTotal(KindText(a.kind), KindText(b.kind));
    TextLeTotal(a.token.GetOr(""), b.token.GetOr(""));
    TextLeTotal(a.byRecordId.GetOr(""), b.byRecordId.GetOr(""));
  }

  lemma KindTextSeparates(a: ChangeKind, b: ChangeKind)
    ensures KindText(a) == KindText(b) <==> a == b
  {
    assert "added"[0] == 'a' && "confirmed"[0] == 'c' && "superseded"[0] == 's';
    assert "deprecated"[0] == 'd' && "promoted"[1] == 'r' && "purged"[1] == 'u' && "promoted"[0] == 'p';
    assert KindText(a)[0] == KindText(b)[0] && KindText(a)[1] == KindText(b)[1] <== KindText(a) == KindText(b);
  }

  /** Lexicographic comparison of two keys that are each compared by a total preorder. */
  lemma TextStrict(a: string, b: string, c: string)
    requires TextLe(a, b) && TextLe(b, c) && a == c
    ensures a == b
  {
    TextLeAntisymmetric(a, b);
  }

  lemma ChangeLeTransitive(a: Change, b: Change, c: Change)
    requires ChangeLe(a, b) && ChangeLe(b, c)
    ensures ChangeLe(a, c)
  {
    if a.recordId != b.recordId || b.recordId != c.recordId {
      TextLeReflexive(b.recordId);
      TextLeTransitive(a.recordId, b.recordId, c.recordId);
      if a.recordId == c.recordId { TextStrict(a.recordId, b.recordId, c.recordId); }
    } else if a.at != b.at || b.at != c.at {
    } else {
      KindTextSeparates(a.kind, c.kind);
      TextLeReflexive(KindText(b.kind));
      if a.kind != b.kind || b.kind != c.kind {
        TextLeTransitive(KindText(a.kind), KindText(b.kind), KindText(c.kind));
        if a.kind == c.kind {
          TextStrict(KindText(a.kind), KindText(b.kind), KindText(c.kind));
          KindTextSeparates(a.kind, b.kind);
        }
      } else {
        TokensTransitive(a, b, c);
      }
    }
  }

  lemma TokensTransitive(a: Change, b: Change, c: Change)
    requires a.recordId == b.recordId == c.recordId && a.at == b.at == c.at && a.kind == b.kind == c.kind
    requires ChangeLe(a, b) && ChangeLe(b, c)
    ensures ChangeLe(a, c)
  {
    var x, y, z := a.token.GetOr(""), b.token.GetOr(""), c.token.GetOr("");
    if x != y || y != z {
      TextLeReflexive(y);
      TextLeTransitive(x, y, z);
      if x == z { TextStrict(x, y, z); }
    } else {
      TextLeTransitive(a.byRecordId.GetOr(""), b.byRecordId.GetOr(""), c.byRecordId.GetOr(""));
    }
  }

  lemma ChangeOrderIsPreorder()
    ensures TotalPreorder(CHANGE_ORDER)
  {
    forall a, b ensures CHANGE_ORDER(a, b) || CHANGE_ORDER(b, a) { ChangeLeTotal(a, b); }
    forall a, b, c | CHANGE_ORDER(a, b) && CHANGE_ORDER(b, c) ensures CHANGE_ORDER(a, c) { ChangeLeTransitive(a, b, c); }
  }

  // ----- cursors -----

  lemma EventChangeFiltered(b: LoadedBundle, e: Event, since: int, lower: int, earliest: int)
    requires e.ordinal >= earliest && lower == Max(since, earliest)
    ensures
      var h := EventChange(b, e, earliest - 1, earliest);
      && (h.Some? ==> h.value.at == e.ordinal)
      && EventChange(b, e, since, lower) == (if h.Some? && h.value.at > since then h else None)
  {
    hide PromotionOf, StrongestPath, LinkedRunId;
  }

  lemma {:induction false} EventChangesFiltered(b: LoadedBundle, events: seq<Event>, since: int, lower: int, earliest: int)
    requires forall e :: e in events ==> e.ordinal >= earliest
    requires lower == Max(since, earliest)
    ensures EventChanges(b, events, since, lower) == Filter(EventChanges(b, events, earliest - 1, earliest), After(since))
  {
    hide EventChange;
    if events != [] {
      assert events[0] in events;
      EventChangeFiltered(b, events[0], since, lower, earliest);
      EventChangesFiltered(b, events[1..], since, lower, earliest);
      var h := EventChange(b, events[0], earliest - 1, earliest);
      var rest := EventChanges(b, events[1..], earliest - 1, earliest);
      FilterAppend(OptionSeq(h), rest, After(since));
      FilterOption(h, After(since));
    }
  }

  lemma FilterOption(o: Option<Change>, p: Change -> bool)
    ensures Filter(OptionSeq(o), p) == OptionSeq(if o.Some? && p(o.value) then o else None)
  {
    if o.Some? { assert [o.value][1..] == []; }
  }

  lemma EarliestIsFirst(b: LoadedBundle)
    ensures forall e :: e in Surviving(b.events) ==> e.ordinal >= EarliestOf(b)
  {
    hide Surviving;
  }

  /** What a cursor shows of a bundle is its history after the cursor, creation suppression and promotion exception included. */
  lemma BundleChangesFiltered(b: LoadedBundle, since: int)
    ensures BundleChanges(b, since) == Filter(History(b), After(since))
  {
    hide EventChanges, EarliestOf, Surviving;
    var earliest := EarliestOf(b);
    var events := Surviving(b.events);
    EarliestIsFirst(b);
    EventChangesFiltered(b, events, since, Max(since, earliest), earliest);
    var rest := EventChanges(b, events, earliest - 1, earliest);
    assert ([AddedChange(b, earliest)] + rest)[1..] == rest;
  }

  lemma {:induction false} AllChangesFiltered(bundles: seq<LoadedBundle>, since: int)
    ensures AllChanges(bundles, since) == Filter(AllHistory(bundles), After(since))
  {
    hide BundleChanges, History;
    if bundles != [] {
      BundleChangesFiltered(bundles[0], since);
      AllChangesFiltered(bundles[1..], since);
      FilterAppend(History(bundles[0]), AllHistory(bundles[1..]), After(since));
    }
  }

  lemma {:induction false} PurgesAreValid(parseName: string -> Option<ReceiptName>, files: seq<NamedReceipt>, seen: set<ReceiptName>)
    requires Purges(parseName, files, seen).Ok?
    ensures forall x :: x in Purges(parseName, files, seen).value ==> ValidChange(x)
  {
    if files != [] {
      var name := parseName(files[0].name).value;
      if name in seen { PurgesAreValid(parseName, files[1..], seen); }
      else { PurgesAreValid(parseName, files[1..], seen + {name}); }
    }
  }

  /** The feed after a cursor is the sorted changes that the loops collect. */
  lemma FeedAfterIs(c: Codec, store: Store, since: nat)
    ensures
      match InspectAll(c, store.entries)
      case None => FeedAfter(c, store, since) == Err(())
      case Some(bundles) =>
        match Purges(store.parseName, SortedReceipts(store), {})
        case Err(_) => FeedAfter(c, store, since) == Err(())
        case Ok(purges) =>
          var changes := AllChanges(bundles, since);
          FeedAfter(c, store, since) ==
          if forall x :: x in changes ==> ValidChange(x) then Ok(Sort(changes + Filter(purges, After(since)), CHANGE_ORDER))
          else Err(())
  {
    hide InspectAll, AllChanges, AllHistory, Purges, SortedReceipts, ValidChange;
    var inspected := InspectAll(c, store.entries);
    var read := Purges(store.parseName, SortedReceipts(store), {});
    if inspected.Some? && read.Ok? {
      var history := AllHistory(inspected.value) + read.value;
      ChangeOrderIsPreorder();
      FilterSort(history, CHANGE_ORDER, After(since));
      FilterAppend(AllHistory(inspected.value), read.value, After(since));
      AllChangesFiltered(inspected.value, since);
      PurgesAreValid(store.parseName, SortedReceipts(store), {});
      PurgesNeverRefuse(AllChanges(inspected.value, since), read.value, since);
    }
  }

  /** Whether a change is refused does not depend on the valid changes sorted in with it. */
  lemma PurgesNeverRefuse(changes: seq<Change>, purges: seq<Change>, since: nat)
    requires forall x :: x in purges ==> ValidChange(x)
    ensures (forall x :: x in Sort(changes + Filter(purges, After(since)), CHANGE_ORDER) ==> ValidChange(x)) <==>
            (forall x :: x in changes ==> ValidChange(x))
  {
    hide ValidChange;
    var kept := Filter(purges, After(since));
    assert forall x :: x in Sort(changes + kept, CHANGE_ORDER) <==> x in changes || x in kept;
  }

  /**
   * The cursor law: reading from a later cursor gives exactly the later part of what an earlier cursor gives,
   * in the same order, and it succeeds whenever the earlier read does.
   */
  lemma CursorLaw(c: Codec, store: Store, s1: nat, s2: nat)
    requires s1 <= s2 && FeedAfter(c, store, s1).Ok?
    ensures FeedAfter(c, store, s2) == Ok(Filter(FeedAfter(c, store, s1).value, After(s2)))
  {
    hide Feed, ValidChange;
    FilterFilter(Feed(c, store).value, After(s1), After(s2));
  }

  /** So successive cursors split the feed: nothing is lost and nothing is shown twice. */
  lemma CursorsSplit(c: Codec, store: Store, s1: nat, s2: nat)
    requires s1 <= s2 && FeedAfter(c, store, s1).Ok? && FeedAfter(c, store, s2).Ok?
    ensures
      var all := FeedAfter(c, store, s1).value;
      multiset(all) == multiset(Filter(all, (x: Change) => x.at <= s2)) + multiset(FeedAfter(c, store, s2).value)
  {
    hide FeedAfter;
    CursorLaw(c, store, s1, s2);
    FilterSplits(FeedAfter(c, store, s1).value, (x: Change) => x.at <= s2, After(s2));
  }

  lemma {:induction false} FilterSplits(s: seq<Change>, p: Change -> bool, q: Change -> bool)
    requires forall x :: p(x) <==> !q(x)
    ensures multiset(s) == multiset(Filter(s, p)) + multiset(Filter(s, q))
  {
    if s != [] {
      assert s == [s[0]] + s[1..];
      FilterSplits(s[1..], p, q);
    }
  }

  // ----- what the feed says about creation -----

  /** An event at the creation ordinal is a change of its own exactly when it is a promotion with a receipt. */
  lemma CreationSuppression(b: LoadedBundle, e: Event)
    requires e.ordinal == EarliestOf(b)
    ensures EventChange(b, e, EarliestOf(b) - 1, EarliestOf(b)).Some? <==> e.kind.Promoted? && ReceiptAt(b.gates, e.ordinal).Some?
  {
    hide ReceiptAt, StrongestPath, EarliestOf;
  }

  /** A bundle appears once, at the first ordinal anything is known about it. */
  lemma AddedOnce(b: LoadedBundle, x: Change)
    ensures x in History(b) && x.kind.Added? <==> x == AddedChange(b, EarliestOf(b))
    ensures multiset(History(b))[AddedChange(b, EarliestOf(b))] == 1
    ensures x in History(b) ==> x.at >= EarliestOf(b) && x.recordId == b.manifest.id
  {
    hide EventChange, EventChanges, EarliestOf;
    var earliest := EarliestOf(b);
    var rest := EventChanges(b, Surviving(b.events), earliest - 1, earliest);
    EventChangesNotAdded(b, Surviving(b.events), earliest - 1, earliest);
    OnceInFront(AddedChange(b, earliest), rest, x);
  }

  lemma OnceInFront(added: Change, rest: seq<Change>, x: Change)
    requires added.kind.Added? && forall y :: y in rest ==> !y.kind.Added?
    ensures x in [added] + rest && x.kind.Added? <==> x == added
    ensures multiset([added] + rest)[added] == 1
  {
    HeadCountedOnce(added, rest);
  }

  lemma HeadCountedOnce(x: Change, rest: seq<Change>)
    requires x !in rest
    ensures multiset([x] + rest)[x] == 1
  {
    assert forall y :: y in multiset(rest) <==> y in rest;
    assert multiset(rest)[x] == 0;
  }

  lemma {:induction false} EventChangesNotAdded(b: LoadedBundle, events: seq<Event>, since: int, lower: int)
    ensures forall x :: x in EventChanges(b, events, since, lower) ==>
              !x.kind.Added? && x.at > since && x.recordId == b.manifest.id
  {
    hide EventChange;
    if events != [] {
      EventChangesNotAdded(b, events[1..], since, lower);
      ChangeOfEvent(b, events[0], since, lower);
    }
  }

  lemma ChangeOfEvent(b: LoadedBundle, e: Event, since: int, lower: int)
    ensures
      var o := EventChange(b, e, since, lower);
      o.Some? ==> !o.value.kind.Added? && o.value.at == e.ordinal > since && o.value.recordId == b.manifest.id
                  && o.value.token == Some(e.token) && (o.value.promotion.Some? ==> e.kind.Promoted?)
  {
    hide ReceiptAt, StrongestPath, LinkedRunId;
  }

  /** An attributed promotion names the strongest path any receipt of the bundle took. */
  lemma {:induction false} StrongestIsStrongest(gates: seq<GateLine>)
    ensures StrongestPath(gates) == None <==> forall g :: g in gates ==> !g.PromotionReceipt?
    ensures StrongestPath(gates) == Some(UserSovereign) <==>
              exists g :: g in gates && g.PromotionReceipt? && g.promotionPath.UserSovereign?
  {
    if gates != [] {
      var front, last := gates[..|gates| - 1], gates[|gates| - 1];
      StrongestIsStrongest(front);
      assert forall g :: g in gates <==> g in front || g == last;
    }
  }

  // ----- when a bundle can be read at all -----

  /** The attribution of this event satisfies the change schema. */
  predicate Attributable(b: LoadedBundle, e: Event) {
    && LinkedRunId(e, b.provenance) != Some("") && e.observationId != Some("")
    && (PromotionOf(b, e).Some? && StrongestPath(b.gates).Some? ==> IsSha(PromotionOf(b, e).value.receiptDigest))
  }

  /** The event is shown after this cursor. */
  predicate Shown(b: LoadedBundle, e: Event, since: int) { EventChange(b, e, since, Max(since, EarliestOf(b))).Some? }

  lemma ShownAcceptedIff(b: LoadedBundle, e: Event, since: nat)
    requires Shown(b, e, since)
    ensures ValidChange(EventChange(b, e, since, Max(since, EarliestOf(b))).value) <==> Attributable(b, e)
  {
    hide StrongestPath, EarliestOf, LinkedRunId, IsSha, ReceiptAt;
  }

  lemma {:induction false} ShownChanges(b: LoadedBundle, events: seq<Event>, since: int, lower: int, x: Change)
    ensures x in EventChanges(b, events, since, lower) <==>
              exists e :: e in events && EventChange(b, e, since, lower) == Some(x)
  {
    hide EventChange;
    if events != [] {
      ShownChanges(b, events[1..], since, lower, x);
      assert forall e :: e in events <==> e == events[0] || e in events[1..];
    }
  }

  /** No empty run or observation id, and no malformed receipt digest, is attributed to what the cursor shows. */
  predicate Acceptable(b: LoadedBundle, since: nat) {
    && (EarliestOf(b) > since ==> !(b.provenance.RunLinked? && b.provenance.runId == ""))
    && (forall e :: e in Surviving(b.events) && Shown(b, e, since) ==> Attributable(b, e))
  }

  /** The change schema is stricter than the bundle schemas: these are the bundles readable after a cursor. */
  lemma BundleAcceptedIff(b: LoadedBundle, since: nat)
    ensures (forall x :: x in BundleChanges(b, since) ==> ValidChange(x)) <==> Acceptable(b, since)
  {
    hide EventChange, EarliestOf, Attributable;
    var events, lower := Surviving(b.events), Max(since, EarliestOf(b));
    var shown := EventChanges(b, events, since, lower);
    forall x ensures x in shown <==> exists e :: e in events && EventChange(b, e, since, lower) == Some(x) {
      ShownChanges(b, events, since, lower, x);
    }
    forall e | e in events && Shown(b, e, since)
      ensures EventChange(b, e, since, lower).value in shown
      ensures ValidChange(EventChange(b, e, since, lower).value) <==> Attributable(b, e)
    {
      ShownAcceptedIff(b, e, since);
    }
    AcceptedParts(b, since, shown);
  }

  lemma AcceptedParts(b: LoadedBundle, since: nat, shown: seq<Change>)
    requires shown == EventChanges(b, Surviving(b.events), since, Max(since, EarliestOf(b)))
    ensures (forall x :: x in BundleChanges(b, since) ==> ValidChange(x)) <==>
            && (EarliestOf(b) > since ==> !(b.provenance.RunLinked? && b.provenance.runId == ""))
            && (forall x :: x in shown ==> ValidChange(x))
  {
    hide EventChange, EarliestOf;
    var added := AddedChange(b, EarliestOf(b));
    assert EarliestOf(b) > since ==> BundleChanges(b, since) == [added] + shown && added in BundleChanges(b, since);
    assert forall x :: x in shown ==> x in BundleChanges(b, since);
  }

  lemma {:induction false} AllAcceptedIff(bundles: seq<LoadedBundle>, since: nat)
    ensures (forall x :: x in AllChanges(bundles, since) ==> ValidChange(x)) <==>
            forall b :: b in bundles ==> Acceptable(b, since)
  {
    hide BundleChanges, ValidChange, Acceptable;
    if bundles != [] {
      var rest := bundles[1..];
      BundleAcceptedIff(bundles[0], since);
      AllAcceptedIff(rest, since);
      assert forall b :: b in bundles <==> b == bundles[0] || b in rest;
      assert forall x :: x in AllChanges(bundles, since) <==> x in BundleChanges(bundles[0], since) || x in AllChanges(rest, since);
    }
  }

  /** A feed can be read after a cursor exactly when every entry is a sound bundle, every receipt reads and every bundle is acceptable. */
  lemma FeedReadableIff(c: Codec, store: Store, since: nat)
    ensures FeedAfter(c, store, since).Ok? <==>
            && InspectAll(c, store.entries).Some?
            && Purges(store.parseName, SortedReceipts(store), {}).Ok?
            && forall b :: b in InspectAll(c, store.entries).value ==> Acceptable(b, since)
  {
    hide InspectAll, AllChanges, Purges, SortedReceipts, FeedAfter, ValidChange, Acceptable;
    FeedAfterIs(c, store, since);
    if InspectAll(c, store.entries).Some? { AllAcceptedIff(InspectAll(c, store.entries).value, since); }
  }

  lemma {:induction false} InspectedMember(c: Codec, entries: seq<Visible>, v: Visible)
    requires v in entries && InspectAll(c, entries).Some?
    ensures Inspect(c, v).Some? && Inspect(c, v).value in InspectAll(c, entries).value
  {
    hide Inspect;
    if entries[0] != v { InspectedMember(c, entries[1..], v); }
  }

  // ----- a verified bundle no feed can show -----

  /** A record of a run whose id is the empty text, which the provenance schema accepts. */
  function NamelessRun(testId: string): Provenance {
    RunLinked(AgentObserved, "", testId, 0, None, None, None, None, None)
  }

  /**
   * One verified, loadable and servable bundle with that provenance makes the whole read fail from the start,
   * whatever else the store holds; from its creation ordinal on it is harmless.
   */
  lemma NamelessRunStopsTheFeed(c: Codec, anchor: Anchor, testId: string, store: Store, since: nat)
    requires Lawful(c) && Stable(anchor)
    ensures
      var files := Specimens.SpecimenFiles(c, [anchor], NamelessRun(testId), None);
      && Verified(c, files) && Inspect(c, Directory(files)).Some?
      && IsServable(TrustOf(Inspect(c, Directory(files)).value))
      && (Directory(files) in store.entries ==> FeedAfter(c, store, 0).Err?)
      && (store.entries == [Directory(files)] && store.receipts == [] ==> (FeedAfter(c, store, since).Ok? <==> since >= 1))
  {
    hide Lawful, Stable, Verified, LoadBundle, InspectAll, Purges, SortedReceipts, FeedAfter, AnchorPairs, MintId, Acceptable;
    var files := Specimens.SpecimenFiles(c, [anchor], NamelessRun(testId), None);
    hide Specimens.SpecimenFiles;
    Specimens.Specimen(c, [anchor], NamelessRun(testId), None);
    var b := LoadBundle(c, files).bundle;
    assert Inspect(c, Directory(files)) == Some(b);
    forall at: nat ensures Acceptable(b, at) <==> at >= 1 { NamelessAcceptable(b, at); }
    FeedReadableIff(c, store, 0);
    if Directory(files) in store.entries && InspectAll(c, store.entries).Some? {
      InspectedMember(c, store.entries, Directory(files));
    }
    if store.entries == [Directory(files)] && store.receipts == [] {
      FeedReadableIff(c, store, since);
      AloneInspected(c, Directory(files));
      NoReceipts(store);
    }
  }

  lemma NamelessAcceptable(b: LoadedBundle, since: nat)
    requires b.provenance.RunLinked? && b.provenance.runId == ""
    requires b.events == [] && b.manifest.createdAtOrdinal == 1
    ensures Acceptable(b, since) <==> since >= 1
  {
    hide Attributable, Shown;
    assert Surviving(b.events) == [];
  }

  lemma AloneInspected(c: Codec, v: Visible)
    requires Inspect(c, v).Some?
    ensures InspectAll(c, [v]) == Some([Inspect(c, v).value])
  {
    hide Inspect;
    assert InspectAll(c, [v][1..]) == Some([]);
    assert [Inspect(c, v).value] + [] == [Inspect(c, v).value];
  }

  lemma NoReceipts(store: Store)
    requires store.receipts == []
    ensures Purges(store.parseName, SortedReceipts(store), {}) == Ok([])
  {
    assert SortedReceipts(store) == [];
  }
}
