/** Which records a dense search by scoring returns: those with fewer than `k` records nearer to the query. */
module DenseMeaning {
  import opened Prelude
  import opened StableSort
  import opened IndexState
  import opened DenseSearch

  /** The record has an embedding of the query's dimension and is of the product asked for, if one is. */
  predicate Eligible(records: map<nat, Row>, scope: Option<string>, query: Vector, r: nat) {
    && r in records && (scope.Some? ==> records[r].product == scope.value)
    && records[r].embedding.Some? && |records[r].embedding.value| == |query|
  }

  function Distance(records: map<nat, Row>, scope: Option<string>, query: Vector, d: Metric, r: nat): real
    requires Eligible(records, scope, query, r)
  {
    d(query, records[r].embedding.value)
  }

  /** Eligible records nearer to the query than this one; of two at one distance, the smaller row. */
  ghost function Closer(records: map<nat, Row>, scope: Option<string>, query: Vector, d: Metric, r: nat): set<nat>
    requires Eligible(records, scope, query, r)
  {
    set x | x in records && Eligible(records, scope, query, x)
      && (Distance(records, scope, query, d, x) < Distance(records, scope, query, d, r)
          || (Distance(records, scope, query, d, x) == Distance(records, scope, query, d, r) && x < r))
  }

  ghost function Rowids(s: seq<Candidate>): set<nat> { set c | c in s :: c.rowid }

  lemma {:induction false} RowidsSize(s: seq<Candidate>)
    requires forall i, j :: 0 <= i < j < |s| ==> s[i].rowid != s[j].rowid
    ensures |Rowids(s)| == |s|
  {
    if s == [] {
      assert Rowids(s) == {};
    } else {
      RowidsSize(s[1..]);
      assert forall c :: c in s <==> c == s[0] || c in s[1..];
      assert Rowids(s) == {s[0].rowid} + Rowids(s[1..]);
    }
  }

  lemma SortedCandidates(records: map<nat, Row>, scope: Option<string>, query: Vector, d: Metric) returns (s: seq<Candidate>)
    ensures s == Sort(AllScored(records, scope, query, d), NEARER) && Sorted(s, NEARER)
    ensures forall i, j :: 0 <= i < j < |s| ==> s[i].rowid != s[j].rowid
    ensures forall c :: c in s <==> CandidateOf(records, scope, query, d, c)
  {
    hide CandidateOf, AllScored;
    var all := AllScored(records, scope, query, d);
    AllScoredMembers(records, scope, query, d);
    s := Sort(all, NEARER);
    NearerIsOrder(all);
    SortSorted(all, NEARER);
    SortedRowids(all);
  }

  lemma CandidateIff(records: map<nat, Row>, scope: Option<string>, query: Vector, d: Metric, c: Candidate)
    ensures CandidateOf(records, scope, query, d, c) <==>
            Eligible(records, scope, query, c.rowid)
            && c == Candidate(c.rowid, records[c.rowid].product, Distance(records, scope, query, d, c.rowid))
  {
  }

  /** The place of a candidate is the number of records closer than it. */
  lemma PlaceIsCount(records: map<nat, Row>, scope: Option<string>, query: Vector, d: Metric, s: seq<Candidate>, i: nat)
    requires i < |s| && Sorted(s, NEARER) && forall a, b :: 0 <= a < b < |s| ==> s[a].rowid != s[b].rowid
    requires forall c :: c in s <==> CandidateOf(records, scope, query, d, c)
    ensures Eligible(records, scope, query, s[i].rowid) && |Closer(records, scope, query, d, s[i].rowid)| == i
  {
    hide CandidateOf;
    forall c ensures c in s <==>
      Eligible(records, scope, query, c.rowid)
      && c == Candidate(c.rowid, records[c.rowid].product, Distance(records, scope, query, d, c.rowid))
    {
      CandidateIff(records, scope, query, d, c);
    }
    hide Eligible, Distance;
    assert s[i] in s;
    var closer := Closer(records, scope, query, d, s[i].rowid);
    assert forall j :: i < j < |s| ==> NEARER(s[i], s[j]);
    forall r ensures r in closer <==> r in Rowids(s[..i]) {
      if r in closer {
        var c := Candidate(r, records[r].product, Distance(records, scope, query, d, r));
        assert c in s;
        var j :| 0 <= j < |s| && s[j] == c;
        assert j < i && s[..i][j] == c;
      }
      if r in Rowids(s[..i]) {
        var c :| c in s[..i] && c.rowid == r;
        var j :| 0 <= j < i && s[j] == c;
        assert c in s && NEARER(s[j], s[i]);
        EligibleIn(records, scope, query, r);
      }
    }
    assert closer == Rowids(s[..i]);
    RowidsSize(s[..i]);
  }

  lemma EligibleIn(records: map<nat, Row>, scope: Option<string>, query: Vector, r: nat)
    ensures Eligible(records, scope, query, r) ==> r in records
  {
  }

  lemma {:induction false} HitsOf(records: map<nat, Row>, chosen: seq<Candidate>)
    requires forall c :: c in chosen ==> c.rowid in records
    ensures |BruteHits(records, chosen)| == |chosen|
    ensures forall i :: 0 <= i < |chosen| && chosen[i].rowid in records ==> BruteHits(records, chosen)[i] == Hit(records, chosen[i])
  {
    if chosen != [] {
      assert forall c :: c in chosen[1..] ==> c in chosen;
      assert chosen[0] in chosen;
      HitsOf(records, chosen[1..]);
    }
  }

  /** The hit of an eligible record: itself and its distance from the query. */
  ghost predicate HitOf(records: map<nat, Row>, scope: Option<string>, query: Vector, d: Metric, h: DenseHit) {
    && Eligible(records, scope, query, h.rowid)
    && h == DenseHit(h.rowid, records[h.rowid], Distance(records, scope, query, d, h.rowid))
  }

  /**
   * Scoring every record returns exactly the hits of those with fewer than `k` records closer to the query, each
   * at the place that their number says: the nearest first, of two at one distance the smaller row.
   */
  lemma BruteIff(records: map<nat, Row>, scope: Option<string>, query: Vector, d: Metric, k: nat, h: DenseHit)
    ensures
      var hits := DenseBrute(records, scope, query, d, k);
      && (h in hits <==> HitOf(records, scope, query, d, h) && |Closer(records, scope, query, d, h.rowid)| < k)
      && (HitOf(records, scope, query, d, h) && |Closer(records, scope, query, d, h.rowid)| < k ==>
            |Closer(records, scope, query, d, h.rowid)| < |hits| && hits[|Closer(records, scope, query, d, h.rowid)|] == h)
  {
    hide Eligible, Distance, Closer, CandidateOf, AllScored;
    var s := SortedCandidates(records, scope, query, d);
    var chosen := Take(s, k);
    assert DenseBrute(records, scope, query, d, k) == BruteHits(records, chosen);
    ChosenInRecords(records, scope, query, d, s, k);
    hide BruteHits, DenseBrute, Sort, HitOf;
    HitsOf(records, chosen);
    ChosenIff(records, scope, query, d, k, s, h);
  }

  lemma ChosenInRecords(records: map<nat, Row>, scope: Option<string>, query: Vector, d: Metric, s: seq<Candidate>, k: nat)
    requires forall c :: c in s ==> CandidateOf(records, scope, query, d, c)
    ensures |Take(s, k)| <= |s| && forall c :: c in Take(s, k) ==> c.rowid in records
    ensures forall i :: 0 <= i < |Take(s, k)| ==> Take(s, k)[i] == s[i] && s[i].rowid in records
  {
  }

  lemma ChosenIff(
    records: map<nat, Row>, scope: Option<string>, query: Vector, d: Metric, k: nat, s: seq<Candidate>, h: DenseHit)
    requires Sorted(s, NEARER) && forall a, b :: 0 <= a < b < |s| ==> s[a].rowid != s[b].rowid
    requires forall c :: c in s <==> CandidateOf(records, scope, query, d, c)
    requires |BruteHits(records, Take(s, k))| == |Take(s, k)|
    requires forall i :: 0 <= i < |Take(s, k)| ==>
      s[i].rowid in records && BruteHits(records, Take(s, k))[i] == Hit(records, s[i])
    ensures
      var hits := BruteHits(records, Take(s, k));
      && (h in hits <==> HitOf(records, scope, query, d, h) && |Closer(records, scope, query, d, h.rowid)| < k)
      && (HitOf(records, scope, query, d, h) && |Closer(records, scope, query, d, h.rowid)| < k ==>
            |Closer(records, scope, query, d, h.rowid)| < |hits| && hits[|Closer(records, scope, query, d, h.rowid)|] == h)
  {
    hide Closer, CandidateOf, BruteHits;
    var hits := BruteHits(records, Take(s, k));
    if h in hits {
      var i :| 0 <= i < |hits| && hits[i] == h;
      PlaceIsCount(records, scope, query, d, s, i);
      assert s[i] in s;
      CandidateIff(records, scope, query, d, s[i]);
    }
    if HitOf(records, scope, query, d, h) && |Closer(records, scope, query, d, h.rowid)| < k {
      var c := Candidate(h.rowid, records[h.rowid].product, h.distance);
      CandidateIff(records, scope, query, d, c);
      var i :| 0 <= i < |s| && s[i] == c;
      PlaceIsCount(records, scope, query, d, s, i);
      assert hits[i] == h;
    }
  }
}
