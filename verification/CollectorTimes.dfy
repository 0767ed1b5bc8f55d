/**
 What the candidates mean for the observations as they arrive, in terms of when things were observed:
 evidence stands while its project has reported no later resolution.
 */
module CollectorTimes {
  import opened Prelude
  import opened Collector

  // ---------------------------------------------------------------- time

  /** Observed later; at the same moment, the higher sequence number; then the higher identifier. */
  predicate Later(a: Observation, b: Observation) {
    if a.observedAt != b.observedAt then a.observedAt > b.observedAt
    else if a.sequence != b.sequence then a.sequence > b.sequence
    else a.observationId > b.observationId
  }

  /** Observation `i` comes after `j`: it is later, or neither is and it arrived after `j`. */
  predicate After(obs: seq<Observation>, i: int, j: int)
    requires 0 <= i < |obs| && 0 <= j < |obs|
  {
    Later(obs[i], obs[j]) || (!Later(obs[j], obs[i]) && i > j)
  }

  /** Evidence for a gap that comes after all resolutions that its project has reported for it. */
  ghost predicate Stands(obs: seq<Observation>, key: GapKey, i: int) {
    && 0 <= i < |obs| && KeyOf(obs[i]) == Some(key) && Qualifies(obs[i])
    && forall j :: 0 <= j < |obs| && ResolvesFor(obs[j], key, obs[i].project) ==> After(obs, i, j)
  }

  predicate ResolvesFor(o: Observation, key: GapKey, project: string) {
    KeyOf(o) == Some(key) && o.project == project && Resolves(o)
  }

  ghost function StandingEvidence(obs: seq<Observation>, key: GapKey): set<int> {
    set i | 0 <= i < |obs| && Stands(obs, key, i)
  }

  ghost function StandingProjects(obs: seq<Observation>, key: GapKey): set<string> {
    set i | i in StandingEvidence(obs, key) :: obs[i].project
  }

  // ---------------------------------------------------------------- sorting by time

  /** `p` lists the positions of `obs` in the order of time. */
  ghost predicate ByTime(obs: seq<Observation>, p: seq<nat>) {
    && |p| == |obs| && (forall k :: 0 <= k < |p| ==> p[k] < |obs|)
    && (forall i :: 0 <= i < |obs| ==> i in p)
    && forall k, l :: 0 <= k < l < |p| ==> After(obs, p[l], p[k])
  }

  lemma PlaceOf(obs: seq<Observation>, p: seq<nat>, i: nat) returns (k: nat)
    requires ByTime(obs, p) && i < |obs|
    ensures k < |p| && p[k] == i
  {
    assert i in p;
    k :| 0 <= k < |p| && p[k] == i;
  }

  ghost predicate Arranges(obs: seq<Observation>, p: seq<nat>, s: seq<Observation>) {
    ByTime(obs, p) && |s| == |obs| && forall k :: 0 <= k < |p| ==> s[k] == obs[p[k]]
  }

  lemma InitSplit(s: seq<Observation>, q: nat)
    requires q < |s|
    ensures s[..q] == s[..|s| - 1][..q] && s[q..] == s[..|s| - 1][q..] + [s[|s| - 1]]
  {
  }

  lemma {:induction false} InsertPlace(s: seq<Observation>, o: Observation) returns (q: nat)
    requires forall k, l :: 0 <= k < l < |s| ==> !Later(s[k], s[l])
    ensures q <= |s| && Collector.Insert(s, o) == s[..q] + [o] + s[q..]
    ensures forall k :: q <= k < |s| ==> Later(s[k], o)
    ensures forall k :: 0 <= k < q ==> !Later(s[k], o)
  {
    if s == [] || !Before(o, s[|s| - 1]) {
      q := |s|;
      assert s[..q] == s && s[q..] == [];
    } else {
      var init, last := s[..|s| - 1], s[|s| - 1];
      q := InsertPlace(init, o);
      InitSplit(s, q);
      assert init[..q] + [o] + init[q..] + [last] == init[..q] + [o] + (init[q..] + [last]);
    }
  }

  /** The sort arranges observations by time, and leaves those that sort alike in the order of arrival. */
  lemma {:induction false} SortedByTime(obs: seq<Observation>) returns (p: seq<nat>)
    ensures Arranges(obs, p, Ordered(obs))
  {
    if obs == [] {
      p := [];
    } else {
      var init, o := obs[..|obs| - 1], obs[|obs| - 1];
      var before := SortedByTime(init);
      var q := InsertPlace(Ordered(init), o);
      p := WithLast(before, q);
      Inserted(obs, before, Ordered(init), q);
    }
  }

  /** The order with the last observation inserted at `q`. */
  function WithLast(before: seq<nat>, q: nat): seq<nat>
    requires q <= |before|
  {
    before[..q] + [|before|] + before[q..]
  }

  lemma Inserted(obs: seq<Observation>, before: seq<nat>, s: seq<Observation>, q: nat)
    requires obs != [] && Arranges(obs[..|obs| - 1], before, s) && q <= |s|
    requires forall k :: q <= k < |s| ==> Later(s[k], obs[|obs| - 1])
    requires forall k :: 0 <= k < q ==> !Later(s[k], obs[|obs| - 1])
    ensures Arranges(obs, WithLast(before, q), s[..q] + [obs[|obs| - 1]] + s[q..])
  {
    var p := WithLast(before, q);
    InsertedPlaces(obs, before, s, q);
    InsertedOnto(obs, before, q);
    forall k, l | 0 <= k < l < |p| ensures After(obs, p[l], p[k]) {
      InsertedInOrder(obs, before, s, q, k, l);
    }
  }

  lemma InsertedPlaces(obs: seq<Observation>, before: seq<nat>, s: seq<Observation>, q: nat)
    requires obs != [] && Arranges(obs[..|obs| - 1], before, s) && q <= |s|
    ensures var p, t := WithLast(before, q), s[..q] + [obs[|obs| - 1]] + s[q..];
            |p| == |t| == |obs| && forall k :: 0 <= k < |p| ==> p[k] < |obs| && t[k] == obs[p[k]]
  {
    var p := WithLast(before, q);
    assert forall k :: 0 <= k < q ==> p[k] == before[k];
    assert p[q] == |before| && forall k :: q < k < |p| ==> p[k] == before[k - 1];
  }

  lemma InsertedOnto(obs: seq<Observation>, before: seq<nat>, q: nat)
    requires obs != [] && ByTime(obs[..|obs| - 1], before) && q <= |before|
    ensures var p := WithLast(before, q); forall i :: 0 <= i < |obs| ==> i in p
  {
    var p := WithLast(before, q);
    assert p[q] == |before|;
    forall i: nat | i < |before| ensures i in p {
      var k := PlaceOf(obs[..|obs| - 1], before, i);
      assert p[if k < q then k else k + 1] == i;
    }
  }

  lemma InsertedInOrder(obs: seq<Observation>, before: seq<nat>, s: seq<Observation>, q: nat, k: nat, l: nat)
    requires obs != [] && Arranges(obs[..|obs| - 1], before, s) && q <= |s|
    requires forall k :: q <= k < |s| ==> Later(s[k], obs[|obs| - 1])
    requires forall k :: 0 <= k < q ==> !Later(s[k], obs[|obs| - 1])
    requires k < l < |obs|
    ensures var p := WithLast(before, q);
            p[k] < |obs| && p[l] < |obs| && After(obs, p[l], p[k])
  {
    var init, n := obs[..|obs| - 1], |obs| - 1;
    if k != q && l != q {
      assert After(init, before[if l < q then l else l - 1], before[if k < q then k else k - 1]);
    }
  }

  // ---------------------------------------------------------------- what counts

  lemma AfterIsStrict(obs: seq<Observation>, i: nat, j: nat)
    requires i < |obs| && j < |obs|
    ensures !(After(obs, i, j) && After(obs, j, i))
  {
  }

  /** A position counts in the sorted list exactly when the observation stands among those that arrived. */
  lemma CountsIffStands(obs: seq<Observation>, p: seq<nat>, s: seq<Observation>, key: GapKey, k: nat)
    requires Arranges(obs, p, s) && k < |p|
    ensures Counts(s, key, k) <==> Stands(obs, key, p[k])
  {
    if Counts(s, key, k) {
      forall j | 0 <= j < |obs| && ResolvesFor(obs[j], key, obs[p[k]].project) ensures After(obs, p[k], j) {
        var l := PlaceOf(obs, p, j);
        assert s[l] == obs[j] && s[k] == obs[p[k]];
      }
    }
    if Stands(obs, key, p[k]) {
      forall l | k < l < |s| && KeyOf(s[l]) == Some(key) && s[l].project == s[k].project ensures !Resolves(s[l]) {
        AfterIsStrict(obs, p[k], p[l]);
        assert s[l] == obs[p[l]];
      }
    }
  }

  function Image(p: seq<nat>, ks: set<int>): set<nat>
    requires forall k :: k in ks ==> 0 <= k < |p|
  {
    set k | k in ks :: p[k]
  }

  lemma {:induction false} ImageSize(p: seq<nat>, ks: set<int>, n: nat)
    requires n <= |p| && forall k :: k in ks ==> 0 <= k < n
    requires forall k, l :: 0 <= k < l < |p| ==> p[k] != p[l]
    ensures |Image(p, ks)| == |ks|
  {
    if n == 0 {
      assert forall k: int :: k !in ks;
    } else {
      var rest := ks - {n - 1};
      ImageSize(p, rest, n - 1);
      assert p[n - 1] !in Image(p, rest);
      if n - 1 in ks {
        assert ks == rest + {n - 1} && Image(p, ks) == Image(p, rest) + {p[n - 1]};
      } else {
        assert ks == rest;
      }
    }
  }

  lemma PositionsDiffer(obs: seq<Observation>, p: seq<nat>)
    requires ByTime(obs, p)
    ensures forall k, l :: 0 <= k < l < |p| ==> p[k] != p[l]
  {
    forall k, l | 0 <= k < l < |p| ensures p[k] != p[l] {
      assert After(obs, p[l], p[k]);
    }
  }

  /** The evidence in the sorted list is the standing evidence, position by position. */
  lemma EvidenceStands(obs: seq<Observation>, p: seq<nat>, s: seq<Observation>, key: GapKey)
    requires Arranges(obs, p, s)
    ensures Image(p, Evidence(s, key)) == StandingEvidence(obs, key)
    ensures |Evidence(s, key)| == |StandingEvidence(obs, key)|
    ensures Projects(s, key) == StandingProjects(obs, key)
    ensures (set k | k in Evidence(s, key) :: s[k]) == (set i | i in StandingEvidence(obs, key) :: obs[i])
  {
    var image := Image(p, Evidence(s, key));
    forall k | 0 <= k < |p| ensures k in Evidence(s, key) <==> p[k] in StandingEvidence(obs, key) {
      CountsIffStands(obs, p, s, key, k);
    }
    forall i | i in StandingEvidence(obs, key) ensures i in image {
      var k := PlaceOf(obs, p, i);
    }
    PositionsDiffer(obs, p);
    ImageSize(p, Evidence(s, key), |p|);
    SameObservations(obs, p, s, key);
  }

  lemma SameObservations(obs: seq<Observation>, p: seq<nat>, s: seq<Observation>, key: GapKey)
    requires Arranges(obs, p, s) && Image(p, Evidence(s, key)) == StandingEvidence(obs, key)
    ensures Projects(s, key) == StandingProjects(obs, key)
    ensures (set k | k in Evidence(s, key) :: s[k]) == (set i | i in StandingEvidence(obs, key) :: obs[i])
  {
    forall i | i in StandingEvidence(obs, key)
      ensures obs[i].project in Projects(s, key) && obs[i] in (set k | k in Evidence(s, key) :: s[k])
    {
      var k :| k in Evidence(s, key) && p[k] == i;
      assert s[k] == obs[i];
    }
    forall k | k in Evidence(s, key)
      ensures s[k].project in StandingProjects(obs, key) && s[k] in (set i | i in StandingEvidence(obs, key) :: obs[i])
    {
      assert p[k] in StandingEvidence(obs, key) && s[k] == obs[p[k]];
    }
  }

  // ---------------------------------------------------------------- candidates

  /**
   Whatever order observations arrive in: a gap is a candidate exactly when some project has evidence
   that comes after all its resolutions. The candidate counts that evidence and those projects, lists
   the evidence's identifiers and profiles, and is eligible exactly when the projects reach the minimum.
   */
  lemma CandidatesByTime(obs: seq<Observation>, minimumProjects: int, key: GapKey)
    requires minimumProjects >= 2
    ensures var found, standing := Aggregated(obs, minimumProjects).value, StandingEvidence(obs, key);
            && (key in found <==> standing != {})
            && (key in found ==>
                  && found[key].occurrences == |standing|
                  && found[key].projects == |StandingProjects(obs, key)|
                  && (found[key].eligible <==> |StandingProjects(obs, key)| >= minimumProjects)
                  && found[key].observationIds == (set i | i in standing :: obs[i].observationId)
                  && found[key].profiles == (set i | i in standing :: obs[i].profile))
  {
    var p := SortedByTime(obs);
    EvidenceStands(obs, p, Ordered(obs), key);
    CandidatesCountStandingEvidence(obs, minimumProjects, key);
    if key in Aggregated(obs, minimumProjects).value {
      CandidatesListStandingEvidence(obs, minimumProjects, key);
      ListedByTime(obs, Ordered(obs), key);
    }
  }

  lemma ListedByTime(obs: seq<Observation>, s: seq<Observation>, key: GapKey)
    requires (set k | k in Evidence(s, key) :: s[k]) == (set i | i in StandingEvidence(obs, key) :: obs[i])
    ensures var listed := set k | k in Evidence(s, key) :: s[k];
            && (set o | o in listed :: o.observationId) == (set i | i in StandingEvidence(obs, key) :: obs[i].observationId)
            && (set o | o in listed :: o.profile) == (set i | i in StandingEvidence(obs, key) :: obs[i].profile)
  {
    var listed := set k | k in Evidence(s, key) :: s[k];
    forall i | i in StandingEvidence(obs, key) ensures obs[i] in listed {
      assert obs[i] in (set i | i in StandingEvidence(obs, key) :: obs[i]);
    }
    forall o | o in listed ensures exists i :: i in StandingEvidence(obs, key) && obs[i] == o {
      assert o in (set i | i in StandingEvidence(obs, key) :: obs[i]);
    }
  }

  /** Project by project: it counts exactly when it has evidence after all its resolutions. */
  lemma ProjectCountsIff(obs: seq<Observation>, key: GapKey, project: string)
    ensures project in Projects(Ordered(obs), key) <==>
            exists i :: Stands(obs, key, i) && obs[i].project == project
  {
    var p := SortedByTime(obs);
    EvidenceStands(obs, p, Ordered(obs), key);
    if i :| Stands(obs, key, i) && obs[i].project == project {
      assert i in StandingEvidence(obs, key);
    }
  }

  /** `i` is the first of its project's standing evidence. */
  ghost predicate Begins(obs: seq<Observation>, key: GapKey, i: int) {
    && Stands(obs, key, i)
    && forall j :: Stands(obs, key, j) && obs[j].project == obs[i].project ==> j == i || After(obs, j, i)
  }

  ghost predicate IsLatest(obs: seq<Observation>, key: GapKey, r: int) {
    && Stands(obs, key, r)
    && forall i :: Stands(obs, key, i) && obs[i].project == obs[r].project ==> i == r || After(obs, r, i)
  }

  /**
   A candidate is described by the latest standing evidence of one project, `r`; and no project's
   standing evidence begins after that project's does, at `first`.
   */
  lemma RepresentativeByTime(obs: seq<Observation>, minimumProjects: int, key: GapKey) returns (r: nat, first: nat)
    requires minimumProjects >= 2 && key in Aggregated(obs, minimumProjects).value
    ensures IsLatest(obs, key, r) && obs[r] == Aggregated(obs, minimumProjects).value[key].representative
    ensures Begins(obs, key, first) && obs[first].project == obs[r].project
    ensures forall i :: Begins(obs, key, i) ==> i == first || After(obs, first, i)
  {
    var s := Ordered(obs);
    var p := SortedByTime(obs);
    var k := RepresentativeIsFromNewestProject(obs, minimumProjects, key);
    r := p[k];
    CountsIffStands(obs, p, s, key, k);
    LatestInTime(obs, p, s, key, k);
    OpeningIsFirst(s, key, s[k].project, 0, k);
    var f := Opening(s, key, s[k].project, 0);
    first := p[f];
    BeginsAtOpening(obs, p, s, key, f);
    forall i | Begins(obs, key, i) ensures i == first || After(obs, first, i) {
      var l := OpeningOf(obs, p, s, key, i);
      assert l <= f;
    }
  }

  lemma LatestInTime(obs: seq<Observation>, p: seq<nat>, s: seq<Observation>, key: GapKey, k: nat)
    requires Arranges(obs, p, s) && Counts(s, key, k)
    requires forall l :: k < l < |s| ==> !StandsFor(s, key, s[k].project, l)
    ensures IsLatest(obs, key, p[k])
  {
    CountsIffStands(obs, p, s, key, k);
    forall i | Stands(obs, key, i) && obs[i].project == obs[p[k]].project ensures i == p[k] || After(obs, p[k], i) {
      var l := PlaceOf(obs, p, i);
      CountsIffStands(obs, p, s, key, l);
      assert StandsFor(s, key, s[k].project, l);
    }
  }

  /** Evidence begins, in time, where the sorted list opens it. */
  lemma BeginsAtOpening(obs: seq<Observation>, p: seq<nat>, s: seq<Observation>, key: GapKey, f: nat)
    requires Arranges(obs, p, s) && f < |s| && StandsFor(s, key, s[f].project, f) && Opening(s, key, s[f].project, 0) == f
    ensures Begins(obs, key, p[f])
  {
    CountsIffStands(obs, p, s, key, f);
    forall j | Stands(obs, key, j) && obs[j].project == obs[p[f]].project ensures j == p[f] || After(obs, j, p[f]) {
      var l := PlaceOf(obs, p, j);
      CountsIffStands(obs, p, s, key, l);
      OpeningIsFirst(s, key, s[f].project, 0, l);
    }
  }

  lemma OpeningOf(obs: seq<Observation>, p: seq<nat>, s: seq<Observation>, key: GapKey, i: nat) returns (l: nat)
    requires Arranges(obs, p, s) && Begins(obs, key, i)
    ensures l < |p| && p[l] == i && Counts(s, key, l) && l == Opening(s, key, s[l].project, 0)
  {
    l := PlaceOf(obs, p, i);
    CountsIffStands(obs, p, s, key, l);
    OpeningIsFirst(s, key, s[l].project, 0, l);
    var f := Opening(s, key, s[l].project, 0);
    CountsIffStands(obs, p, s, key, f);
    assert s[f] == obs[p[f]] && s[l] == obs[i];
    if f < l {
      AfterIsStrict(obs, p[l], p[f]);
    }
  }
}
