/** Promoting recurring unresolved gaps to candidates, against what a candidate is meant to count. */
module Collector {
  import opened Prelude

  /** `observationId` stands for a digest of fixed length, so it is ordered as a number. */
  datatype Observation = Observation(
    observedAt: int,
    sequence: nat,
    observationId: nat,
    version: string,
    manifestDigest: string,
    signature: Option<string>,
    project: string,
    eventType: string,
    recoverability: Option<string>,
    step: string,
    checkName: Option<string>,
    category: Option<string>,
    requiredCapability: Option<string>,
    profile: string)

  datatype GapKey = GapKey(version: string, manifestDigest: string, signature: string)

  /** One entry of the per-gap dictionary; a sequence of entries is a dictionary in insertion order. */
  datatype Entry = Entry(project: string, items: seq<Observation>)

  datatype Candidate = Candidate(
    representative: Observation,
    profiles: set<string>,
    observationIds: set<nat>,
    occurrences: nat,
    projects: nat,
    eligible: bool)

  function KeyOf(o: Observation): Option<GapKey> {
    if o.signature.None? || o.signature.value == "" then None
    else Some(GapKey(o.version, o.manifestDigest, o.signature.value))
  }

  predicate Resolves(o: Observation) {
    o.eventType == "capability_gap_resolved"
  }

  predicate Qualifies(o: Observation) {
    || (o.eventType == "harness_defect_observed" && o.recoverability == Some("harness_observation"))
    || (o.eventType == "capability_gap" && o.recoverability == Some("capability_gap"))
  }

  // ---------------------------------------------------------------- sorting

  /** Strictly earlier by time, then by sequence number, then by identifier. */
  predicate Before(a: Observation, b: Observation) {
    || a.observedAt < b.observedAt
    || (a.observedAt == b.observedAt && a.sequence < b.sequence)
    || (a.observedAt == b.observedAt && a.sequence == b.sequence && a.observationId < b.observationId)
  }

  function Insert(s: seq<Observation>, o: Observation): seq<Observation> {
    if s == [] || !Before(o, s[|s| - 1]) then s + [o] else Insert(s[..|s| - 1], o) + [s[|s| - 1]]
  }

  /** A stable sort: an observation goes after those that are not later than it. */
  function Ordered(s: seq<Observation>): seq<Observation> {
    if s == [] then [] else Insert(Ordered(s[..|s| - 1]), s[|s| - 1])
  }

  predicate Sorted(s: seq<Observation>) {
    forall i, j :: 0 <= i < j < |s| ==> !Before(s[j], s[i])
  }

  lemma {:induction false} InsertAdds(s: seq<Observation>, o: Observation)
    ensures multiset(Insert(s, o)) == multiset(s) + multiset{o}
  {
    if s != [] && Before(o, s[|s| - 1]) {
      InsertAdds(s[..|s| - 1], o);
      assert s == s[..|s| - 1] + [s[|s| - 1]];
    }
  }

  lemma {:induction false} InsertHolds(s: seq<Observation>, o: Observation, x: Observation)
    requires x in Insert(s, o)
    ensures x in s || x == o
  {
    if s != [] && Before(o, s[|s| - 1]) && x != s[|s| - 1] {
      InsertHolds(s[..|s| - 1], o, x);
    }
  }

  lemma {:induction false} InsertSorts(s: seq<Observation>, o: Observation)
    requires Sorted(s)
    ensures Sorted(Insert(s, o))
  {
    if s != [] && Before(o, s[|s| - 1]) {
      var init, last := s[..|s| - 1], s[|s| - 1];
      InsertSorts(init, o);
      forall x | x in Insert(init, o) ensures !Before(last, x) {
        InsertHolds(init, o, x);
      }
    }
  }

  lemma {:induction false} OrderedSorts(s: seq<Observation>)
    ensures Sorted(Ordered(s)) && multiset(Ordered(s)) == multiset(s)
  {
    if s != [] {
      OrderedSorts(s[..|s| - 1]);
      InsertSorts(Ordered(s[..|s| - 1]), s[|s| - 1]);
      InsertAdds(Ordered(s[..|s| - 1]), s[|s| - 1]);
      assert s == s[..|s| - 1] + [s[|s| - 1]];
    }
  }

  /** Observations that sort alike are the same observation. */
  ghost predicate DistinctKeys(s: seq<Observation>) {
    forall a, b :: a in s && b in s && !Before(a, b) && !Before(b, a) ==> a == b
  }

  lemma {:induction false} SortIsUnique(s: seq<Observation>, t: seq<Observation>)
    requires Sorted(s) && Sorted(t) && multiset(s) == multiset(t) && DistinctKeys(s)
    ensures s == t
    decreases |s|
  {
    assert |s| == |multiset(s)| && |t| == |multiset(t)|;
    if s != [] {
      FirstIsUnique(s, t);
      TailElements(s);
      TailElements(t);
      SortIsUnique(s[1..], t[1..]);
      assert s == [s[0]] + s[1..] && t == [t[0]] + t[1..];
    }
  }

  lemma FirstIsUnique(s: seq<Observation>, t: seq<Observation>)
    requires Sorted(s) && Sorted(t) && multiset(s) == multiset(t) && DistinctKeys(s) && s != [] && t != []
    ensures s[0] == t[0]
  {
    assert s[0] in multiset(t) && t[0] in multiset(s);
  }

  lemma TailElements(s: seq<Observation>)
    requires s != []
    ensures multiset(s[1..]) == multiset(s) - multiset{s[0]}
    ensures forall o :: o in s[1..] ==> o in s
  {
    assert s == [s[0]] + s[1..];
  }

  // ---------------------------------------------------------------- what should count

  /** Observation `i` is evidence for `key` that its project has not since resolved. */
  predicate Counts(s: seq<Observation>, key: GapKey, i: int) {
    && 0 <= i < |s| && KeyOf(s[i]) == Some(key) && Qualifies(s[i])
    && forall j :: i < j < |s| && KeyOf(s[j]) == Some(key) && s[j].project == s[i].project ==> !Resolves(s[j])
  }

  predicate StandsFor(s: seq<Observation>, key: GapKey, project: string, i: int) {
    Counts(s, key, i) && s[i].project == project
  }

  /** The standing evidence of one project among the first `n` observations, in order. */
  function Standing(s: seq<Observation>, key: GapKey, project: string, n: nat): seq<Observation>
    requires n <= |s|
  {
    if n == 0 then []
    else Standing(s, key, project, n - 1) + if StandsFor(s, key, project, n - 1) then [s[n - 1]] else []
  }

  ghost function Evidence(s: seq<Observation>, key: GapKey): set<int> {
    set i | 0 <= i < |s| && Counts(s, key, i)
  }

  ghost function Projects(s: seq<Observation>, key: GapKey): set<string> {
    set i | 0 <= i < |s| && Counts(s, key, i) :: s[i].project
  }

  /** Where a project's standing evidence begins, looking from position `i` on. */
  function Opening(s: seq<Observation>, key: GapKey, project: string, i: nat): nat
    decreases |s| - i
  {
    if i >= |s| || StandsFor(s, key, project, i) then i else Opening(s, key, project, i + 1)
  }

  lemma {:induction false} OpeningIsFirst(s: seq<Observation>, key: GapKey, project: string, i: nat, j: nat)
    requires i <= j < |s| && StandsFor(s, key, project, j)
    ensures i <= Opening(s, key, project, i) <= j
    ensures StandsFor(s, key, project, Opening(s, key, project, i))
    decreases |s| - i
  {
    if !StandsFor(s, key, project, i) {
      OpeningIsFirst(s, key, project, i + 1, j);
    }
  }

  // ---------------------------------------------------------------- what the loop keeps

  function Position(d: seq<Entry>, project: string): nat {
    if d == [] || d[0].project == project then 0 else 1 + Position(d[1..], project)
  }

  /** `dict.pop(project, None)`. */
  function Pop(d: seq<Entry>, project: string): seq<Entry> {
    var p := Position(d, project);
    if p < |d| then d[..p] + d[p + 1..] else d
  }

  /** `dict.setdefault(project, []).append(item)`. */
  function Add(d: seq<Entry>, o: Observation): seq<Entry> {
    var p := Position(d, o.project);
    if p < |d| then d[p := Entry(o.project, d[p].items + [o])] else d + [Entry(o.project, [o])]
  }

  function Noted(d: seq<Entry>, o: Observation): seq<Entry> {
    if Resolves(o) then Pop(d, o.project) else if Qualifies(o) then Add(d, o) else d
  }

  /** The dictionary of one gap after the loop has gone through `s`. */
  function ByProject(s: seq<Observation>, key: GapKey): seq<Entry> {
    if s == [] then []
    else
      var d := ByProject(s[..|s| - 1], key);
      if KeyOf(s[|s| - 1]) == Some(key) then Noted(d, s[|s| - 1]) else d
  }

  lemma {:induction false} PositionFinds(d: seq<Entry>, project: string)
    ensures Position(d, project) <= |d|
    ensures Position(d, project) < |d| ==> d[Position(d, project)].project == project
    ensures forall i :: 0 <= i < |d| && i < Position(d, project) ==> d[i].project != project
  {
    if d != [] && d[0].project != project {
      PositionFinds(d[1..], project);
    }
  }

  ghost predicate EntryAt(s: seq<Observation>, key: GapKey, e: Entry) {
    e.items == Standing(s, key, e.project, |s|) && e.items != []
  }

  ghost predicate Ascending(s: seq<Observation>, key: GapKey, d: seq<Entry>) {
    forall a, b :: 0 <= a < b < |d| ==> Opening(s, key, d[a].project, 0) < Opening(s, key, d[b].project, 0)
  }

  ghost predicate Covered(d: seq<Entry>, project: string) {
    exists a :: 0 <= a < |d| && d[a].project == project
  }

  /** The dictionary lists each project with standing evidence once, in order of where that evidence begins. */
  ghost predicate Faithful(s: seq<Observation>, key: GapKey, d: seq<Entry>) {
    && (forall a :: 0 <= a < |d| ==> EntryAt(s, key, d[a]))
    && Ascending(s, key, d)
    && (forall i :: Counts(s, key, i) ==> Covered(d, s[i].project))
  }

  // ---------------------------------------------------------------- one observation more

  /** What an observation changes: nothing, its project's whole standing evidence, or one more piece of it. */
  lemma CountsAfter(s: seq<Observation>, o: Observation, key: GapKey, i: int)
    ensures Counts(s + [o], key, i) <==>
            if i == |s| then KeyOf(o) == Some(key) && Qualifies(o)
            else Counts(s, key, i) && !(KeyOf(o) == Some(key) && Resolves(o) && o.project == s[i].project)
  {
    var t := s + [o];
    if 0 <= i < |s| {
      assert t[i] == s[i] && t[|s|] == o;
      assert forall j :: 0 <= j < |s| ==> t[j] == s[j];
    }
  }

  lemma {:induction false} StandingAgrees(s: seq<Observation>, o: Observation, key: GapKey, project: string, n: nat)
    requires n <= |s|
    requires !(KeyOf(o) == Some(key) && Resolves(o) && o.project == project)
    ensures Standing(s + [o], key, project, n) == Standing(s, key, project, n)
  {
    if n > 0 {
      StandingAgrees(s, o, key, project, n - 1);
      CountsAfter(s, o, key, n - 1);
    }
  }

  lemma {:induction false} OpeningAgrees(s: seq<Observation>, o: Observation, key: GapKey, project: string, i: nat)
    requires i <= |s|
    requires !(KeyOf(o) == Some(key) && Resolves(o) && o.project == project)
    ensures Opening(s, key, project, i) < |s| ==>
            Opening(s + [o], key, project, i) == Opening(s, key, project, i)
    ensures Opening(s, key, project, i) >= |s| ==> Opening(s + [o], key, project, i) >= |s|
    decreases |s| - i
  {
    if i < |s| {
      CountsAfter(s, o, key, i);
      if !StandsFor(s, key, project, i) {
        OpeningAgrees(s, o, key, project, i + 1);
      }
    }
  }

  ghost function EvidenceTo(s: seq<Observation>, key: GapKey, project: string, n: nat): (r: set<int>)
    ensures forall i :: i in r <==> 0 <= i < n && StandsFor(s, key, project, i)
  {
    if n == 0 then {}
    else if StandsFor(s, key, project, n - 1) then EvidenceTo(s, key, project, n - 1) + {n - 1}
    else EvidenceTo(s, key, project, n - 1)
  }

  lemma {:induction false} StandingCounts(s: seq<Observation>, key: GapKey, project: string, n: nat)
    requires n <= |s|
    ensures |Standing(s, key, project, n)| == |EvidenceTo(s, key, project, n)|
  {
    if n > 0 {
      StandingCounts(s, key, project, n - 1);
      assert n - 1 !in EvidenceTo(s, key, project, n - 1);
    }
  }

  /** A standing observation has a position. */
  lemma {:induction false} StandingHasPosition(s: seq<Observation>, key: GapKey, project: string, n: nat, o: Observation)
    returns (i: nat)
    requires n <= |s| && o in Standing(s, key, project, n)
    ensures i < n && StandsFor(s, key, project, i) && s[i] == o
  {
    if StandsFor(s, key, project, n - 1) && s[n - 1] == o {
      i := n - 1;
    } else {
      i := StandingHasPosition(s, key, project, n - 1, o);
    }
  }

  lemma {:induction false} StandingHolds(s: seq<Observation>, key: GapKey, project: string, n: nat, i: nat)
    requires i < n <= |s| && StandsFor(s, key, project, i)
    ensures s[i] in Standing(s, key, project, n)
  {
    if i < n - 1 {
      StandingHolds(s, key, project, n - 1, i);
    }
  }

  /** The last standing observation of a project comes after all its others. */
  lemma {:induction false} StandingEndsLast(s: seq<Observation>, key: GapKey, project: string, n: nat)
    returns (last: nat)
    requires n <= |s| && Standing(s, key, project, n) != []
    ensures last < n && StandsFor(s, key, project, last)
    ensures var items := Standing(s, key, project, n); items[|items| - 1] == s[last]
    ensures forall i :: last < i < n ==> !StandsFor(s, key, project, i)
  {
    if StandsFor(s, key, project, n - 1) {
      last := n - 1;
    } else {
      last := StandingEndsLast(s, key, project, n - 1);
    }
  }

  lemma EntryOpens(s: seq<Observation>, key: GapKey, e: Entry)
    requires EntryAt(s, key, e)
    ensures Opening(s, key, e.project, 0) < |s|
  {
    var i := StandingHasPosition(s, key, e.project, |s|, e.items[0]);
    OpeningIsFirst(s, key, e.project, 0, i);
  }

  /** An observation that neither resolves nor adds to a project's gap leaves its entry as it was. */
  lemma EntryElsewhere(s: seq<Observation>, o: Observation, key: GapKey, e: Entry)
    requires EntryAt(s, key, e)
    requires KeyOf(o) == Some(key) && o.project == e.project ==> !Resolves(o) && !Qualifies(o)
    ensures EntryAt(s + [o], key, e)
    ensures Opening(s + [o], key, e.project, 0) == Opening(s, key, e.project, 0) < |s|
  {
    StandingElsewhere(s, o, key, e.project);
    OpeningElsewhere(s, o, key, e);
  }

  lemma OpeningElsewhere(s: seq<Observation>, o: Observation, key: GapKey, e: Entry)
    requires EntryAt(s, key, e)
    requires !(KeyOf(o) == Some(key) && Resolves(o) && o.project == e.project)
    ensures Opening(s + [o], key, e.project, 0) == Opening(s, key, e.project, 0) < |s|
  {
    EntryOpens(s, key, e);
    OpeningAgrees(s, o, key, e.project, 0);
  }

  lemma StandingElsewhere(s: seq<Observation>, o: Observation, key: GapKey, project: string)
    requires KeyOf(o) == Some(key) && o.project == project ==> !Resolves(o) && !Qualifies(o)
    ensures Standing(s + [o], key, project, |s| + 1) == Standing(s, key, project, |s|)
  {
    StandingAgrees(s, o, key, project, |s|);
    CountsAfter(s, o, key, |s|);
    assert (s + [o])[|s|] == o;
  }

  /** One more piece of evidence for a project. */
  lemma EntryGrows(s: seq<Observation>, o: Observation, key: GapKey)
    requires KeyOf(o) == Some(key) && Qualifies(o)
    ensures EntryAt(s + [o], key, Entry(o.project, Standing(s, key, o.project, |s|) + [o]))
    ensures Opening(s, key, o.project, 0) < |s| ==>
            Opening(s + [o], key, o.project, 0) == Opening(s, key, o.project, 0)
    ensures Opening(s, key, o.project, 0) >= |s| ==> Opening(s + [o], key, o.project, 0) >= |s|
  {
    StandingAgrees(s, o, key, o.project, |s|);
    CountsAfter(s, o, key, |s|);
    OpeningAgrees(s, o, key, o.project, 0);
  }

  lemma PositionIsUnique(s: seq<Observation>, key: GapKey, d: seq<Entry>, a: nat)
    requires Ascending(s, key, d) && a < |d|
    ensures Position(d, d[a].project) == a
  {
    PositionFinds(d, d[a].project);
  }

  lemma CoveredAt(d: seq<Entry>, a: nat)
    requires a < |d|
    ensures Covered(d, d[a].project)
  {}

  lemma FaithfulWhenIrrelevant(s: seq<Observation>, o: Observation, key: GapKey, d: seq<Entry>)
    requires Faithful(s, key, d)
    requires KeyOf(o) == Some(key) ==> !Resolves(o) && !Qualifies(o)
    ensures Faithful(s + [o], key, d)
  {
    forall a | 0 <= a < |d|
      ensures EntryAt(s + [o], key, d[a])
      ensures Opening(s + [o], key, d[a].project, 0) == Opening(s, key, d[a].project, 0)
    {
      EntryElsewhere(s, o, key, d[a]);
    }
    forall i | Counts(s + [o], key, i) ensures Covered(d, (s + [o])[i].project) {
      CountsAfter(s, o, key, i);
    }
  }

  lemma PopAt(d: seq<Entry>, project: string, a: nat)
    requires a < |Pop(d, project)|
    ensures a < Position(d, project) ==> a < |d| && Pop(d, project)[a] == d[a]
    ensures a >= Position(d, project) ==> a + 1 < |d| && Pop(d, project)[a] == d[a + 1]
  {
    PositionFinds(d, project);
  }

  lemma EntryAfterPop(s: seq<Observation>, o: Observation, key: GapKey, d: seq<Entry>, a: nat)
    requires Faithful(s, key, d) && Resolves(o) && a < |Pop(d, o.project)|
    ensures var e := Pop(d, o.project)[a];
            EntryAt(s + [o], key, e) && Opening(s + [o], key, e.project, 0) == Opening(s, key, e.project, 0)
  {
    var b := if a < Position(d, o.project) then a else a + 1;
    PopAt(d, o.project, a);
    PositionIsUnique(s, key, d, b);
    EntryElsewhere(s, o, key, d[b]);
  }

  lemma CoveredAfterPop(d: seq<Entry>, project: string, other: string)
    requires Covered(d, other) && other != project
    ensures Covered(Pop(d, project), other)
  {
    PositionFinds(d, project);
    var a :| 0 <= a < |d| && d[a].project == other;
    PopKeeps(d, project, a);
    CoveredAt(Pop(d, project), if a < Position(d, project) then a else a - 1);
  }

  lemma PopKeeps(d: seq<Entry>, project: string, a: nat)
    requires a < |d| && a != Position(d, project)
    ensures var b := if a < Position(d, project) then a else a - 1;
            b < |Pop(d, project)| && Pop(d, project)[b] == d[a]
  {
    PositionFinds(d, project);
  }

  lemma FaithfulAfterPop(s: seq<Observation>, o: Observation, key: GapKey, d: seq<Entry>)
    requires Faithful(s, key, d) && KeyOf(o) == Some(key) && Resolves(o)
    ensures Faithful(s + [o], key, Pop(d, o.project))
  {
    var t, n := s + [o], Pop(d, o.project);
    forall a | 0 <= a < |n|
      ensures EntryAt(t, key, n[a]) && Opening(t, key, n[a].project, 0) == Opening(s, key, n[a].project, 0)
    {
      EntryAfterPop(s, o, key, d, a);
    }
    forall a, b | 0 <= a < b < |n|
      ensures Opening(s, key, n[a].project, 0) < Opening(s, key, n[b].project, 0)
    {
      PopAt(d, o.project, a);
      PopAt(d, o.project, b);
    }
    forall i | Counts(t, key, i) ensures Covered(n, t[i].project) {
      CountsAfter(s, o, key, i);
      CoveredAfterPop(d, o.project, s[i].project);
    }
  }

  lemma EntriesAfterNew(s: seq<Observation>, o: Observation, key: GapKey, d: seq<Entry>, a: nat)
    requires Faithful(s, key, d) && KeyOf(o) == Some(key) && Qualifies(o) && Position(d, o.project) == |d|
    requires a <= |d|
    ensures EntryAt(s + [o], key, Add(d, o)[a])
    ensures a < |d| ==> Opening(s + [o], key, d[a].project, 0) == Opening(s, key, d[a].project, 0) < |s|
    ensures a == |d| ==> Opening(s + [o], key, o.project, 0) >= |s|
  {
    PositionFinds(d, o.project);
    if a < |d| {
      EntryElsewhere(s, o, key, d[a]);
    } else {
      NobodyStands(s, key, d, o.project);
      EntryGrows(s, o, key);
    }
  }

  lemma CoveredAfterAdd(d: seq<Entry>, o: Observation, other: string)
    requires Covered(d, other) || other == o.project
    ensures Covered(Add(d, o), other)
  {
    var n, p := Add(d, o), Position(d, o.project);
    PositionFinds(d, o.project);
    if other == o.project {
      CoveredAt(n, p);
    } else {
      var a :| 0 <= a < |d| && d[a].project == other;
      CoveredAt(n, a);
    }
  }

  lemma FaithfulAfterNew(s: seq<Observation>, o: Observation, key: GapKey, d: seq<Entry>)
    requires Faithful(s, key, d) && KeyOf(o) == Some(key) && Qualifies(o) && Position(d, o.project) == |d|
    ensures Faithful(s + [o], key, Add(d, o))
  {
    var t, n := s + [o], Add(d, o);
    forall a | 0 <= a < |n| ensures EntryAt(t, key, n[a]) {
      EntriesAfterNew(s, o, key, d, a);
    }
    forall a, b | 0 <= a < b < |n|
      ensures Opening(t, key, n[a].project, 0) < Opening(t, key, n[b].project, 0)
    {
      EntriesAfterNew(s, o, key, d, a);
      EntriesAfterNew(s, o, key, d, b);
    }
    forall i | Counts(t, key, i) ensures Covered(n, t[i].project) {
      CountsAfter(s, o, key, i);
      CoveredAfterAdd(d, o, t[i].project);
    }
  }

  /** A project without an entry has no standing evidence. */
  lemma NobodyStands(s: seq<Observation>, key: GapKey, d: seq<Entry>, project: string)
    requires Faithful(s, key, d) && !Covered(d, project)
    ensures Standing(s, key, project, |s|) == [] && Opening(s, key, project, 0) >= |s|
  {
    if Standing(s, key, project, |s|) != [] {
      var i := StandingHasPosition(s, key, project, |s|, Standing(s, key, project, |s|)[0]);
    }
    NotOpened(s, key, project, 0);
  }

  lemma {:induction false} NotOpened(s: seq<Observation>, key: GapKey, project: string, i: nat)
    requires forall j :: i <= j < |s| ==> !StandsFor(s, key, project, j)
    ensures Opening(s, key, project, i) >= |s|
    decreases |s| - i
  {
    if i < |s| {
      NotOpened(s, key, project, i + 1);
    }
  }

  lemma FaithfulAfterMore(s: seq<Observation>, o: Observation, key: GapKey, d: seq<Entry>)
    requires Faithful(s, key, d) && KeyOf(o) == Some(key) && Qualifies(o) && Position(d, o.project) < |d|
    ensures Faithful(s + [o], key, Add(d, o))
  {
    var t, n, p := s + [o], Add(d, o), Position(d, o.project);
    PositionFinds(d, o.project);
    EntryGrows(s, o, key);
    EntryOpens(s, key, d[p]);
    forall a | 0 <= a < |d|
      ensures EntryAt(t, key, n[a]) && n[a].project == d[a].project
      ensures Opening(t, key, n[a].project, 0) == Opening(s, key, d[a].project, 0)
    {
      if a != p {
        PositionIsUnique(s, key, d, a);
        EntryElsewhere(s, o, key, d[a]);
      }
    }
    forall i | Counts(t, key, i) ensures Covered(n, t[i].project) {
      CountsAfter(s, o, key, i);
      CoveredAfterAdd(d, o, t[i].project);
    }
  }

  lemma {:induction false} ByProjectIsFaithful(s: seq<Observation>, key: GapKey)
    ensures Faithful(s, key, ByProject(s, key))
  {
    if s != [] {
      var init, o := s[..|s| - 1], s[|s| - 1];
      ByProjectIsFaithful(init, key);
      var d := ByProject(init, key);
      PositionFinds(d, o.project);
      assert s == init + [o];
      if KeyOf(o) != Some(key) || (!Resolves(o) && !Qualifies(o)) {
        FaithfulWhenIrrelevant(init, o, key, d);
      } else if Resolves(o) {
        FaithfulAfterPop(init, o, key, d);
      } else if Position(d, o.project) == |d| {
        FaithfulAfterNew(init, o, key, d);
      } else {
        FaithfulAfterMore(init, o, key, d);
      }
    }
  }

  // ---------------------------------------------------------------- candidates

  /** The comprehension over the dictionary's values. */
  function Relevant(d: seq<Entry>): seq<Observation> {
    if d == [] then [] else Relevant(d[..|d| - 1]) + d[|d| - 1].items
  }

  function CandidateOf(d: seq<Entry>, minimumProjects: int): Candidate
    requires Relevant(d) != []
  {
    var relevant := Relevant(d);
    Candidate(
      relevant[|relevant| - 1],
      set o | o in relevant :: o.profile,
      set o | o in relevant :: o.observationId,
      |relevant|,
      |d|,
      |d| >= minimumProjects)
  }

  function Keys(s: seq<Observation>): set<GapKey> {
    set o | o in s && KeyOf(o).Some? :: KeyOf(o).value
  }

  /** What `aggregate_candidates` returns, keyed by gap; None when it refuses `minimumProjects`. */
  function Aggregated(observations: seq<Observation>, minimumProjects: int): Option<map<GapKey, Candidate>> {
    if minimumProjects < 2 then None
    else
      var s := Ordered(observations);
      Some(map key | key in Keys(s) && Relevant(ByProject(s, key)) != [] ::
        CandidateOf(ByProject(s, key), minimumProjects))
  }

  ghost predicate Listed(s: seq<Observation>, key: GapKey, d: seq<Entry>) {
    (forall a :: 0 <= a < |d| ==> EntryAt(s, key, d[a])) && Ascending(s, key, d)
  }

  ghost function Names(d: seq<Entry>): set<string> {
    if d == [] then {} else Names(d[..|d| - 1]) + {d[|d| - 1].project}
  }

  /** The positions of the standing evidence of the listed projects. */
  ghost function Positions(s: seq<Observation>, key: GapKey, d: seq<Entry>): set<int> {
    if d == [] then {} else Positions(s, key, d[..|d| - 1]) + EvidenceTo(s, key, d[|d| - 1].project, |s|)
  }

  lemma {:induction false} NamesAreCovered(d: seq<Entry>, project: string)
    ensures project in Names(d) <==> Covered(d, project)
  {
    if d != [] {
      var init := d[..|d| - 1];
      NamesAreCovered(init, project);
      if Covered(init, project) {
        var a :| 0 <= a < |init| && init[a].project == project;
        CoveredAt(d, a);
      }
      CoveredAt(d, |d| - 1);
      if Covered(d, project) && d[|d| - 1].project != project {
        var a :| 0 <= a < |d| && d[a].project == project;
        CoveredAt(init, a);
      }
    }
  }

  lemma LastIsNew(s: seq<Observation>, key: GapKey, d: seq<Entry>)
    requires Listed(s, key, d) && d != []
    ensures Listed(s, key, d[..|d| - 1]) && d[|d| - 1].project !in Names(d[..|d| - 1])
  {
    NamesAreCovered(d[..|d| - 1], d[|d| - 1].project);
  }

  lemma {:induction false} NamesAreCounted(s: seq<Observation>, key: GapKey, d: seq<Entry>)
    requires Listed(s, key, d)
    ensures |Names(d)| == |d|
  {
    if d != [] {
      LastIsNew(s, key, d);
      NamesAreCounted(s, key, d[..|d| - 1]);
    }
  }

  lemma {:induction false} PositionsAreNamed(s: seq<Observation>, key: GapKey, d: seq<Entry>, i: int)
    ensures i in Positions(s, key, d) <==> Counts(s, key, i) && s[i].project in Names(d)
  {
    if d != [] {
      PositionsAreNamed(s, key, d[..|d| - 1], i);
    }
  }

  lemma SizeOfDisjointUnion(a: set<int>, b: set<int>)
    requires a !! b
    ensures |a + b| == |a| + |b|
  {}

  lemma {:induction false} RelevantIsCounted(s: seq<Observation>, key: GapKey, d: seq<Entry>)
    requires Listed(s, key, d)
    ensures |Relevant(d)| == |Positions(s, key, d)|
  {
    if d != [] {
      var init, e := d[..|d| - 1], d[|d| - 1];
      LastIsNew(s, key, d);
      RelevantIsCounted(s, key, init);
      StandingCounts(s, key, e.project, |s|);
      forall i | i in Positions(s, key, init) ensures i !in EvidenceTo(s, key, e.project, |s|) {
        PositionsAreNamed(s, key, init, i);
      }
      SizeOfDisjointUnion(Positions(s, key, init), EvidenceTo(s, key, e.project, |s|));
    }
  }

  lemma {:induction false} RelevantHasPosition(s: seq<Observation>, key: GapKey, d: seq<Entry>, o: Observation)
    returns (i: nat)
    requires Listed(s, key, d) && o in Relevant(d)
    ensures Counts(s, key, i) && s[i] == o
  {
    var init, e := d[..|d| - 1], d[|d| - 1];
    if o in e.items {
      i := StandingHasPosition(s, key, e.project, |s|, o);
    } else {
      LastIsNew(s, key, d);
      i := RelevantHasPosition(s, key, init, o);
    }
  }

  lemma {:induction false} EvidenceIsRelevant(s: seq<Observation>, key: GapKey, d: seq<Entry>, i: nat)
    requires Listed(s, key, d) && Counts(s, key, i) && s[i].project in Names(d)
    ensures s[i] in Relevant(d)
  {
    var init, e := d[..|d| - 1], d[|d| - 1];
    if e.project == s[i].project {
      StandingHolds(s, key, e.project, |s|, i);
    } else {
      LastIsNew(s, key, d);
      EvidenceIsRelevant(s, key, init, i);
    }
  }

  /** The dictionary's projects, and all their observations, are exactly the standing evidence. */
  lemma DictionaryIsEvidence(s: seq<Observation>, key: GapKey)
    ensures var d := ByProject(s, key);
            && Names(d) == Projects(s, key) && |d| == |Projects(s, key)|
            && Positions(s, key, d) == Evidence(s, key) && |Relevant(d)| == |Evidence(s, key)|
  {
    var d := ByProject(s, key);
    ByProjectIsFaithful(s, key);
    NamesAreCounted(s, key, d);
    RelevantIsCounted(s, key, d);
    forall project ensures project in Names(d) <==> project in Projects(s, key) {
      NamesAreCovered(d, project);
      if Covered(d, project) {
        var a :| 0 <= a < |d| && d[a].project == project;
        var i := StandingHasPosition(s, key, project, |s|, d[a].items[0]);
        assert i in Evidence(s, key);
      }
    }
    forall i ensures i in Positions(s, key, d) <==> i in Evidence(s, key) {
      PositionsAreNamed(s, key, d, i);
      assert i in Evidence(s, key) ==> s[i].project in Projects(s, key);
    }
  }

  lemma KeyedByEvidence(s: seq<Observation>, key: GapKey, i: nat)
    requires Counts(s, key, i)
    ensures key in Keys(s)
  {
    assert s[i] in s;
  }

  /**
   A gap becomes a candidate exactly when some evidence for it still stands; the candidate counts
   every standing observation and every project that has one, and is eligible exactly when those
   projects reach the minimum.
   */
  lemma CandidatesCountStandingEvidence(observations: seq<Observation>, minimumProjects: int, key: GapKey)
    requires minimumProjects >= 2
    ensures var s, found := Ordered(observations), Aggregated(observations, minimumProjects).value;
            && (key in found <==> Evidence(s, key) != {})
            && (key in found ==>
                  && found[key].occurrences == |Evidence(s, key)|
                  && found[key].projects == |Projects(s, key)|
                  && (found[key].eligible <==> |Projects(s, key)| >= minimumProjects))
  {
    var s := Ordered(observations);
    DictionaryIsEvidence(s, key);
    if i :| i in Evidence(s, key) {
      KeyedByEvidence(s, key, i);
    }
  }

  lemma RelevantIsEvidence(s: seq<Observation>, key: GapKey)
    ensures (set o | o in Relevant(ByProject(s, key))) == (set i | i in Evidence(s, key) :: s[i])
  {
    var standing := set i | i in Evidence(s, key) :: s[i];
    forall o | o in Relevant(ByProject(s, key)) ensures o in standing {
      var i := RelevantStands(s, key, o);
      assert i in Evidence(s, key);
    }
    forall o | o in standing ensures o in Relevant(ByProject(s, key)) {
      var i :| i in Evidence(s, key) && s[i] == o;
      StandingIsRelevant(s, key, i);
    }
  }

  lemma RelevantStands(s: seq<Observation>, key: GapKey, o: Observation) returns (i: nat)
    requires o in Relevant(ByProject(s, key))
    ensures Counts(s, key, i) && s[i] == o
  {
    ByProjectIsFaithful(s, key);
    i := RelevantHasPosition(s, key, ByProject(s, key), o);
  }

  lemma StandingIsRelevant(s: seq<Observation>, key: GapKey, i: nat)
    requires Counts(s, key, i)
    ensures s[i] in Relevant(ByProject(s, key))
  {
    ByProjectIsFaithful(s, key);
    NamesAreCovered(ByProject(s, key), s[i].project);
    EvidenceIsRelevant(s, key, ByProject(s, key), i);
  }

  /** A candidate lists the identifiers and profiles of its standing evidence, all of them and no others. */
  lemma CandidatesListStandingEvidence(observations: seq<Observation>, minimumProjects: int, key: GapKey)
    requires minimumProjects >= 2 && key in Aggregated(observations, minimumProjects).value
    ensures var s, c := Ordered(observations), Aggregated(observations, minimumProjects).value[key];
            var standing := set i | i in Evidence(s, key) :: s[i];
            && c.observationIds == (set o | o in standing :: o.observationId)
            && c.profiles == (set o | o in standing :: o.profile)
  {
    var s := Ordered(observations);
    RelevantIsEvidence(s, key);
    var relevant := Relevant(ByProject(s, key));
    var standing := set o | o in relevant;
    assert (set o | o in relevant :: o.observationId) == (set o | o in standing :: o.observationId);
    assert (set o | o in relevant :: o.profile) == (set o | o in standing :: o.profile);
  }

  /**
   The observation a candidate takes its description from is the latest evidence of the project
   whose evidence began last, which need not be the latest evidence overall.
   */
  lemma RepresentativeIsFromNewestProject(observations: seq<Observation>, minimumProjects: int, key: GapKey)
    returns (r: nat)
    requires minimumProjects >= 2 && key in Aggregated(observations, minimumProjects).value
    ensures var s := Ordered(observations);
            && Counts(s, key, r) && s[r] == Aggregated(observations, minimumProjects).value[key].representative
            && (forall i :: r < i < |s| ==> !StandsFor(s, key, s[r].project, i))
            && (forall i :: Counts(s, key, i) ==>
                  Opening(s, key, s[i].project, 0) <= Opening(s, key, s[r].project, 0))
  {
    r := LastOfNewest(Ordered(observations), key);
  }

  lemma LastOfNewest(s: seq<Observation>, key: GapKey) returns (r: nat)
    requires Relevant(ByProject(s, key)) != []
    ensures Counts(s, key, r) && s[r] == Relevant(ByProject(s, key))[|Relevant(ByProject(s, key))| - 1]
    ensures forall i :: r < i < |s| ==> !StandsFor(s, key, s[r].project, i)
    ensures forall i :: Counts(s, key, i) ==> Opening(s, key, s[i].project, 0) <= Opening(s, key, s[r].project, 0)
  {
    var d := ByProject(s, key);
    ByProjectIsFaithful(s, key);
    var e := d[|d| - 1];
    assert EntryAt(s, key, e);
    r := StandingEndsLast(s, key, e.project, |s|);
    forall i | Counts(s, key, i) ensures Opening(s, key, s[i].project, 0) <= Opening(s, key, e.project, 0) {
      OpensBeforeLast(s, key, d, s[i].project);
    }
  }

  lemma OpensBeforeLast(s: seq<Observation>, key: GapKey, d: seq<Entry>, project: string)
    requires Ascending(s, key, d) && Covered(d, project)
    ensures Opening(s, key, project, 0) <= Opening(s, key, d[|d| - 1].project, 0)
  {
    var a :| 0 <= a < |d| && d[a].project == project;
  }

  /** It need not be: of evidence from one project, then another, then the first again, the second describes the gap. */
  lemma RepresentativeNeedNotBeLatest(first: Observation, second: Observation, third: Observation, key: GapKey)
    requires forall o :: o in {first, second, third} ==> KeyOf(o) == Some(key) && Qualifies(o) && !Resolves(o)
    requires first.project == third.project != second.project
    ensures var relevant := Relevant(ByProject([first, second, third], key));
            relevant == [first, third, second]
  {
    var one, two, three := [first], [first, second], [first, second, third];
    assert three[..2] == two && two[..1] == one && one[..0] == [];
    var a, b := Entry(first.project, [first]), Entry(second.project, [second]);
    assert Noted([], first) == [a];
    assert ByProject(one, key) == [a];
    assert [a][1..] == [] && Position([a], second.project) == 1;
    assert ByProject(two, key) == [a, b];
    var c := Entry(first.project, [first, third]);
    assert [first] + [third] == [first, third];
    assert Position([a, b], third.project) == 0 && [a, b][0 := c] == [c, b];
    assert ByProject(three, key) == [c, b];
    assert [c, b][..1] == [c] && [c][..0] == [];
    assert Relevant([c]) == [first, third];
  }

  /** The order observations arrive in does not matter, as long as those that sort alike are the same. */
  lemma ArrivalOrderDoesNotMatter(s: seq<Observation>, t: seq<Observation>, minimumProjects: int)
    requires multiset(s) == multiset(t) && DistinctKeys(s)
    ensures Aggregated(s, minimumProjects) == Aggregated(t, minimumProjects)
  {
    OrderedSorts(s);
    OrderedSorts(t);
    forall o | o in Ordered(s) ensures o in s {
      assert o in multiset(Ordered(s));
    }
    SortIsUnique(Ordered(s), Ordered(t));
  }

  // ---------------------------------------------------------------- the code

  function Lookup(active: map<GapKey, seq<Entry>>, key: GapKey): seq<Entry> {
    if key in active then active[key] else []
  }

  lemma KeysGrow(s: seq<Observation>, o: Observation)
    ensures Keys(s + [o]) == Keys(s) + if KeyOf(o).Some? then {KeyOf(o).value} else {}
  {
    assert forall x :: x in s + [o] <==> x in s || x == o;
  }

  /** The first loop: one dictionary per gap, each keyed by project in insertion order. */
  method GroupByGap(ordered: seq<Observation>) returns (active: map<GapKey, seq<Entry>>)
    ensures active == map key | key in Keys(ordered) :: ByProject(ordered, key)
  {
    active := map[];
    for n := 0 to |ordered|
      invariant forall key :: Lookup(active, key) == ByProject(ordered[..n], key)
      invariant active.Keys == Keys(ordered[..n])
    {
      var item := ordered[n];
      assert ordered[..n + 1][..n] == ordered[..n] && ordered[..n + 1] == ordered[..n] + [item];
      KeysGrow(ordered[..n], item);
      if item.signature.None? || item.signature.value == "" {
        continue;
      }
      var key := GapKey(item.version, item.manifestDigest, item.signature.value);
      var byProject := Lookup(active, key);
      if item.eventType == "capability_gap_resolved" {
        byProject := Pop(byProject, item.project);
      } else if Qualifies(item) {
        byProject := Add(byProject, item);
      }
      active := active[key := byProject];
    }
    assert ordered[..|ordered|] == ordered;
    assert forall key :: key in active ==> active[key] == Lookup(active, key);
  }

  /** The order of the gap keys, as tuples of texts. */
  predicate KeyBefore(a: GapKey, b: GapKey) {
    || TextBefore(a.version, b.version)
    || (a.version == b.version && TextBefore(a.manifestDigest, b.manifestDigest))
    || (a.version == b.version && a.manifestDigest == b.manifestDigest && TextBefore(a.signature, b.signature))
  }

  /** The first part in which two keys differ. */
  function DecidingPart(a: GapKey, b: GapKey): (string, string) {
    if a.version != b.version then (a.version, b.version)
    else if a.manifestDigest != b.manifestDigest then (a.manifestDigest, b.manifestDigest)
    else (a.signature, b.signature)
  }

  /** It decides, by the first character in which it differs. */
  lemma KeyBeforeIff(a: GapKey, b: GapKey)
    ensures var (x, y) := DecidingPart(a, b); KeyBefore(a, b) <==> exists n: nat :: FallsBehindAt(x, y, n)
  {
    var (x, y) := DecidingPart(a, b);
    TextBeforeIff(x, y);
    TextBeforeIsTotal(a.version, b.version);
    TextBeforeIsTotal(a.manifestDigest, b.manifestDigest);
  }

  lemma KeyBeforeIsTotal(a: GapKey, b: GapKey)
    ensures !KeyBefore(a, a) && !(KeyBefore(a, b) && KeyBefore(b, a))
    ensures a == b || KeyBefore(a, b) || KeyBefore(b, a)
  {
    TextBeforeIsTotal(a.version, b.version);
    TextBeforeIsTotal(a.manifestDigest, b.manifestDigest);
    TextBeforeIsTotal(a.signature, b.signature);
  }

  lemma KeyBeforeIsTransitive(a: GapKey, b: GapKey, c: GapKey)
    requires KeyBefore(a, b) && KeyBefore(b, c)
    ensures KeyBefore(a, c)
  {
    if TextBefore(a.version, b.version) && TextBefore(b.version, c.version) {
      TextBeforeIsTransitive(a.version, b.version, c.version);
    } else if a.version == b.version == c.version {
      if TextBefore(a.manifestDigest, b.manifestDigest) && TextBefore(b.manifestDigest, c.manifestDigest) {
        TextBeforeIsTransitive(a.manifestDigest, b.manifestDigest, c.manifestDigest);
      } else if a.manifestDigest == b.manifestDigest == c.manifestDigest {
        TextBeforeIsTransitive(a.signature, b.signature, c.signature);
      }
    }
  }

  type Order = (GapKey, GapKey) -> bool

  /** A strict total order. */
  ghost predicate Strict(before: Order) {
    && (forall a, b :: !(before(a, b) && before(b, a)))
    && (forall a, b :: a == b || before(a, b) || before(b, a))
    && (forall a, b, c :: before(a, b) && before(b, c) ==> before(a, c))
  }

  lemma KeyBeforeIsStrict()
    ensures Strict(KeyBefore)
  {
    forall a, b ensures !(KeyBefore(a, b) && KeyBefore(b, a)) && (a == b || KeyBefore(a, b) || KeyBefore(b, a)) {
      KeyBeforeIsTotal(a, b);
    }
    forall a, b, c | KeyBefore(a, b) && KeyBefore(b, c) ensures KeyBefore(a, c) {
      KeyBeforeIsTransitive(a, b, c);
    }
  }

  predicate IsLeast(key: GapKey, keys: set<GapKey>, before: Order) {
    key in keys && forall other :: other in keys ==> other == key || before(key, other)
  }

  lemma {:induction false} LeastKeyExists(keys: set<GapKey>, before: Order) returns (least: GapKey)
    requires keys != {} && Strict(before)
    ensures IsLeast(least, keys, before)
    decreases |keys|
  {
    var key :| key in keys;
    if keys == {key} {
      least := key;
    } else {
      var rest := keys - {key};
      assert rest != {} && keys == rest + {key};
      var other := LeastKeyExists(rest, before);
      least := if before(key, other) then key else other;
    }
  }

  datatype Listing = Listing(key: GapKey, candidate: Candidate)

  /** The candidates come in the order of their keys, each key once. */
  predicate InKeyOrder(list: seq<Listing>, before: Order) {
    forall i, j :: 0 <= i < j < |list| ==> before(list[i].key, list[j].key)
  }

  function AsMap(list: seq<Listing>): map<GapKey, Candidate> {
    if list == [] then map[] else AsMap(list[..|list| - 1])[list[|list| - 1].key := list[|list| - 1].candidate]
  }

  lemma {:induction false} KeyOfList(list: seq<Listing>, key: GapKey) returns (i: nat)
    requires key in AsMap(list)
    ensures i < |list| && list[i].key == key
  {
    if list[|list| - 1].key == key {
      i := |list| - 1;
    } else {
      i := KeyOfList(list[..|list| - 1], key);
    }
  }

  /** The order of the list leaves no choice: two lists of the same candidates are the same list. */
  lemma {:induction false} ListIsDetermined(a: seq<Listing>, b: seq<Listing>, before: Order)
    requires Strict(before) && InKeyOrder(a, before) && InKeyOrder(b, before) && AsMap(a) == AsMap(b)
    ensures a == b
    decreases |a|
  {
    if a != [] {
      var i := KeyOfList(b, a[|a| - 1].key);
      LastKeysAgree(a, b, before);
      LastDropped(a, before);
      LastDropped(b, before);
      ListIsDetermined(a[..|a| - 1], b[..|b| - 1], before);
      assert a == a[..|a| - 1] + [a[|a| - 1]] && b == b[..|b| - 1] + [b[|b| - 1]];
    } else if b != [] {
      var i := KeyOfList(a, b[|b| - 1].key);
    }
  }

  /** The last entry of a list in order has the greatest key. */
  lemma LastKeysAgree(a: seq<Listing>, b: seq<Listing>, before: Order)
    requires Strict(before) && InKeyOrder(a, before) && InKeyOrder(b, before)
    requires AsMap(a) == AsMap(b) && a != [] && b != []
    ensures a[|a| - 1] == b[|b| - 1]
  {
    var x, y := a[|a| - 1], b[|b| - 1];
    var i := KeyOfList(b, x.key);
    var j := KeyOfList(a, y.key);
    assert x.key == y.key || before(x.key, y.key);
    assert x.key == y.key || before(y.key, x.key);
  }

  lemma LastDropped(list: seq<Listing>, before: Order)
    requires Strict(before) && InKeyOrder(list, before) && list != []
    ensures AsMap(list[..|list| - 1]) == AsMap(list) - {list[|list| - 1].key}
  {
    var init, last := list[..|list| - 1], list[|list| - 1];
    if last.key in AsMap(init) {
      var i := KeyOfList(init, last.key);
    }
    assert last.key !in AsMap(init);
  }

  method TakeLeast(keys: set<GapKey>, before: Order) returns (key: GapKey)
    requires keys != {} && Strict(before)
    ensures IsLeast(key, keys, before)
  {
    ghost var least := LeastKeyExists(keys, before);
    key :| key in keys && IsLeast(key, keys, before);
  }

  /** The candidates of the gaps gone through. */
  function Found(active: map<GapKey, seq<Entry>>, minimumProjects: int, keys: set<GapKey>): map<GapKey, Candidate> {
    map key | key in keys && key in active && Relevant(active[key]) != [] :: CandidateOf(active[key], minimumProjects)
  }

  lemma FoundMore(active: map<GapKey, seq<Entry>>, minimumProjects: int, keys: set<GapKey>, key: GapKey)
    requires key in active && key !in keys
    ensures Found(active, minimumProjects, keys + {key}) ==
            if Relevant(active[key]) == [] then Found(active, minimumProjects, keys)
            else Found(active, minimumProjects, keys)[key := CandidateOf(active[key], minimumProjects)]
  {
  }

  lemma ListPush(list: seq<Listing>, x: Listing, before: Order)
    requires InKeyOrder(list, before) && forall i :: 0 <= i < |list| ==> before(list[i].key, x.key)
    ensures InKeyOrder(list + [x], before) && AsMap(list + [x]) == AsMap(list)[x.key := x.candidate]
  {
    assert (list + [x])[..|list|] == list;
  }

  /** The second loop, over the gaps in the order of their keys: a candidate for each that still has relevant observations. */
  method CandidatesOf(active: map<GapKey, seq<Entry>>, minimumProjects: int, before: Order) returns (list: seq<Listing>)
    requires Strict(before)
    ensures InKeyOrder(list, before)
    ensures AsMap(list) == Found(active, minimumProjects, active.Keys)
  {
    list := [];
    var keys := active.Keys;
    while keys != {}
      invariant keys <= active.Keys && InKeyOrder(list, before)
      invariant forall i, key :: 0 <= i < |list| && key in keys ==> before(list[i].key, key)
      invariant AsMap(list) == Found(active, minimumProjects, active.Keys - keys)
      decreases keys
    {
      var key := TakeLeast(keys, before);
      FoundMore(active, minimumProjects, active.Keys - keys, key);
      assert active.Keys - (keys - {key}) == active.Keys - keys + {key};
      keys := keys - {key};
      var relevant := Relevant(active[key]);
      if relevant == [] {
        continue;
      }
      var listing := Listing(key, CandidateOf(active[key], minimumProjects));
      ListPush(list, listing, before);
      list := list + [listing];
    }
    assert active.Keys - keys == active.Keys;
  }

  /** `aggregate_candidates`. */
  method AggregateCandidates(observations: seq<Observation>, minimumProjects: int) returns (result: Option<seq<Listing>>)
    ensures result.None? <==> minimumProjects < 2
    ensures result.Some? ==> InKeyOrder(result.value, KeyBefore)
    ensures result.Some? ==> Some(AsMap(result.value)) == Aggregated(observations, minimumProjects)
  {
    if minimumProjects < 2 {
      return None;
    }
    var active := GroupByGap(Ordered(observations));
    KeyBeforeIsStrict();
    var list := CandidatesOf(active, minimumProjects, KeyBefore);
    assert AsMap(list) == Aggregated(observations, minimumProjects).value;
    return Some(list);
  }
}
