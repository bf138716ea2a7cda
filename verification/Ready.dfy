/** The ready queue of internal/dispatch: valid entries of every repository, merged by priority
    and fairly within a priority. */
module Ready {
  import opened Text
  import opened Decimal
  import opened Sorting

  datatype Repo = Repo(root: string, name: string, prefix: string, branch: string) {
    predicate Valid() {
      root != "" && root[0] == '/' && root[|root| - 1] == '/' && name != "" && prefix != "" && branch != ""
    }
  }

  const NO_REPO := Repo("", "", "", "")

  const DEFAULT_PRIORITY := "2"

  datatype Entry = Entry(repo: Repo, task: string, priority: string)

  /** A repository's ready queue. */
  datatype Group = Group(repo: Repo, entries: seq<Entry>)

  /** The entry with its repository and a readable priority, if it belongs here at all. */
  function Normalize(repo: Repo, e: Entry): Option<Entry> {
    if !repo.Valid() || TrimSpace(e.task) == "" then None
    else if e.repo != NO_REPO && e.repo != repo then None
    else Some(Entry(repo, e.task, if Atoi(e.priority).None? then DEFAULT_PRIORITY else e.priority))
  }

  /** The repository is usable, the entry names a task, and it names this repository or none. */
  predicate Fits(repo: Repo, e: Entry) {
    repo.root != "" && repo.root[0] == '/' && repo.root[|repo.root| - 1] == '/'
    && repo.name != "" && repo.prefix != "" && repo.branch != ""
    && TrimSpace(e.task) != "" && (e.repo == Repo("", "", "", "") || e.repo == repo)
  }

  /** m is what becomes of e, listed for the repository: its task, that repository, and the priority it
      was given when that is a number, otherwise 2. */
  ghost predicate ReadyAs(repo: Repo, e: Entry, m: Entry) {
    Fits(repo, e) && m.repo == repo && m.task == e.task
    && if Atoi(e.priority).Some? then m.priority == e.priority else m.priority == "2"
  }

  lemma NormalizeExactly(repo: Repo, e: Entry)
    ensures Normalize(repo, e).Some? <==> Fits(repo, e)
    ensures Fits(repo, e) ==> ReadyAs(repo, e, Normalize(repo, e).value)
  {
  }

  function PriorityOf(e: Entry): int {
    match Atoi(e.priority) case Some(p) => p case None => 0
  }

  method NormalizeReady(repo: Repo, entry: Entry) returns (normalized: Entry, ok: bool)
    ensures ok == Normalize(repo, entry).Some? == Fits(repo, entry)
    ensures ok ==> normalized == Normalize(repo, entry).value && ReadyAs(repo, entry, normalized)
    ensures ok ==> Atoi(normalized.priority) == Some(PriorityOf(normalized))
  {
    normalized := entry;
    if !repo.Valid() || TrimSpace(entry.task) == "" { return entry, false; }
    if entry.repo != NO_REPO && entry.repo != repo { return entry, false; }
    if entry.priority == "" {
      normalized := normalized.(priority := DEFAULT_PRIORITY);
    } else if Atoi(entry.priority).None? {
      normalized := normalized.(priority := DEFAULT_PRIORITY);
    }
    DefaultIsReadable();
    return normalized.(repo := repo), true;
  }

  lemma DefaultIsReadable()
    ensures Atoi(DEFAULT_PRIORITY) == Some(2)
  {
    assert DEFAULT_PRIORITY == Itoa(2);
    AtoiItoa(2);
  }

  // ------------------------------------------------------------ queues

  /** The valid entries of a repository, normalized, in order. */
  function Accepted(repo: Repo, entries: seq<Entry>): seq<Entry> {
    if entries == [] then []
    else
      var n := |entries| - 1;
      Accepted(repo, entries[..n]) + match Normalize(repo, entries[n]) case Some(e) => [e] case None => []
  }

  /** What becomes of every entry of a repository. */
  function Normalized(repo: Repo, entries: seq<Entry>): seq<Option<Entry>> {
    seq(|entries|, i requires 0 <= i < |entries| => Normalize(repo, entries[i]))
  }

  /** The entries that are there, in order. */
  function Present(found: seq<Option<Entry>>): seq<Entry> {
    if found == [] then []
    else
      var n := |found| - 1;
      Present(found[..n]) + match found[n] case Some(e) => [e] case None => []
  }

  /** How many of the first n are there. */
  function Count(found: seq<Option<Entry>>, n: nat): nat
    requires n <= |found|
  {
    if n == 0 then 0 else Count(found, n - 1) + if found[n - 1].Some? then 1 else 0
  }

  lemma {:induction false} CountPrefix(found: seq<Option<Entry>>, n: nat, i: nat)
    requires i <= n <= |found|
    ensures Count(found[..n], i) == Count(found, i)
  {
    if i > 0 { CountPrefix(found, n, i - 1); }
  }

  lemma {:induction false} PresentLength(found: seq<Option<Entry>>)
    ensures |Present(found)| == Count(found, |found|)
  {
    if found != [] {
      PresentLength(found[..|found| - 1]);
      CountPrefix(found, |found| - 1, |found| - 1);
    }
  }

  lemma {:induction false} PresentInPlace(found: seq<Option<Entry>>, i: nat)
    requires i < |found| && found[i].Some?
    ensures Count(found, i) < |Present(found)| && Present(found)[Count(found, i)] == found[i].value
    decreases |found|
  {
    var n := |found| - 1;
    CountPrefix(found, n, i);
    if i < n { PresentInPlace(found[..n], i); } else { PresentLength(found[..n]); }
  }

  lemma {:induction false} AcceptedIsPresent(repo: Repo, entries: seq<Entry>)
    ensures Accepted(repo, entries) == Present(Normalized(repo, entries))
  {
    if entries != [] {
      var n := |entries| - 1;
      AcceptedIsPresent(repo, entries[..n]);
      assert Normalized(repo, entries)[..n] == Normalized(repo, entries[..n]);
    }
  }

  /** Every entry that fits is accepted, behind those before it that do, and nothing else is. */
  lemma AcceptedExactly(repo: Repo, entries: seq<Entry>, i: nat)
    requires i < |entries|
    ensures var found := Normalized(repo, entries);
            (found[i].Some? <==> Fits(repo, entries[i])) && |Accepted(repo, entries)| == Count(found, |entries|)
    ensures var k := Count(Normalized(repo, entries), i);
            Fits(repo, entries[i]) ==>
              k < |Accepted(repo, entries)| && ReadyAs(repo, entries[i], Accepted(repo, entries)[k])
  {
    var found := Normalized(repo, entries);
    AcceptedIsPresent(repo, entries);
    PresentLength(found);
    NormalizeExactly(repo, entries[i]);
    if found[i].Some? { PresentInPlace(found, i); }
  }

  lemma {:induction false} AcceptedFrom(repo: Repo, entries: seq<Entry>, m: Entry) returns (i: nat)
    requires m in Accepted(repo, entries)
    ensures i < |entries| && ReadyAs(repo, entries[i], m)
  {
    var n := |entries| - 1;
    NormalizeExactly(repo, entries[n]);
    i := n;
    if m in Accepted(repo, entries[..n]) { i := AcceptedFrom(repo, entries[..n], m); }
  }

  function OfPriority(entries: seq<Entry>, p: int): seq<Entry> {
    if entries == [] then []
    else
      var n := |entries| - 1;
      OfPriority(entries[..n], p) + if PriorityOf(entries[n]) == p then [entries[n]] else []
  }

  /** What group g contributes at priority p. */
  function Queue(groups: seq<Group>, g: nat, p: int): seq<Entry>
    requires g < |groups|
  {
    OfPriority(Accepted(groups[g].repo, groups[g].entries), p)
  }

  // ------------------------------------------------------------ tagged merges

  /** An entry of the merged queue with the group it came from. */
  datatype Tagged = Tagged(group: nat, entry: Entry)

  function Entries(merged: seq<Tagged>): seq<Entry> {
    seq(|merged|, i requires 0 <= i < |merged| => merged[i].entry)
  }

  /** The part of a merge that came from group g with priority p. */
  function Part(merged: seq<Tagged>, g: nat, p: int): seq<Entry> {
    if merged == [] then []
    else
      var n := |merged| - 1;
      Part(merged[..n], g, p)
      + if merged[n].group == g && PriorityOf(merged[n].entry) == p then [merged[n].entry] else []
  }

  lemma PartSnoc(merged: seq<Tagged>, t: Tagged, g: nat, p: int)
    ensures Part(merged + [t], g, p)
            == Part(merged, g, p) + if t.group == g && PriorityOf(t.entry) == p then [t.entry] else []
  {
    assert (merged + [t])[..|merged|] == merged;
  }

  lemma {:induction false} PartConcat(a: seq<Tagged>, b: seq<Tagged>, g: nat, p: int)
    ensures Part(a + b, g, p) == Part(a, g, p) + Part(b, g, p)
  {
    if b == [] {
      assert a + b == a;
    } else {
      var n := |b| - 1;
      assert (a + b)[..|a + b| - 1] == a + b[..n];
      PartConcat(a, b[..n], g, p);
    }
  }

  /** Of two groups with entries at one priority neither is more than one entry ahead, unless the
      other is used up. */
  ghost predicate FairAt(merged: seq<Tagged>, g: nat, other: nat, p: int, size: nat) {
    |Part(merged, g, p)| <= |Part(merged, other, p)| + 1 || |Part(merged, other, p)| == size
  }

  ghost predicate Fair(groups: seq<Group>, merged: seq<Tagged>) {
    forall k | 0 <= k <= |merged| :: FairNow(groups, merged[..k])
  }

  ghost predicate FairNow(groups: seq<Group>, before: seq<Tagged>) {
    forall g, other, p | 0 <= g < |groups| && 0 <= other < |groups| ::
      FairAt(before, g, other, p, |Queue(groups, other, p)|)
  }

  function Least(a: nat, b: nat): nat {
    if a < b then a else b
  }

  /** Group g is next at priority p: the groups before it have had one turn more, those after it as
      many, as far as their entries go. */
  ghost predicate TurnAt(before: seq<Tagged>, g: nat, other: nat, p: int, size: nat) {
    var c := |Part(before, g, p)|;
    |Part(before, other, p)| == Least(if other < g then c + 1 else c, size)
  }

  ghost predicate InTurn(groups: seq<Group>, merged: seq<Tagged>) {
    forall k, other | 0 <= k < |merged| && 0 <= other < |groups| ::
      TurnAt(merged[..k], merged[k].group, other, PriorityOf(merged[k].entry),
             |Queue(groups, other, PriorityOf(merged[k].entry))|)
  }

  ghost predicate Ascending(merged: seq<Tagged>) {
    forall i, j | 0 <= i < j < |merged| :: PriorityOf(merged[i].entry) <= PriorityOf(merged[j].entry)
  }

  /** A correct merge: every group's entries of a priority in their order and nothing else,
      priorities ascending, groups taking turns in their order, fair in every prefix. */
  ghost predicate Merge(groups: seq<Group>, merged: seq<Tagged>) {
    (forall i | 0 <= i < |merged| :: merged[i].group < |groups|)
    && (forall g, p | 0 <= g < |groups| :: Part(merged, g, p) == Queue(groups, g, p))
    && Ascending(merged) && InTurn(groups, merged) && Fair(groups, merged)
  }

  // ------------------------------------------------------------ conservation

  /** Every accepted entry of every group. */
  function All(groups: seq<Group>): seq<Entry> {
    if groups == [] then []
    else
      var n := |groups| - 1;
      All(groups[..n]) + Accepted(groups[n].repo, groups[n].entries)
  }

  /** How often e occurs. */
  function Occurs(entries: seq<Entry>, e: Entry): nat {
    if entries == [] then 0
    else Occurs(entries[..|entries| - 1], e) + if entries[|entries| - 1] == e then 1 else 0
  }

  lemma {:induction false} OccursIsMultiplicity(entries: seq<Entry>, e: Entry)
    ensures Occurs(entries, e) == multiset(entries)[e]
  {
    if entries != [] {
      var init, last := entries[..|entries| - 1], entries[|entries| - 1];
      OccursIsMultiplicity(init, e);
      assert entries == init + [last];
    }
  }

  lemma OccursSnoc(entries: seq<Entry>, last: Entry, e: Entry)
    ensures Occurs(entries + [last], e) == Occurs(entries, e) + if last == e then 1 else 0
  {
    assert (entries + [last])[..|entries|] == entries;
  }

  lemma {:induction false} OccursConcat(a: seq<Entry>, b: seq<Entry>, e: Entry)
    ensures Occurs(a + b, e) == Occurs(a, e) + Occurs(b, e)
  {
    if b == [] {
      assert a + b == a;
    } else {
      var n := |b| - 1;
      OccursConcat(a, b[..n], e);
      assert (a + b)[..|a + b| - 1] == a + b[..n];
    }
  }

  ghost function PartsCount(merged: seq<Tagged>, n: nat, e: Entry): nat {
    if n == 0 then 0 else PartsCount(merged, n - 1, e) + Occurs(Part(merged, n - 1, PriorityOf(e)), e)
  }

  lemma {:induction false} PartsCountSnoc(merged: seq<Tagged>, t: Tagged, n: nat, e: Entry)
    ensures PartsCount(merged + [t], n, e) == PartsCount(merged, n, e) + if t.group < n && t.entry == e then 1 else 0
  {
    if n > 0 {
      PartsCountSnoc(merged, t, n - 1, e);
      PartCountSnoc(merged, t, n - 1, e);
    }
  }

  lemma PartCountSnoc(merged: seq<Tagged>, t: Tagged, g: nat, e: Entry)
    ensures Occurs(Part(merged + [t], g, PriorityOf(e)), e)
            == Occurs(Part(merged, g, PriorityOf(e)), e) + if t.group == g && t.entry == e then 1 else 0
  {
    var part := Part(merged, g, PriorityOf(e));
    PartSnoc(merged, t, g, PriorityOf(e));
    OccursSnoc(part, t.entry, e);
    assert part + [] == part;
  }

  lemma {:induction false} MergedCount(merged: seq<Tagged>, n: nat, e: Entry)
    requires forall i | 0 <= i < |merged| :: merged[i].group < n
    ensures Occurs(Entries(merged), e) == PartsCount(merged, n, e)
  {
    if merged == [] {
      NothingCounted(n, e);
    } else {
      var init, t := merged[..|merged| - 1], merged[|merged| - 1];
      assert merged == init + [t] && t.group < n;
      MergedCount(init, n, e);
      PartsCountSnoc(init, t, n, e);
      EntriesSnoc(init, t);
      OccursSnoc(Entries(init), t.entry, e);
    }
  }

  lemma EntriesSnoc(merged: seq<Tagged>, t: Tagged)
    ensures Entries(merged + [t]) == Entries(merged) + [t.entry]
  {
  }

  lemma {:induction false} NothingCounted(n: nat, e: Entry)
    ensures PartsCount([], n, e) == 0
  {
    if n > 0 { NothingCounted(n - 1, e); }
  }

  lemma {:induction false} OwnPriorityCount(entries: seq<Entry>, e: Entry)
    ensures Occurs(OfPriority(entries, PriorityOf(e)), e) == Occurs(entries, e)
  {
    if entries != [] {
      var init, last := entries[..|entries| - 1], entries[|entries| - 1];
      OwnPriorityCount(init, e);
      if PriorityOf(last) == PriorityOf(e) { OccursSnoc(OfPriority(init, PriorityOf(e)), last, e); }
      assert OfPriority(init, PriorityOf(e)) + [] == OfPriority(init, PriorityOf(e));
    }
  }

  lemma {:induction false} AllCount(groups: seq<Group>, merged: seq<Tagged>, n: nat, e: Entry)
    requires n <= |groups| && forall g, p | 0 <= g < |groups| :: Part(merged, g, p) == Queue(groups, g, p)
    ensures Occurs(All(groups[..n]), e) == PartsCount(merged, n, e)
  {
    if n > 0 {
      AllCount(groups, merged, n - 1, e);
      OwnPriorityCount(Accepted(groups[n - 1].repo, groups[n - 1].entries), e);
      AllSnoc(groups, n - 1, e);
      assert Part(merged, n - 1, PriorityOf(e)) == Queue(groups, n - 1, PriorityOf(e));
    }
  }

  lemma AllSnoc(groups: seq<Group>, n: nat, e: Entry)
    requires n < |groups|
    ensures Occurs(All(groups[..n + 1]), e)
            == Occurs(All(groups[..n]), e) + Occurs(Accepted(groups[n].repo, groups[n].entries), e)
  {
    assert groups[..n + 1][..n] == groups[..n];
    OccursConcat(All(groups[..n]), Accepted(groups[n].repo, groups[n].entries), e);
  }

  /** A merge holds exactly the valid entries of all groups, each as often as it occurs. */
  lemma MergeConserves(groups: seq<Group>, merged: seq<Tagged>)
    requires Merge(groups, merged)
    ensures multiset(Entries(merged)) == multiset(All(groups))
  {
    forall e: Entry
      ensures multiset(Entries(merged))[e] == multiset(All(groups))[e]
    {
      MergedCount(merged, |groups|, e);
      AllCount(groups, merged, |groups|, e);
      assert groups[..|groups|] == groups;
      OccursIsMultiplicity(Entries(merged), e);
      OccursIsMultiplicity(All(groups), e);
    }
  }

  // ------------------------------------------------------------ one priority

  ghost predicate AllOf(entries: seq<Entry>, p: int) {
    forall i | 0 <= i < |entries| :: PriorityOf(entries[i]) == p
  }

  /** band holds the first position[g] entries of every queue g. */
  ghost predicate Progress(queues: seq<seq<Entry>>, band: seq<Tagged>, p: int, positions: seq<nat>) {
    |positions| == |queues|
    && (forall g | 0 <= g < |queues| :: positions[g] <= |queues[g]| && Part(band, g, p) == queues[g][..positions[g]])
    && forall i | 0 <= i < |band| :: band[i].group < |queues| && PriorityOf(band[i].entry) == p
  }

  /** The first i queues are one round ahead of the others, as far as they go. */
  ghost predicate Level(queues: seq<seq<Entry>>, positions: seq<nat>, round: nat, i: nat) {
    |positions| == |queues|
    && forall g | 0 <= g < |queues| :: positions[g] == Least(if g < i then round + 1 else round, |queues[g]|)
  }

  ghost predicate BandFair(queues: seq<seq<Entry>>, band: seq<Tagged>, p: int) {
    forall k | 0 <= k <= |band| :: BandFairNow(queues, band[..k], p)
  }

  ghost predicate BandFairNow(queues: seq<seq<Entry>>, before: seq<Tagged>, p: int) {
    forall g, other | 0 <= g < |queues| && 0 <= other < |queues| :: FairAt(before, g, other, p, |queues[other]|)
  }

  ghost predicate BandTurns(queues: seq<seq<Entry>>, band: seq<Tagged>, p: int) {
    forall k, other | 0 <= k < |band| && 0 <= other < |queues| ::
      TurnAt(band[..k], band[k].group, other, p, |queues[other]|)
  }

  lemma TurnsStep(queues: seq<seq<Entry>>, band: seq<Tagged>, t: Tagged, p: int, positions: seq<nat>, round: nat,
                  i: nat)
    requires BandTurns(queues, band, p) && t.group == i < |queues|
    requires Progress(queues, band, p, positions) && Level(queues, positions, round, i) && positions[i] < |queues[i]|
    ensures BandTurns(queues, band + [t], p)
  {
    var next := band + [t];
    forall k, other | 0 <= k < |next| && 0 <= other < |queues|
      ensures TurnAt(next[..k], next[k].group, other, p, |queues[other]|)
    {
      assert next[..k] == band[..k];
      if k == |band| { assert band[..k] == band; }
    }
  }

  lemma LevelIsFair(queues: seq<seq<Entry>>, band: seq<Tagged>, p: int, positions: seq<nat>, round: nat, i: nat)
    requires Progress(queues, band, p, positions) && Level(queues, positions, round, i)
    ensures BandFairNow(queues, band, p)
  {
  }

  lemma TakeOne(queues: seq<seq<Entry>>, band: seq<Tagged>, p: int, positions: seq<nat>, round: nat, i: nat)
    requires Progress(queues, band, p, positions) && Level(queues, positions, round, i)
    requires BandFair(queues, band, p) && BandTurns(queues, band, p)
    requires i < |queues| && positions[i] < |queues[i]| && AllOf(queues[i], p)
    ensures var next, after := band + [Tagged(i, queues[i][positions[i]])], positions[i := positions[i] + 1];
            Progress(queues, next, p, after) && Level(queues, after, round, i + 1)
            && BandFair(queues, next, p) && BandTurns(queues, next, p)
  {
    var t := Tagged(i, queues[i][positions[i]]);
    var next, after := band + [t], positions[i := positions[i] + 1];
    ProgressStep(queues, band, p, positions, i);
    FairStep(queues, band, t, p, after, round, i + 1);
    TurnsStep(queues, band, t, p, positions, round, i);
  }

  lemma ProgressStep(queues: seq<seq<Entry>>, band: seq<Tagged>, p: int, positions: seq<nat>, i: nat)
    requires Progress(queues, band, p, positions) && i < |queues| && positions[i] < |queues[i]| && AllOf(queues[i], p)
    ensures Progress(queues, band + [Tagged(i, queues[i][positions[i]])], p, positions[i := positions[i] + 1])
  {
    var t := Tagged(i, queues[i][positions[i]]);
    forall g | 0 <= g < |queues|
      ensures Part(band + [t], g, p) == queues[g][..positions[i := positions[i] + 1][g]]
    {
      PartSnoc(band, t, g, p);
    }
  }

  lemma FairStep(queues: seq<seq<Entry>>, band: seq<Tagged>, t: Tagged, p: int, positions: seq<nat>, round: nat, i: nat)
    requires BandFair(queues, band, p)
    requires Progress(queues, band + [t], p, positions) && Level(queues, positions, round, i)
    ensures BandFair(queues, band + [t], p)
  {
    var next := band + [t];
    LevelIsFair(queues, next, p, positions, round, i);
    forall k | 0 <= k <= |next|
      ensures BandFairNow(queues, next[..k], p)
    {
      assert next[..k] == if k <= |band| then band[..k] else next;
    }
  }

  function Longest(queues: seq<seq<Entry>>): nat {
    if queues == [] then 0
    else
      var n := |queues| - 1;
      if |queues[n]| > Longest(queues[..n]) then |queues[n]| else Longest(queues[..n])
  }

  lemma {:induction false} LongestBounds(queues: seq<seq<Entry>>, g: nat)
    requires g < |queues|
    ensures |queues[g]| <= Longest(queues)
  {
    if g < |queues| - 1 { LongestBounds(queues[..|queues| - 1], g); }
  }

  /** One round: the next entry of every queue that has one, in group order. */
  method Round(p: int, queues: seq<seq<Entry>>, positions: array<nat>, merged: seq<Entry>,
               ghost band: seq<Tagged>, ghost round: nat)
    returns (longer: seq<Entry>, drained: bool, ghost next: seq<Tagged>)
    requires positions.Length == |queues| && merged == Entries(band)
    requires Progress(queues, band, p, positions[..]) && Level(queues, positions[..], round, 0)
    requires BandFair(queues, band, p) && BandTurns(queues, band, p)
    requires forall g | 0 <= g < |queues| :: AllOf(queues[g], p)
    modifies positions
    ensures longer == Entries(next)
    ensures Progress(queues, next, p, positions[..]) && Level(queues, positions[..], round + 1, 0)
    ensures BandFair(queues, next, p) && BandTurns(queues, next, p)
    ensures drained ==> forall g | 0 <= g < |queues| :: |queues[g]| <= round
    ensures !drained ==> round < Longest(queues)
  {
    longer, drained, next := merged, true, band;
    for i := 0 to |queues|
      invariant longer == Entries(next)
      invariant Progress(queues, next, p, positions[..]) && Level(queues, positions[..], round, i)
      invariant BandFair(queues, next, p) && BandTurns(queues, next, p)
      invariant drained ==> forall g | 0 <= g < i :: |queues[g]| <= round
      invariant !drained ==> round < Longest(queues)
    {
      if positions[i] == |queues[i]| { continue; }
      drained := false;
      LongestBounds(queues, i);
      ghost var at := positions[..];
      TakeOne(queues, next, p, at, round, i);
      EntriesSnoc(next, Tagged(i, queues[i][positions[i]]));
      next := next + [Tagged(i, queues[i][positions[i]])];
      longer := longer + [queues[i][positions[i]]];
      positions[i] := positions[i] + 1;
      assert positions[..] == at[i := at[i] + 1];
    }
  }

  /** Round-robin over the queues of one priority until all are used up. */
  method RoundRobin(p: int, queues: seq<seq<Entry>>) returns (merged: seq<Entry>, ghost band: seq<Tagged>)
    requires forall g | 0 <= g < |queues| :: AllOf(queues[g], p)
    ensures merged == Entries(band) && BandFair(queues, band, p) && BandTurns(queues, band, p)
    ensures forall g | 0 <= g < |queues| :: Part(band, g, p) == queues[g]
    ensures forall i | 0 <= i < |band| :: band[i].group < |queues| && PriorityOf(band[i].entry) == p
  {
    var positions := new nat[|queues|](_ => 0);
    merged, band := [], [];
    ghost var round := 0;
    var drained := false;
    while !drained
      invariant merged == Entries(band)
      invariant Progress(queues, band, p, positions[..]) && Level(queues, positions[..], round, 0)
      invariant BandFair(queues, band, p) && BandTurns(queues, band, p)
      invariant drained ==> forall g | 0 <= g < |queues| :: |queues[g]| < round
      invariant drained || round <= Longest(queues)
      decreases !drained, Longest(queues) - round
    {
      merged, drained, band := Round(p, queues, positions, merged, band, round);
      round := round + 1;
    }
  }

  // ------------------------------------------------------------ the queues of all groups

  type Queues = map<int, seq<seq<Entry>>>

  /** queues sorts the entries of done, one list per group, by priority. */
  ghost predicate Built(queues: Queues, done: seq<seq<Entry>>) {
    (forall p | p in queues :: |queues[p]| == |done|)
    && (forall p, g | p in queues && 0 <= g < |done| :: queues[p][g] == OfPriority(done[g], p))
    && forall p, g | p !in queues && 0 <= g < |done| :: OfPriority(done[g], p) == []
  }

  function Put(queues: Queues, g: nat, n: nat, e: Entry): Queues
    requires g < n && forall p | p in queues :: |queues[p]| == n
  {
    var p := PriorityOf(e);
    var lists := if p in queues then queues[p] else seq(n, _ => []);
    queues[p := lists[g := lists[g] + [e]]]
  }

  lemma OfPrioritySnoc(entries: seq<Entry>, e: Entry, p: int)
    ensures OfPriority(entries + [e], p) == OfPriority(entries, p) + if PriorityOf(e) == p then [e] else []
  {
    assert (entries + [e])[..|entries|] == entries;
  }

  lemma PutAt(queues: Queues, done: seq<seq<Entry>>, g: nat, e: Entry, p: int, h: nat)
    requires Built(queues, done) && g < |done| && h < |done|
    ensures var next, after := Put(queues, g, |done|, e), done[g := done[g] + [e]];
            if p in next then |next[p]| == |done| && next[p][h] == OfPriority(after[h], p)
            else OfPriority(after[h], p) == []
  {
    OfPrioritySnoc(done[g], e, p);
    if p == PriorityOf(e) {
      assert p !in queues ==> OfPriority(done[h], p) == [];
    } else {
      assert OfPriority(done[g], p) + [] == OfPriority(done[g], p);
    }
  }

  lemma PutBuilt(queues: Queues, done: seq<seq<Entry>>, g: nat, e: Entry)
    requires Built(queues, done) && g < |done|
    ensures Built(Put(queues, g, |done|, e), done[g := done[g] + [e]])
  {
    var next, after := Put(queues, g, |done|, e), done[g := done[g] + [e]];
    forall p, h | 0 <= h < |done|
      ensures if p in next then |next[p]| == |done| && next[p][h] == OfPriority(after[h], p)
              else OfPriority(after[h], p) == []
    {
      PutAt(queues, done, g, e, p, h);
    }
  }

  /** The accepted entries when the first gi groups and the first ei entries of the next are read. */
  function Accumulated(groups: seq<Group>, gi: nat, ei: nat): seq<seq<Entry>>
    requires gi <= |groups| && (gi < |groups| ==> ei <= |groups[gi].entries|)
  {
    seq(|groups|, g requires 0 <= g < |groups| =>
      if g < gi then Accepted(groups[g].repo, groups[g].entries)
      else if g == gi then Accepted(groups[g].repo, groups[g].entries[..ei])
      else [])
  }

  method Collect(groups: seq<Group>) returns (queues: Queues)
    ensures Built(queues, Accumulated(groups, |groups|, 0))
  {
    queues := map[];
    for gi := 0 to |groups|
      invariant Built(queues, Accumulated(groups, gi, 0))
    {
      queues := CollectGroup(groups, gi, queues);
      assert groups[gi].entries[..|groups[gi].entries|] == groups[gi].entries;
      assert Accumulated(groups, gi, |groups[gi].entries|) == Accumulated(groups, gi + 1, 0);
    }
  }

  method CollectGroup(groups: seq<Group>, gi: nat, before: Queues) returns (queues: Queues)
    requires gi < |groups| && Built(before, Accumulated(groups, gi, 0))
    ensures Built(queues, Accumulated(groups, gi, |groups[gi].entries|))
  {
    queues := before;
    var group := groups[gi];
    for ei := 0 to |group.entries|
      invariant Built(queues, Accumulated(groups, gi, ei))
    {
      var normalized, ok := NormalizeReady(group.repo, group.entries[ei]);
      AccumulatedStep(groups, gi, ei);
      if !ok { continue; }
      PutBuilt(queues, Accumulated(groups, gi, ei), gi, normalized);
      queues := Enqueue(queues, gi, |groups|, normalized);
    }
  }

  /** Adds an entry to its group's list under its priority, which may be new. */
  method Enqueue(before: Queues, g: nat, n: nat, e: Entry) returns (queues: Queues)
    requires g < n && forall p | p in before :: |before[p]| == n
    ensures queues == Put(before, g, n, e)
  {
    queues := before;
    var priority := PriorityOf(e);
    if priority !in queues { queues := queues[priority := seq(n, _ => [])]; }
    var lists := queues[priority];
    queues := queues[priority := lists[g := lists[g] + [e]]];
  }

  lemma AccumulatedStep(groups: seq<Group>, gi: nat, ei: nat)
    requires gi < |groups| && ei < |groups[gi].entries|
    ensures var done, e := Accumulated(groups, gi, ei), Normalize(groups[gi].repo, groups[gi].entries[ei]);
            Accumulated(groups, gi, ei + 1) == if e.Some? then done[gi := done[gi] + [e.value]] else done
  {
    var entries := groups[gi].entries;
    assert entries[..ei + 1][..ei] == entries[..ei];
    var done := Accumulated(groups, gi, ei);
    assert done[gi] + [] == done[gi];
  }

  // ------------------------------------------------------------ the whole merge

  lemma {:induction false} OfPriorityAll(entries: seq<Entry>, p: int)
    ensures AllOf(OfPriority(entries, p), p)
  {
    if entries != [] { OfPriorityAll(entries[..|entries| - 1], p); }
  }

  lemma {:induction false} PartOther(band: seq<Tagged>, g: nat, p: int, q: int)
    requires q != p && forall i | 0 <= i < |band| :: PriorityOf(band[i].entry) == p
    ensures Part(band, g, q) == []
  {
    if band != [] { PartOther(band[..|band| - 1], g, p, q); }
  }

  /** The merge so far holds the complete queues of the priorities in seen and nothing else. */
  ghost predicate Partial(groups: seq<Group>, merged: seq<Tagged>, seen: set<int>) {
    (forall i | 0 <= i < |merged| :: merged[i].group < |groups| && PriorityOf(merged[i].entry) in seen)
    && (forall g, p | 0 <= g < |groups| :: Part(merged, g, p) == if p in seen then Queue(groups, g, p) else [])
    && Ascending(merged) && InTurn(groups, merged) && Fair(groups, merged)
  }

  ghost predicate BandOf(groups: seq<Group>, band: seq<Tagged>, p: int) {
    (forall i | 0 <= i < |band| :: band[i].group < |groups| && PriorityOf(band[i].entry) == p)
    && (forall g | 0 <= g < |groups| :: Part(band, g, p) == Queue(groups, g, p))
    && (forall k, other | 0 <= k < |band| && 0 <= other < |groups| ::
          TurnAt(band[..k], band[k].group, other, p, |Queue(groups, other, p)|))
    && forall k | 0 <= k <= |band| :: GroupsFair(groups, band[..k], p)
  }

  ghost predicate GroupsFair(groups: seq<Group>, before: seq<Tagged>, p: int) {
    forall g, other | 0 <= g < |groups| && 0 <= other < |groups| ::
      FairAt(before, g, other, p, |Queue(groups, other, p)|)
  }

  lemma FairWithBand(groups: seq<Group>, merged: seq<Tagged>, start: seq<Tagged>, seen: set<int>, p: int)
    requires Partial(groups, merged, seen) && p !in seen && GroupsFair(groups, start, p)
    requires forall i | 0 <= i < |start| :: PriorityOf(start[i].entry) == p
    ensures FairNow(groups, merged + start)
  {
    forall g, other, q | 0 <= g < |groups| && 0 <= other < |groups|
      ensures FairAt(merged + start, g, other, q, |Queue(groups, other, q)|)
    {
      PartConcat(merged, start, g, q);
      PartConcat(merged, start, other, q);
      if q == p {
        assert FairAt(start, g, other, p, |Queue(groups, other, p)|);
      } else {
        PartOther(start, g, p, q);
        PartOther(start, other, p, q);
      }
    }
  }

  lemma {:induction false} PartAdded(groups: seq<Group>, merged: seq<Tagged>, band: seq<Tagged>, seen: set<int>,
                                     p: int, g: nat, q: int)
    requires g < |groups| && p !in seen
    requires Part(merged, g, q) == if q in seen then Queue(groups, g, q) else []
    requires Part(band, g, p) == Queue(groups, g, p) && forall i | 0 <= i < |band| :: PriorityOf(band[i].entry) == p
    ensures Part(merged + band, g, q) == if q in seen + {p} then Queue(groups, g, q) else []
  {
    var before := Part(merged, g, q);
    PartConcat(merged, band, g, q);
    if q != p { PartOther(band, g, p, q); }
    assert before + [] == before && [] + Part(band, g, q) == Part(band, g, q);
  }

  lemma AddBand(groups: seq<Group>, merged: seq<Tagged>, band: seq<Tagged>, seen: set<int>, p: int)
    requires Partial(groups, merged, seen) && (forall q | q in seen :: q < p) && BandOf(groups, band, p)
    ensures Partial(groups, merged + band, seen + {p})
  {
    forall g, q | 0 <= g < |groups|
      ensures Part(merged + band, g, q) == if q in seen + {p} then Queue(groups, g, q) else []
    {
      PartAdded(groups, merged, band, seen, p, g, q);
    }
    StaysFair(groups, merged, band, seen, p);
    StaysInTurn(groups, merged, band, seen, p);
  }

  lemma StaysInTurn(groups: seq<Group>, merged: seq<Tagged>, band: seq<Tagged>, seen: set<int>, p: int)
    requires Partial(groups, merged, seen) && p !in seen && BandOf(groups, band, p)
    ensures InTurn(groups, merged + band)
  {
    var next := merged + band;
    forall k, other | 0 <= k < |next| && 0 <= other < |groups|
      ensures TurnAt(next[..k], next[k].group, other, PriorityOf(next[k].entry),
                     |Queue(groups, other, PriorityOf(next[k].entry))|)
    {
      if k < |merged| {
        assert next[..k] == merged[..k] && next[k] == merged[k];
      } else {
        var j := k - |merged|;
        assert next[..k] == merged + band[..j] && next[k] == band[j];
        PartConcat(merged, band[..j], band[j].group, p);
        PartConcat(merged, band[..j], other, p);
        assert TurnAt(band[..j], band[j].group, other, p, |Queue(groups, other, p)|);
      }
    }
  }

  lemma StaysFair(groups: seq<Group>, merged: seq<Tagged>, band: seq<Tagged>, seen: set<int>, p: int)
    requires Partial(groups, merged, seen) && p !in seen && BandOf(groups, band, p)
    ensures Fair(groups, merged + band)
  {
    var next := merged + band;
    forall k | 0 <= k <= |next|
      ensures FairNow(groups, next[..k])
    {
      if k <= |merged| {
        assert next[..k] == merged[..k];
      } else {
        var start := band[..k - |merged|];
        assert next[..k] == merged + start;
        FairWithBand(groups, merged, start, seen, p);
      }
    }
  }

  lemma NonEmpty(s: set<int>)
    requires s != {}
    ensures exists x :: x in s
  {
    if forall x :: x !in s { assert false; }
  }

  /** The elements of a set, in some order. */
  method Listed(s: set<int>) returns (l: seq<int>)
    ensures (forall x :: x in l <==> x in s) && Distinct(l)
  {
    l := [];
    var rest := s;
    while rest != {}
      invariant rest <= s && (forall x :: x in l <==> x in s && x !in rest)
      invariant Distinct(l)
      decreases |rest|
    {
      NonEmpty(rest);
      var x: int :| x in rest;
      l := l + [x];
      rest := rest - {x};
    }
  }

  method SortedPriorities(s: set<int>) returns (l: seq<int>)
    ensures (forall x :: x in l <==> x in s) && forall i, j | 0 <= i < j < |l| :: l[i] < l[j]
  {
    var listed := Listed(s);
    IntOrder();
    SortIsSorted(listed, IntLeq);
    SortMembers(listed, IntLeq);
    l := Sort(listed, IntLeq);
    DistinctSorted(listed, l);
  }

  lemma DistinctSorted(listed: seq<int>, l: seq<int>)
    requires multiset(l) == multiset(listed) && SortedBy(l, IntLeq) && Distinct(listed)
    ensures forall i, j | 0 <= i < j < |l| :: l[i] < l[j]
  {
    DistinctPermutation(listed, l);
    assert forall i, j | 0 <= i < j < |l| :: IntLeq(l[i], l[j]);
  }

  ghost predicate IsMerge(groups: seq<Group>, merged: seq<Entry>) {
    exists tagged :: Merge(groups, tagged) && Entries(tagged) == merged
  }

  /** The entry is one that some group lists, ready. */
  ghost predicate Given(groups: seq<Group>, m: Entry) {
    exists g, i :: 0 <= g < |groups| && 0 <= i < |groups[g].entries| && ReadyAs(groups[g].repo, groups[g].entries[i], m)
  }

  lemma {:induction false} AllGiven(groups: seq<Group>, m: Entry)
    requires m in All(groups)
    ensures Given(groups, m)
  {
    var n := |groups| - 1;
    if m in Accepted(groups[n].repo, groups[n].entries) {
      var i := AcceptedFrom(groups[n].repo, groups[n].entries, m);
    } else {
      AllGiven(groups[..n], m);
      var g, i :| 0 <= g < n && 0 <= i < |groups[..n][g].entries|
                  && ReadyAs(groups[..n][g].repo, groups[..n][g].entries[i], m);
      assert groups[g] == groups[..n][g];
    }
  }

  /** The numbers the entries were given, or 2, ascend. */
  ghost predicate NumbersAscend(merged: seq<Entry>) {
    (forall k | 0 <= k < |merged| :: Atoi(merged[k].priority).Some?)
    && forall j, k | 0 <= j < k < |merged| :: Atoi(merged[j].priority).value <= Atoi(merged[k].priority).value
  }

  /** Merges the ready queues: priorities ascend, equal priorities take turns in group order. */
  method MergeReady(groups: seq<Group>) returns (merged: seq<Entry>)
    ensures IsMerge(groups, merged) && multiset(merged) == multiset(All(groups))
    ensures (forall m | m in merged :: Given(groups, m)) && NumbersAscend(merged)
  {
    ghost var tagged;
    merged, tagged := MergeTagged(groups);
    MergeConserves(groups, tagged);
    MergedGiven(groups, tagged);
  }

  lemma MergedGiven(groups: seq<Group>, tagged: seq<Tagged>)
    requires Merge(groups, tagged) && multiset(Entries(tagged)) == multiset(All(groups))
    ensures (forall m | m in Entries(tagged) :: Given(groups, m)) && NumbersAscend(Entries(tagged))
  {
    var merged := Entries(tagged);
    forall m | m in merged
      ensures Given(groups, m) && Atoi(m.priority).Some?
    {
      assert m in multiset(merged);
      AllGiven(groups, m);
      DefaultIsReadable();
    }
    MergedAscends(tagged);
  }

  lemma MergedAscends(tagged: seq<Tagged>)
    requires Ascending(tagged) && forall m | m in Entries(tagged) :: Atoi(m.priority).Some?
    ensures NumbersAscend(Entries(tagged))
  {
    var merged := Entries(tagged);
    forall k | 0 <= k < |merged|
      ensures Atoi(merged[k].priority) == Some(PriorityOf(tagged[k].entry))
    {
      assert merged[k] in merged && merged[k] == tagged[k].entry;
    }
  }

  method MergeTagged(groups: seq<Group>) returns (merged: seq<Entry>, ghost tagged: seq<Tagged>)
    ensures merged == Entries(tagged) && Merge(groups, tagged)
  {
    var queues := Collect(groups);
    var ordered := SortedPriorities(queues.Keys);
    merged, tagged := [], [];
    ghost var seen: set<int> := {};
    for n := 0 to |ordered|
      invariant merged == Entries(tagged) && Partial(groups, tagged, seen)
      invariant forall p :: p in seen <==> p in ordered[..n]
    {
      var p := ordered[n];
      assert p in queues;
      QueuesAt(groups, queues, p);
      var band, tags := MergeBand(groups, p, queues[p]);
      AddBand(groups, tagged, tags, seen, p);
      EntriesConcat(tagged, tags);
      merged, tagged, seen := merged + band, tagged + tags, seen + {p};
      assert ordered[..n + 1] == ordered[..n] + [p];
    }
    assert ordered[..|ordered|] == ordered;
    Exhausted(groups, queues, tagged, seen);
  }

  lemma EntriesConcat(a: seq<Tagged>, b: seq<Tagged>)
    ensures Entries(a + b) == Entries(a) + Entries(b)
  {
  }

  /** A merge of every priority that has a queue is complete. */
  lemma Exhausted(groups: seq<Group>, queues: Queues, tagged: seq<Tagged>, seen: set<int>)
    requires Built(queues, Accumulated(groups, |groups|, 0)) && Partial(groups, tagged, seen)
    requires forall p | p in queues :: p in seen
    ensures Merge(groups, tagged)
  {
    forall p | p !in seen
      ensures forall g | 0 <= g < |groups| :: Queue(groups, g, p) == []
    {
      QueuesAt(groups, queues, p);
    }
  }

  method MergeBand(groups: seq<Group>, p: int, queues: seq<seq<Entry>>)
    returns (merged: seq<Entry>, ghost band: seq<Tagged>)
    requires |queues| == |groups|
    requires forall g | 0 <= g < |groups| :: queues[g] == Queue(groups, g, p) && AllOf(queues[g], p)
    ensures merged == Entries(band) && BandOf(groups, band, p)
  {
    merged, band := RoundRobin(p, queues);
    forall k | 0 <= k <= |band|
      ensures GroupsFair(groups, band[..k], p)
    {
      assert BandFairNow(queues, band[..k], p);
    }
  }

  lemma QueuesAt(groups: seq<Group>, queues: Queues, p: int)
    requires Built(queues, Accumulated(groups, |groups|, 0))
    ensures p in queues ==> |queues[p]| == |groups|
    ensures p in queues ==>
      forall g | 0 <= g < |groups| :: queues[p][g] == Queue(groups, g, p) && AllOf(queues[p][g], p)
    ensures p !in queues ==> forall g | 0 <= g < |groups| :: Queue(groups, g, p) == []
  {
    var done := Accumulated(groups, |groups|, 0);
    forall g | 0 <= g < |groups|
      ensures OfPriority(done[g], p) == Queue(groups, g, p) && AllOf(Queue(groups, g, p), p)
    {
      OfPriorityAll(done[g], p);
    }
  }

  // ------------------------------------------------------------ uniqueness

  /** The entry at k is the next one of its group's queue. */
  lemma NextOfQueue(groups: seq<Group>, merged: seq<Tagged>, k: nat)
    requires Merge(groups, merged) && k < |merged|
    ensures var g, p := merged[k].group, PriorityOf(merged[k].entry);
            var c := |Part(merged[..k], g, p)|;
            c < |Queue(groups, g, p)| && merged[k].entry == Queue(groups, g, p)[c]
  {
    var g, p := merged[k].group, PriorityOf(merged[k].entry);
    assert merged == merged[..k] + [merged[k]] + merged[k + 1..];
    PartConcat(merged[..k] + [merged[k]], merged[k + 1..], g, p);
    PartSnoc(merged[..k], merged[k], g, p);
  }

  /** When the entry at k has a higher priority number, everything of priority p came before. */
  lemma CompleteBelow(groups: seq<Group>, merged: seq<Tagged>, k: nat, g: nat, p: int)
    requires Merge(groups, merged) && k < |merged| && g < |groups| && p < PriorityOf(merged[k].entry)
    ensures Part(merged[..k], g, p) == Queue(groups, g, p)
  {
    assert merged == merged[..k] + merged[k..];
    PartConcat(merged[..k], merged[k..], g, p);
    forall i | 0 <= i < |merged[k..]|
      ensures PriorityOf(merged[k..][i].entry) != p
    {
      assert PriorityOf(merged[k].entry) <= PriorityOf(merged[k + i].entry);
    }
    PartNone(merged[k..], g, p);
  }

  lemma {:induction false} PartNone(band: seq<Tagged>, g: nat, p: int)
    requires forall i | 0 <= i < |band| :: PriorityOf(band[i].entry) != p
    ensures Part(band, g, p) == []
  {
    if band != [] { PartNone(band[..|band| - 1], g, p); }
  }

  lemma SameNext(groups: seq<Group>, a: seq<Tagged>, b: seq<Tagged>, k: nat)
    requires Merge(groups, a) && Merge(groups, b) && k < |a| && k < |b| && a[..k] == b[..k]
    ensures a[k] == b[k]
  {
    NextOfQueue(groups, a, k);
    NextOfQueue(groups, b, k);
    var p, q := PriorityOf(a[k].entry), PriorityOf(b[k].entry);
    if p < q { CompleteBelow(groups, b, k, a[k].group, p); }
    if q < p { CompleteBelow(groups, a, k, b[k].group, q); }
    assert TurnAt(a[..k], a[k].group, b[k].group, p, |Queue(groups, b[k].group, p)|);
    assert TurnAt(b[..k], b[k].group, a[k].group, q, |Queue(groups, a[k].group, q)|);
  }

  lemma MergeLength(groups: seq<Group>, merged: seq<Tagged>)
    requires Merge(groups, merged)
    ensures |merged| == |All(groups)|
  {
    MergeConserves(groups, merged);
    assert |merged| == |Entries(merged)| == |multiset(Entries(merged))| == |multiset(All(groups))| == |All(groups)|;
  }

  lemma TaggedUnique(groups: seq<Group>, a: seq<Tagged>, b: seq<Tagged>)
    requires Merge(groups, a) && Merge(groups, b)
    ensures a == b
  {
    MergeLength(groups, a);
    MergeLength(groups, b);
    for k := 0 to |a|
      invariant a[..k] == b[..k]
    {
      SameNext(groups, a, b, k);
      assert a[..k + 1] == a[..k] + [a[k]] && b[..k + 1] == b[..k] + [b[k]];
    }
    assert a[..|a|] == a && b[..|b|] == b;
  }

  /** The properties of a merge leave no choice: there is only one. */
  lemma MergeUnique(groups: seq<Group>, a: seq<Entry>, b: seq<Entry>)
    requires IsMerge(groups, a) && IsMerge(groups, b)
    ensures a == b
  {
    var x :| Merge(groups, x) && Entries(x) == a;
    var y :| Merge(groups, y) && Entries(y) == b;
    TaggedUnique(groups, x, y);
  }

  /** At most n entries, in a new slice. */
  method TakeReady(entries: seq<Entry>, n: int) returns (selected: array<Entry>)
    ensures fresh(selected) && selected[..] <= entries
    ensures selected.Length == if n <= 0 then 0 else if n > |entries| then |entries| else n
  {
    var count := if n <= 0 then 0 else if n > |entries| then |entries| else n;
    selected := new Entry[count](i requires 0 <= i < count <= |entries| => entries[i]);
  }
}
